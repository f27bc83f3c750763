/**
  The PHP string primitives the exporter relies on: `trim` with its default
  character list, `empty` applied to a string, and `explode`/`implode` on the
  newline separator. A PHP string is a sequence of bytes; here each `char`
  stands for one byte.
*/
module PhpStrings {

  /** The separator the field list is split on. */
  const Newline: char := '\n'

  /** The characters PHP's `trim` strips by default: " \t\n\r\0\x0B". */
  predicate IsTrimChar(c: char) {
    c == ' ' || c == '\t' || c == '\n' || c == '\r' || c == '\0' || c == '\U{B}'
  }

  /** `empty($s)` for a string `$s`: true for "" and for "0". */
  predicate PhpEmpty(s: string) {
    |s| == 0 || (|s| == 1 && s[0] == '0')
  }

  /** Neither end of `s` is a character `trim` strips. */
  predicate IsTrimmed(s: string) {
    s == [] || (!IsTrimChar(s[0]) && !IsTrimChar(s[|s| - 1]))
  }

  /** Every character of `t` is one `trim` strips. */
  predicate AllTrimChars(t: string) {
    forall k :: 0 <= k < |t| ==> IsTrimChar(t[k])
  }

  /** The number of trim characters `s` starts with. */
  function LeadCount(s: string): (n: nat)
    ensures n <= |s| && AllTrimChars(s[..n])
    ensures n == |s| || !IsTrimChar(s[n])
  {
    if s != [] && IsTrimChar(s[0]) then
      var n := 1 + LeadCount(s[1..]);
      assert s[..n] == [s[0]] + s[1..][..n - 1];
      n
    else 0
  }

  /** The number of trim characters `s` ends with. */
  function TrailCount(s: string): (n: nat)
    ensures n <= |s| && AllTrimChars(s[|s| - n..])
    ensures n == |s| || !IsTrimChar(s[|s| - n - 1])
  {
    if s != [] && IsTrimChar(s[|s| - 1]) then
      var init := s[..|s| - 1];
      var n := 1 + TrailCount(init);
      assert s[|s| - n..] == init[|init| - (n - 1)..] + [s[|s| - 1]];
      n
    else 0
  }

  /** The trailing run of trim characters stops after any non-trim character. */
  lemma {:induction false} TrailCountBound(s: string, k: nat)
    requires k < |s| && !IsTrimChar(s[k])
    ensures TrailCount(s) < |s| - k
  {
    if IsTrimChar(s[|s| - 1]) {
      TrailCountBound(s[..|s| - 1], k);
    }
  }

  /** `trim($s)`: `s` with every leading and trailing trim character removed. */
  function Trim(s: string): (r: string)
    ensures IsTrimmed(r)
  {
    var lo := LeadCount(s);
    if lo == |s| then []
    else
      TrailCountBound(s, lo);
      s[lo..|s| - TrailCount(s)]
  }

  /**
    `s` is its leading trim characters, then the trimmed string, then trim
    characters only: trimming removes nothing else.
  */
  lemma TrimSlice(s: string)
    ensures var lo := LeadCount(s);
            && lo + |Trim(s)| <= |s|
            && Trim(s) == s[lo..lo + |Trim(s)|]
            && AllTrimChars(s[..lo])
            && AllTrimChars(s[lo + |Trim(s)|..])
  {
    var lo := LeadCount(s);
    if lo < |s| {
      TrailCountBound(s, lo);
      var hi := |s| - TrailCount(s);
      assert Trim(s) == s[lo..hi];
      assert s[lo + |Trim(s)|..] == s[|s| - TrailCount(s)..];
    } else {
      assert Trim(s) == [] && s[lo + |Trim(s)|..] == [];
    }
  }

  /** Trimming a trimmed string changes nothing. */
  lemma TrimOfTrimmed(s: string)
    requires IsTrimmed(s)
    ensures Trim(s) == s
  {
    assert LeadCount(s) == 0;
    assert TrailCount(s) == 0;
  }

  /** `trim` is idempotent. */
  lemma TrimIdempotent(s: string)
    ensures Trim(Trim(s)) == Trim(s)
  {
    TrimOfTrimmed(Trim(s));
  }

  /** `explode("\n", $s)`: the pieces of `s` between newlines, in order. */
  function Explode(s: string): (parts: seq<string>)
    ensures |parts| >= 1
    ensures forall i :: 0 <= i < |parts| ==> Newline !in parts[i]
  {
    if s == [] then [""]
    else
      var rest := Explode(s[1..]);
      if s[0] == Newline then [""] + rest
      else [[s[0]] + rest[0]] + rest[1..]
  }

  /** `implode("\n", $parts)`: the parts joined by newlines ("" for no parts). */
  function Implode(parts: seq<string>): string
  {
    if parts == [] then ""
    else if |parts| == 1 then parts[0]
    else parts[0] + [Newline] + Implode(parts[1..])
  }

  /** Joining the pieces of `s` gives `s` back. */
  lemma {:induction false} ImplodeExplode(s: string)
    ensures Implode(Explode(s)) == s
  {
    if s != [] {
      var rest := Explode(s[1..]);
      ImplodeExplode(s[1..]);
      if s[0] != Newline {
        if |rest| == 1 {
          assert Explode(s) == [[s[0]] + rest[0]];
        } else {
          assert Explode(s)[1..] == rest[1..];
          assert Implode(rest) == rest[0] + [Newline] + Implode(rest[1..]);
        }
      }
    }
  }

  /** Splitting newline-free parts after joining them gives the parts back. */
  lemma {:induction false} ExplodeImplode(parts: seq<string>)
    requires |parts| >= 1
    requires forall i :: 0 <= i < |parts| ==> Newline !in parts[i]
    ensures Explode(Implode(parts)) == parts
  {
    if |parts| == 1 {
      ExplodeNoNewline(parts[0]);
    } else {
      ExplodeImplode(parts[1..]);
      ExplodeConcat(parts[0], Implode(parts[1..]));
      ExplodeNoNewline(parts[0]);
      assert parts == [parts[0]] + parts[1..];
    }
  }

  /** A string without newlines is one piece. */
  lemma {:induction false} ExplodeNoNewline(s: string)
    requires Newline !in s
    ensures Explode(s) == [s]
  {
    if s != [] {
      assert Newline !in s[1..] by {
        forall k | 0 <= k < |s| - 1 ensures s[1..][k] != Newline {
          assert s[1..][k] == s[k + 1];
        }
      }
      ExplodeNoNewline(s[1..]);
      assert [s[0]] + s[1..] == s;
    }
  }

  /** Splitting `a + "\n" + b` splits `a` and `b` separately, in order. */
  lemma {:induction false} ExplodeConcat(a: string, b: string)
    ensures Explode(a + [Newline] + b) == Explode(a) + Explode(b)
  {
    if a == [] {
      ExplodeCons(Newline, b);
      assert a + [Newline] + b == [Newline] + b;
    } else {
      var t := a[1..] + [Newline] + b;
      assert a + [Newline] + b == [a[0]] + t;
      assert a == [a[0]] + a[1..];
      ExplodeConcat(a[1..], b);
      ExplodeCons(a[0], t);
      ExplodeCons(a[0], a[1..]);
    }
  }

  /** How the pieces change when one character is put in front. */
  lemma ExplodeCons(c: char, t: string)
    ensures c == Newline ==> Explode([c] + t) == [""] + Explode(t)
    ensures c != Newline ==> Explode([c] + t) == [[c] + Explode(t)[0]] + Explode(t)[1..]
  {
    assert ([c] + t)[1..] == t;
  }
}
