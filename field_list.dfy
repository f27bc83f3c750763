/**
  The field-list parser: the stored field text is split on newlines, each
  line is trimmed, and the lines PHP considers empty ("" and "0") are
  dropped. What is left, in order and with duplicates, is the list of
  export columns.
*/
module FieldList {
  import opened PhpStrings

  /**
    `array_filter($xs)` without a callback, on strings: drops every entry PHP
    treats as empty and keeps the others in order, duplicates included.
  */
  function FilterEmpty(xs: seq<string>): (r: seq<string>)
    ensures |r| <= |xs|
    ensures forall i :: 0 <= i < |r| ==> !PhpEmpty(r[i]) && r[i] in xs
  {
    if xs == [] then []
    else (if PhpEmpty(xs[0]) then [] else [xs[0]]) + FilterEmpty(xs[1..])
  }

  /**
    The filter drops exactly the empty entries: every other value occurs in
    the result as many times as in the input.
  */
  lemma {:induction false} FilterEmptyCounts(xs: seq<string>, x: string)
    ensures multiset(FilterEmpty(xs))[x] == if PhpEmpty(x) then 0 else multiset(xs)[x]
  {
    if xs != [] {
      FilterEmptyCounts(xs[1..], x);
      var head := if PhpEmpty(xs[0]) then [] else [xs[0]];
      assert FilterEmpty(xs) == head + FilterEmpty(xs[1..]);
      assert multiset(FilterEmpty(xs)) == multiset(head) + multiset(FilterEmpty(xs[1..]));
      assert xs == [xs[0]] + xs[1..];
      assert multiset(xs) == multiset([xs[0]]) + multiset(xs[1..]);
    }
  }

  /** Filtering distributes over concatenation, so relative order is kept. */
  lemma {:induction false} FilterEmptyAppend(a: seq<string>, b: seq<string>)
    ensures FilterEmpty(a + b) == FilterEmpty(a) + FilterEmpty(b)
  {
    if a != [] {
      assert (a + b)[1..] == a[1..] + b;
      FilterEmptyAppend(a[1..], b);
    } else {
      assert a + b == b;
    }
  }

  /** A list with no empty entries passes the filter unchanged. */
  lemma {:induction false} FilterEmptyKeepsAll(xs: seq<string>)
    requires forall i :: 0 <= i < |xs| ==> !PhpEmpty(xs[i])
    ensures FilterEmpty(xs) == xs
  {
    if xs != [] {
      FilterEmptyKeepsAll(xs[1..]);
    }
  }

  /** `array_map('trim', $lines)`. */
  function TrimEach(lines: seq<string>): seq<string>
  {
    seq(|lines|, i requires 0 <= i < |lines| => Trim(lines[i]))
  }

  /** A trimmed slice of a newline-free string is newline-free. */
  lemma TrimKeepsNoNewline(s: string)
    requires Newline !in s
    ensures Newline !in Trim(s)
  {
    var r, lo := Trim(s), LeadCount(s);
    TrimSlice(s);
    forall k | 0 <= k < |r| ensures r[k] != Newline {
      assert r[k] == s[lo + k];
    }
  }

  /**
    The parsed field list of `text`: every entry is trimmed, is not a value
    PHP treats as empty, and holds no newline.
  */
  function ParseFields(text: string): (fields: seq<string>)
    ensures forall i :: 0 <= i < |fields| ==>
              IsTrimmed(fields[i]) && !PhpEmpty(fields[i]) && Newline !in fields[i]
    ensures |fields| <= |Explode(text)|
  {
    var lines := Explode(text);
    var trimmed := TrimEach(lines);
    forall i | 0 <= i < |trimmed| ensures Newline !in trimmed[i] {
      TrimKeepsNoNewline(lines[i]);
    }
    FilterEmpty(trimmed)
  }

  /** A single line parses to its trimmed self, or to nothing when that is empty. */
  lemma ParseFieldsLine(line: string)
    requires Newline !in line
    ensures ParseFields(line) == if PhpEmpty(Trim(line)) then [] else [Trim(line)]
  {
    ExplodeNoNewline(line);
  }

  /**
    Parsing `a + "\n" + b` parses `a` and `b` separately and concatenates:
    the lines keep their order, and a line that occurs twice gives two fields.
  */
  lemma ParseFieldsConcat(a: string, b: string)
    ensures ParseFields(a + [Newline] + b) == ParseFields(a) + ParseFields(b)
  {
    ExplodeConcat(a, b);
    var la, lb := Explode(a), Explode(b);
    TrimEachAppend(la, lb);
    FilterEmptyAppend(TrimEach(la), TrimEach(lb));
    calc {
      ParseFields(a + [Newline] + b);
      FilterEmpty(TrimEach(la + lb));
      FilterEmpty(TrimEach(la) + TrimEach(lb));
    }
  }

  lemma TrimEachAppend(a: seq<string>, b: seq<string>)
    ensures TrimEach(a + b) == TrimEach(a) + TrimEach(b)
  {
    var l, r := TrimEach(a + b), TrimEach(a) + TrimEach(b);
    assert |l| == |r|;
    forall i | 0 <= i < |a| + |b| ensures l[i] == r[i] {
      assert l[i] == Trim((a + b)[i]);
      if i < |a| {
        assert (a + b)[i] == a[i];
      } else {
        assert (a + b)[i] == b[i - |a|];
      }
    }
  }

  /**
    A list of trimmed, non-empty, newline-free names, joined with newlines,
    parses back to itself; no names give the empty text, which parses to none.
  */
  lemma ParseFieldsImplode(fields: seq<string>)
    requires forall i :: 0 <= i < |fields| ==>
               IsTrimmed(fields[i]) && !PhpEmpty(fields[i]) && Newline !in fields[i]
    ensures ParseFields(Implode(fields)) == fields
  {
    if fields == [] {
      assert TrimEach(Explode("")) == [""];
    } else {
      ExplodeImplode(fields);
      TrimEachOfTrimmed(fields);
      FilterEmptyKeepsAll(fields);
      calc {
        ParseFields(Implode(fields));
        FilterEmpty(TrimEach(Explode(Implode(fields))));
        FilterEmpty(TrimEach(fields));
        FilterEmpty(fields);
        fields;
      }
    }
  }

  /** Re-parsing the parsed list, joined with newlines, gives the same list. */
  lemma ParseFieldsIdempotent(text: string)
    ensures ParseFields(Implode(ParseFields(text))) == ParseFields(text)
  {
    ParseFieldsImplode(ParseFields(text));
  }

  /** Trimming entries that are already trimmed changes none of them. */
  lemma TrimEachOfTrimmed(xs: seq<string>)
    requires forall i :: 0 <= i < |xs| ==> IsTrimmed(xs[i])
    ensures TrimEach(xs) == xs
  {
    forall i | 0 <= i < |xs| ensures Trim(xs[i]) == xs[i] {
      TrimOfTrimmed(xs[i]);
    }
  }
}
