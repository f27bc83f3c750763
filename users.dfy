/**
  The record projector: how one export cell is resolved for a user and a
  field name, and how one user's row is built. A name from the fixed user
  schema is read from the user object; every other name is looked up in the
  user's metadata, where an array value is written as its JSON encoding.
*/
module Users {
  import opened Wrappers
  import opened PhpStrings

  /** The seven attributes read directly from the user object. */
  datatype SchemaAttr =
    | Id | UserLogin | UserEmail | FirstName | LastName | DisplayName | UserRegistered

  /** The field name under which each schema attribute is requested. */
  function AttrName(a: SchemaAttr): string {
    match a
    case Id => "ID"
    case UserLogin => "user_login"
    case UserEmail => "user_email"
    case FirstName => "first_name"
    case LastName => "last_name"
    case DisplayName => "display_name"
    case UserRegistered => "user_registered"
  }

  /** The schema attributes, in the order the source lists their names. */
  const SchemaAttrs: seq<SchemaAttr> :=
    [Id, UserLogin, UserEmail, FirstName, LastName, DisplayName, UserRegistered]

  /** The first attribute in `attrs` whose name is `name`: a linear search, as `in_array` does. */
  function FindAttr(name: string, attrs: seq<SchemaAttr>): Option<SchemaAttr>
  {
    if attrs == [] then None
    else if AttrName(attrs[0]) == name then Some(attrs[0])
    else FindAttr(name, attrs[1..])
  }

  /**
    The schema attribute a field name requests, if any (the `in_array` test
    against the seven names). None of the names is numeric, so PHP's loose
    comparison is plain string equality here.
  */
  function SchemaAttrOf(name: string): Option<SchemaAttr>
  {
    FindAttr(name, SchemaAttrs)
  }

  /** The search finds an attribute of the list with that name, and finds one whenever there is one. */
  lemma {:induction false} FindAttrCorrect(name: string, attrs: seq<SchemaAttr>)
    ensures FindAttr(name, attrs).Some? ==>
              FindAttr(name, attrs).value in attrs && AttrName(FindAttr(name, attrs).value) == name
    ensures FindAttr(name, attrs).None? ==> forall a :: a in attrs ==> AttrName(a) != name
  {
    if attrs != [] && AttrName(attrs[0]) != name {
      FindAttrCorrect(name, attrs[1..]);
      assert attrs == [attrs[0]] + attrs[1..];
    }
  }

  /** No two schema attributes share a name. */
  lemma AttrNameInjective(a: SchemaAttr, b: SchemaAttr)
    requires AttrName(a) == AttrName(b)
    ensures a == b
  {
  }

  /** A field name requests attribute `a` exactly when it is `a`'s name. */
  lemma SchemaAttrOfCorrect(name: string, a: SchemaAttr)
    ensures SchemaAttrOf(name) == Some(a) <==> AttrName(a) == name
  {
    FindAttrCorrect(name, SchemaAttrs);
    assert a in SchemaAttrs by {
      match a
      case Id => assert SchemaAttrs[0] == a;
      case UserLogin => assert SchemaAttrs[1] == a;
      case UserEmail => assert SchemaAttrs[2] == a;
      case FirstName => assert SchemaAttrs[3] == a;
      case LastName => assert SchemaAttrs[4] == a;
      case DisplayName => assert SchemaAttrs[5] == a;
      case UserRegistered => assert SchemaAttrs[6] == a;
    }
    if SchemaAttrOf(name).Some? && AttrName(a) == name {
      AttrNameInjective(a, SchemaAttrOf(name).value);
    }
  }

  /** A stored metadata value: a scalar string or a PHP array of key/value entries. */
  datatype MetaValue =
    | Scalar(text: string)
    | Arr(entries: seq<MetaEntry>)

  datatype MetaEntry = MetaEntry(key: string, value: MetaValue)

  /** `json_encode($value, JSON_UNESCAPED_UNICODE)` for an array value. */
  type JsonEncoder = seq<MetaEntry> -> string

  /**
    A user as the user source returns it: the schema attributes that are set
    (an attribute missing from the map is unset) and the metadata mapping.
  */
  datatype User = User(attributes: map<SchemaAttr, string>, meta: map<string, MetaValue>)

  /** `get_user_meta($id, $key, true)`: the stored value, or '' when there is none. */
  function UserMeta(u: User, key: string): MetaValue
  {
    if key in u.meta then u.meta[key] else Scalar("")
  }

  /** The cell written for user `u` under field `name`. */
  function Cell(u: User, name: string, json: JsonEncoder): string
  {
    match SchemaAttrOf(name)
    case Some(a) => if a in u.attributes then u.attributes[a] else ""
    case None =>
      match UserMeta(u, name)
      case Scalar(s) => s
      case Arr(entries) => json(entries)
  }

  /**
    A schema field is read from the user object alone, never from metadata:
    it is the attribute when set and '' otherwise.
  */
  lemma CellOfSchemaField(u: User, a: SchemaAttr, meta: map<string, MetaValue>, json: JsonEncoder)
    ensures Cell(u, AttrName(a), json) == Cell(u.(meta := meta), AttrName(a), json)
    ensures Cell(u, AttrName(a), json) == if a in u.attributes then u.attributes[a] else ""
  {
    SchemaAttrOfCorrect(AttrName(a), a);
  }

  /**
    Any other field is read from metadata alone, never from the attributes: a
    missing key gives '', a scalar is passed through, an array gives its JSON.
  */
  lemma CellOfMetaField(u: User, name: string, attributes: map<SchemaAttr, string>, json: JsonEncoder)
    requires forall a :: AttrName(a) != name
    ensures Cell(u, name, json) == Cell(u.(attributes := attributes), name, json)
    ensures name !in u.meta ==> Cell(u, name, json) == ""
    ensures name in u.meta && u.meta[name].Scalar? ==> Cell(u, name, json) == u.meta[name].text
    ensures name in u.meta && u.meta[name].Arr? ==> Cell(u, name, json) == json(u.meta[name].entries)
  {
    if SchemaAttrOf(name).Some? {
      SchemaAttrOfCorrect(name, SchemaAttrOf(name).value);
    }
  }

  /**
    The row built for `u` by the inner loop over `fields`: each field is
    trimmed again, a field PHP treats as empty is skipped, and every other
    field contributes its cell.
  */
  function RowOf(u: User, fields: seq<string>, json: JsonEncoder): (row: seq<string>)
    ensures |row| <= |fields|
  {
    if fields == [] then []
    else
      var field := Trim(fields[|fields| - 1]);
      RowOf(u, fields[..|fields| - 1], json) + (if PhpEmpty(field) then [] else [Cell(u, field, json)])
  }

  /**
    For fields that are trimmed and not empty, no field is skipped: the row
    has one cell per field, and cell `j` is the cell of field `j`.
  */
  lemma {:induction false} RowOfWellFormed(u: User, fields: seq<string>, json: JsonEncoder)
    requires forall j :: 0 <= j < |fields| ==> IsTrimmed(fields[j]) && !PhpEmpty(fields[j])
    ensures |RowOf(u, fields, json)| == |fields|
    ensures forall j :: 0 <= j < |fields| ==> RowOf(u, fields, json)[j] == Cell(u, fields[j], json)
  {
    if fields != [] {
      var n := |fields|;
      var init, last := fields[..n - 1], fields[n - 1];
      RowOfWellFormed(u, init, json);
      TrimOfTrimmed(last);
      var row := RowOf(u, fields, json);
      assert row == RowOf(u, init, json) + [Cell(u, last, json)];
      forall j | 0 <= j < n ensures row[j] == Cell(u, fields[j], json) {
        if j < n - 1 {
          assert fields[j] == init[j];
        }
      }
    }
  }

  /** The row for the first `j + 1` fields extends the row for the first `j`. */
  lemma RowOfExtend(u: User, fields: seq<string>, j: nat, json: JsonEncoder)
    requires j < |fields|
    ensures RowOf(u, fields[..j + 1], json) ==
              RowOf(u, fields[..j], json) + (if PhpEmpty(Trim(fields[j])) then [] else [Cell(u, Trim(fields[j]), json)])
  {
    assert fields[..j + 1][..j] == fields[..j];
  }
}
