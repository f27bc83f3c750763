/**
  The user exporter: the stored field list and its default, the activation
  hook, the save action, and the export action that parses the field list,
  projects every user onto it and streams the table as CSV, or stops with
  one of three errors.
*/
module Exporter {
  import opened Wrappers
  import opened PhpStrings
  import opened FieldList
  import opened Users
  import opened Csv
  import opened Options

  /** The option that holds the field list text. */
  const FieldsOption: string := "bf_user_export_fields"

  /** The five schema fields of the default field list, in order. */
  const DefaultFieldNames: seq<string> := ["ID", "user_login", "user_email", "first_name", "last_name"]

  /** The field list used when none is stored: the five default names, one per line. */
  const DefaultFields: string := Implode(DefaultFieldNames)

  /** The default text, written out, is the source's literal value. */
  lemma DefaultFieldsText()
    ensures DefaultFields == "ID" + "\n" + ("user_login" + "\n" + ("user_email" + "\n" + ("first_name" + "\n" + "last_name")))
  {
    var names, n := DefaultFieldNames, [Newline];
    assert n == "\n";
    assert Implode(names[4..]) == "last_name";
    assert Implode(names[3..]) == "first_name" + n + Implode(names[4..]);
    assert Implode(names[2..]) == "user_email" + n + Implode(names[3..]);
    assert Implode(names[1..]) == "user_login" + n + Implode(names[2..]);
    assert Implode(names) == "ID" + n + Implode(names[1..]);
  }

  /** The default field list parses to the five schema names, in this order. */
  lemma DefaultFieldsParse()
    ensures ParseFields(DefaultFields) ==
              [AttrName(Id), AttrName(UserLogin), AttrName(UserEmail), AttrName(FirstName), AttrName(LastName)]
  {
    ParseFieldsImplode(DefaultFieldNames);
  }

  // ---------------------------------------------------------------------------
  // The option map before and after each settings operation

  /** The options after activation: the default is stored only if the option is unset. */
  function ActivatedOptions(m: map<string, string>): map<string, string>
  {
    if FieldsOption in m then m else m[FieldsOption := DefaultFields]
  }

  /** Activation leaves a set option alone, always leaves it set, and a second activation changes nothing. */
  lemma ActivateIdempotent(m: map<string, string>)
    ensures FieldsOption in m ==> ActivatedOptions(m) == m
    ensures FieldsOption in ActivatedOptions(m)
    ensures ActivatedOptions(ActivatedOptions(m)) == ActivatedOptions(m)
  {
  }

  /** Whether the stored field list counts as missing: unset (`false`), "" or "0". */
  predicate FieldsMissing(m: map<string, string>) {
    FieldsOption !in m || PhpEmpty(m[FieldsOption])
  }

  /** The field list text that reading the setting returns. */
  function StoredFields(m: map<string, string>): string
  {
    if FieldsMissing(m) then DefaultFields else m[FieldsOption]
  }

  /** The options after reading the setting: a missing value is replaced by the default. */
  function HealedOptions(m: map<string, string>): map<string, string>
  {
    if FieldsMissing(m) then m[FieldsOption := DefaultFields] else m
  }

  /**
    Reading the setting never yields an empty value; afterwards the option
    holds exactly what was returned, and reading again returns the same text
    and changes nothing more.
  */
  lemma ReadHeals(m: map<string, string>)
    ensures !PhpEmpty(StoredFields(m))
    ensures FieldsOption in HealedOptions(m) && HealedOptions(m)[FieldsOption] == StoredFields(m)
    ensures !FieldsMissing(m) ==> HealedOptions(m) == m && StoredFields(m) == m[FieldsOption]
    ensures StoredFields(HealedOptions(m)) == StoredFields(m)
    ensures HealedOptions(HealedOptions(m)) == HealedOptions(m)
  {
  }

  /** The options after saving `input`: empty input stores the default instead. */
  function SavedOptions(m: map<string, string>, input: string): map<string, string>
  {
    m[FieldsOption := if PhpEmpty(input) then DefaultFields else input]
  }

  /**
    After a save the stored list is never missing: reading it returns the
    input, or the default when the input was empty, and does not write.
  */
  lemma SaveThenRead(m: map<string, string>, input: string)
    ensures !FieldsMissing(SavedOptions(m, input))
    ensures StoredFields(SavedOptions(m, input)) == if PhpEmpty(input) then DefaultFields else input
    ensures HealedOptions(SavedOptions(m, input)) == SavedOptions(m, input)
    ensures forall k :: k in m && k != FieldsOption ==> k in SavedOptions(m, input) && SavedOptions(m, input)[k] == m[k]
  {
  }

  // ---------------------------------------------------------------------------
  // The export

  datatype ExportError = NoFields | NoUsers | NoData

  /** An export either stops with an error or produces the writes of a download. */
  datatype ExportOutcome = Failed(error: ExportError) | Download(writes: seq<Write>)

  /** The table the export builds: the header row, then one row per user. */
  function ExportTable(fields: seq<string>, users: seq<User>, json: JsonEncoder): seq<seq<string>>
  {
    [fields] + seq(|users|, i requires 0 <= i < |users| => RowOf(users[i], fields, json))
  }

  /**
    For a parsed field list, the table has one row more than there are users,
    its header is the field list, every row is as wide as the header, and the
    cell of user `i` under field `j` is that user's value for that field.
  */
  lemma ExportTableShape(fields: seq<string>, users: seq<User>, json: JsonEncoder)
    requires forall j :: 0 <= j < |fields| ==> IsTrimmed(fields[j]) && !PhpEmpty(fields[j])
    ensures var t := ExportTable(fields, users, json);
            && |t| == |users| + 1
            && t[0] == fields
            && (forall r :: 0 <= r < |t| ==> |t[r]| == |fields|)
            && (forall i, j :: 0 <= i < |users| && 0 <= j < |fields| ==>
                  t[i + 1][j] == Cell(users[i], fields[j], json))
  {
    var t := ExportTable(fields, users, json);
    forall r | 1 <= r < |t|
      ensures |t[r]| == |fields|
      ensures forall j :: 0 <= j < |fields| ==> t[r][j] == Cell(users[r - 1], fields[j], json)
    {
      assert t[r] == RowOf(users[r - 1], fields, json);
      RowOfWellFormed(users[r - 1], fields, json);
    }
  }

  /** Builds the table the way the export loop does, one user row after another. */
  method BuildTable(fields: seq<string>, users: seq<User>, json: JsonEncoder) returns (data: seq<seq<string>>)
    ensures data == ExportTable(fields, users, json)
  {
    data := [fields];
    for i := 0 to |users|
      invariant data == ExportTable(fields, users[..i], json)
    {
      var userData := BuildRow(users[i], fields, json);
      ExportTableExtend(fields, users, i, json);
      data := data + [userData];
    }
    assert users[..|users|] == users;
  }

  /** The table for the first `i + 1` users extends the table for the first `i` by one row. */
  lemma ExportTableExtend(fields: seq<string>, users: seq<User>, i: nat, json: JsonEncoder)
    requires i < |users|
    ensures ExportTable(fields, users[..i + 1], json) ==
              ExportTable(fields, users[..i], json) + [RowOf(users[i], fields, json)]
  {
  }

  /**
    The inner loop of the export: one cell per field, skipping a field that
    is empty once trimmed.
  */
  method BuildRow(user: User, fields: seq<string>, json: JsonEncoder) returns (userData: seq<string>)
    ensures userData == RowOf(user, fields, json)
  {
    userData := [];
    for j := 0 to |fields|
      invariant userData == RowOf(user, fields[..j], json)
    {
      RowOfExtend(user, fields, j, json);
      var field := Trim(fields[j]);
      if PhpEmpty(field) {
        continue;
      }
      userData := userData + [Cell(user, field, json)];
    }
    assert fields[..|fields|] == fields;
  }

  /**
    The outcome of exporting with field list text `text`: no fields is
    reported first, then no users; the no-data error can never occur, and a
    download happens exactly when there are both fields and users.
  */
  function ExportOutcomeOf(text: string, users: seq<User>, json: JsonEncoder): (outcome: ExportOutcome)
    ensures outcome == Failed(NoFields) <==> ParseFields(text) == []
    ensures outcome == Failed(NoUsers) <==> ParseFields(text) != [] && users == []
    ensures outcome != Failed(NoData)
    ensures outcome.Download? <==> ParseFields(text) != [] && users != []
  {
    var fields := ParseFields(text);
    if fields == [] then Failed(NoFields)
    else if users == [] then Failed(NoUsers)
    else
      var data := ExportTable(fields, users, json);
      if |data| <= 1 then Failed(NoData)
      else Download(CsvStream(data))
  }

  /**
    A download writes the byte-order mark, then the header (the parsed field
    list), then one record per user in order, each as wide as the header.
  */
  lemma DownloadShape(text: string, users: seq<User>, json: JsonEncoder)
    requires ExportOutcomeOf(text, users, json).Download?
    ensures var w := ExportOutcomeOf(text, users, json).writes;
            var fields := ParseFields(text);
            && |w| == |users| + 2
            && w[0] == RawBytes(Bom)
            && w[1] == Record(fields)
            && (forall r :: 1 <= r < |w| ==> w[r].Record? && |w[r].cells| == |fields|)
            && (forall i, j :: 0 <= i < |users| && 0 <= j < |fields| ==>
                  w[i + 2].Record? && w[i + 2].cells[j] == Cell(users[i], fields[j], json))
  {
    var fields := ParseFields(text);
    var t := ExportTable(fields, users, json);
    var w := ExportOutcomeOf(text, users, json).writes;
    assert w == CsvStream(t);
    CsvStreamShape(t);
    ExportTableShape(fields, users, json);
    forall r | 1 <= r < |w| ensures w[r].Record? && |w[r].cells| == |fields| {
      assert w[r] == Record(t[r - 1]);
    }
    forall i, j | 0 <= i < |users| && 0 <= j < |fields|
      ensures w[i + 2].Record? && w[i + 2].cells[j] == Cell(users[i], fields[j], json)
    {
      assert w[i + 2] == Record(t[i + 1]);
    }
  }

  /** The export branch once the field list text has been read. */
  method RunExport(text: string, users: seq<User>, json: JsonEncoder) returns (outcome: ExportOutcome)
    ensures outcome == ExportOutcomeOf(text, users, json)
  {
    var fields := ParseFields(text);
    if fields == [] {
      return Failed(NoFields);
    }
    if users == [] {
      return Failed(NoUsers);
    }
    var data := BuildTable(fields, users, json);
    if |data| <= 1 {
      return Failed(NoData);
    }
    var writes := EmitCsv(data);
    return Download(writes);
  }

  // ---------------------------------------------------------------------------
  // The plugin object

  /** The form submission: the sanitized field text if "save" was pressed, and whether "export" was. */
  datatype Request = Request(saveFields: Option<string>, exportCsv: bool)

  datatype Notice = SettingsUpdated | ExportNotice(error: ExportError)

  /** The notices queued for the admin page, and the download if one was produced. */
  datatype Response = Response(notices: seq<Notice>, download: Option<seq<Write>>)

  class UserExporter {
    /** The option table this plugin instance reads and writes. */
    const store: OptionStore

    constructor (store: OptionStore)
      ensures this.store == store
    {
      this.store := store;
    }

    /** The activation hook: stores the default field list only if none is set. */
    method Activate()
      modifies store
      ensures store.options == ActivatedOptions(old(store.options))
    {
      if store.GetOption(FieldsOption).None? {
        store.UpdateOption(FieldsOption, DefaultFields);
      }
    }

    /** Reads the field list text, writing the default back when the stored value is missing. */
    method GetExportFields() returns (fields: string)
      modifies store
      ensures fields == StoredFields(old(store.options))
      ensures store.options == HealedOptions(old(store.options))
      ensures !PhpEmpty(fields) && store.options[FieldsOption] == fields
    {
      var stored := store.GetOption(FieldsOption);
      if stored.None? || PhpEmpty(stored.value) {
        fields := DefaultFields;
        store.UpdateOption(FieldsOption, fields);
      } else {
        fields := stored.value;
      }
    }

    /** The save action: stores the sanitized input, or the default when it is empty. */
    method SaveFields(input: string)
      modifies store
      ensures store.options == SavedOptions(old(store.options), input)
    {
      var fields := input;
      if PhpEmpty(fields) {
        fields := DefaultFields;
      }
      store.UpdateOption(FieldsOption, fields);
    }

    /** The export action: reads the field list, then exports `users` with it. */
    method Export(users: seq<User>, json: JsonEncoder) returns (outcome: ExportOutcome)
      modifies store
      ensures outcome == ExportOutcomeOf(StoredFields(old(store.options)), users, json)
      ensures store.options == HealedOptions(old(store.options))
    {
      var text := GetExportFields();
      outcome := RunExport(text, users, json);
    }

    /**
      One admin request: the save runs first, so an export in the same
      request uses the list just saved; a failed export leaves a notice, a
      successful one the download.
    */
    method HandleExport(request: Request, users: seq<User>, json: JsonEncoder) returns (response: Response)
      modifies store
      ensures var saved := if request.saveFields.Some?
                           then SavedOptions(old(store.options), request.saveFields.value)
                           else old(store.options);
              var outcome := ExportOutcomeOf(StoredFields(saved), users, json);
              && store.options == (if request.exportCsv then HealedOptions(saved) else saved)
              && response.notices ==
                   (if request.saveFields.Some? then [SettingsUpdated] else [])
                   + (if request.exportCsv && outcome.Failed? then [ExportNotice(outcome.error)] else [])
              && response.download ==
                   (if request.exportCsv && outcome.Download? then Some(outcome.writes) else None)
    {
      var notices: seq<Notice> := [];
      if request.saveFields.Some? {
        SaveFields(request.saveFields.value);
        notices := notices + [SettingsUpdated];
      }
      ghost var saved := store.options;
      ghost var expected := ExportOutcomeOf(StoredFields(saved), users, json);
      var download: Option<seq<Write>> := None;
      if request.exportCsv {
        var outcome := Export(users, json);
        assert outcome == expected;
        match outcome
        case Failed(error) =>
          notices := notices + [ExportNotice(error)];
        case Download(writes) =>
          download := Some(writes);
      }
      response := Response(notices, download);
    }
  }
}
