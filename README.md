# BF User Exporter — a Dafny model of the export pipeline

The WordPress plugin `BF_User_Exporter` keeps a list of field names in one
site option (`bf_user_export_fields`, one name per line). On request it
writes every user to a CSV download with one column per listed field.
This project models the plugin's core and proves properties of the model.
The core has four parts:

- **The field-list parser** (`FieldList`, on top of `PhpStrings`). The
  stored text goes through `explode("\n")`, then `array_map('trim')`, then
  `array_filter`. The model spells out PHP's `trim` character set and
  `empty` rule, so `"0"` is dropped along with `""`.
- **The record projector** (`Users`). A name among the seven schema fields
  (`ID`, `user_login`, `user_email`, `first_name`, `last_name`,
  `display_name`, `user_registered`) is read from the user object. It gives
  `''` when unset. Any other name is looked up in the user's metadata. A
  missing key gives `''`, a scalar is passed through, and an array becomes
  its JSON encoding.
- **The export** (`Exporter`, `Csv`). It checks for no fields, then for no
  users, builds the table with two nested loops, and checks for no data. It
  then writes the UTF-8 byte-order mark EF BB BF followed by one CSV record
  per row. The `foreach` loops are `for` loops, proved against the
  functions `RowOf` and `ExportTable`.
- **The settings store** (`Options`, `Exporter.UserExporter`). The option
  table is a class holding a `map<string, string>`. Activation, reading the
  field list and saving the field list are methods that update it in place.
  Each method's new state is a function of the old map, and the lemmas
  about those functions state what the plugin promises: activation is
  idempotent, a read never returns an empty value, and saving empty input
  stores the default.

Four WordPress and PHP library calls become inputs:
- `get_users` is the `users` sequence.
- `get_user_meta` reads each user's `meta` map.
- `sanitize_textarea_field` is the request's already-sanitized text.
- `json_encode` is the function-valued parameter `json`.

The repository also ships `inc/class-crypt.php`, an AES-128-ECB wrapper.
`bf-user-exporter.php` never includes or calls it, and no line treats a
leading `*` specially. So a line `*secret` is an ordinary field: it is looked
up in metadata under that exact key, and the header shows the `*`. The code
checks three abort conditions, in order: no fields, no users, no data. The
model keeps all three and proves that the third can never occur.

## Model

| member | source | states |
|---|---|---|
| PhpStrings.Trim | bf-user-exporter.php:94 | `trim` leaves neither end of its result as a whitespace or NUL character of PHP's default list |
| PhpStrings.TrimSlice | bf-user-exporter.php:94 | the input is its leading trim characters, then the result, then trailing trim characters only; nothing inside is removed |
| PhpStrings.PhpEmpty | bf-user-exporter.php:75 | PHP's `empty` on a string: true for `""` and `"0"` only; the same test is used at lines 85, 95 and 122 (see FilterEmptyCounts, ReadHeals, SaveThenRead); line 97 applies `empty` to the filtered array instead, which the model states as `ParseFields(text) == []` |
| PhpStrings.TrimIdempotent | bf-user-exporter.php:121 | trimming a field a second time changes nothing |
| PhpStrings.TrimOfTrimmed | bf-user-exporter.php:121 | a string with no trim character at either end is unchanged by `trim` |
| PhpStrings.Explode | bf-user-exporter.php:93 | `explode("\n")` always returns at least one piece, and no piece holds a newline |
| PhpStrings.ImplodeExplode | bf-user-exporter.php:93 | joining the pieces of a text with newlines restores the text |
| PhpStrings.ExplodeImplode | bf-user-exporter.php:93 | splitting a newline-join of newline-free pieces restores the pieces |
| PhpStrings.ExplodeConcat | bf-user-exporter.php:93 | the pieces of `a + "\n" + b` are the pieces of `a` followed by those of `b` |
| FieldList.FilterEmpty | bf-user-exporter.php:95 | `array_filter` keeps only entries that PHP does not consider empty, each one taken from the input |
| FieldList.FilterEmptyCounts | bf-user-exporter.php:95 | `""` and `"0"` are dropped entirely; every other value keeps its number of occurrences, so duplicates survive |
| FieldList.FilterEmptyAppend | bf-user-exporter.php:95 | filtering distributes over concatenation, so relative order is kept |
| FieldList.TrimEach | bf-user-exporter.php:94 | `array_map('trim')`: trims every line and keeps the order (see TrimEachAppend and TrimEachOfTrimmed) |
| FieldList.ParseFields | bf-user-exporter.php:93-95 | every parsed field is trimmed, is neither `""` nor `"0"` and holds no newline; there are at most as many fields as lines |
| FieldList.ParseFieldsLine | bf-user-exporter.php:93-95 | one line parses to its trimmed text, or to nothing when that text is `""` or `"0"` |
| FieldList.ParseFieldsConcat | bf-user-exporter.php:93-95 | the fields of two texts joined by a newline are the fields of the first followed by those of the second (order and duplicates kept) |
| FieldList.ParseFieldsImplode | bf-user-exporter.php:93-95 | a list of trimmed, non-empty, newline-free names, written one per line, parses back to itself |
| FieldList.ParseFieldsIdempotent | bf-user-exporter.php:93-95 | writing the parsed list back one per line and parsing again gives the same list |
| Users.SchemaAttrOf | bf-user-exporter.php:124 | the `in_array` test: the schema attribute a field name selects, characterized by SchemaAttrOfCorrect (and the search FindAttr by FindAttrCorrect) |
| Users.FindAttrCorrect | bf-user-exporter.php:124 | the `in_array` search finds an attribute with the requested name whenever the list has one, and finds nothing otherwise |
| Users.SchemaAttrOfCorrect | bf-user-exporter.php:124 | a field name selects schema attribute `a` exactly when it is `a`'s name |
| Users.UserMeta | bf-user-exporter.php:127 | `get_user_meta($id, $key, true)`: the stored value, or `''` when the key is absent (see CellOfMetaField) |
| Users.Cell | bf-user-exporter.php:124-128 | the record projector: the cell of one user under one field, characterized by CellOfSchemaField and CellOfMetaField |
| Users.CellOfSchemaField | bf-user-exporter.php:124-125 | a schema field gives the user's attribute, or `''` when unset, and never depends on metadata |
| Users.CellOfMetaField | bf-user-exporter.php:126-128 | any other field gives `''` for a missing key, the scalar for a scalar and the JSON text for an array, and never depends on the attributes |
| Users.RowOf | bf-user-exporter.php:119-131 | the row of one user: never wider than the field list; RowOfWellFormed and RowOfExtend pin it down |
| Users.RowOfWellFormed | bf-user-exporter.php:119-131 | for a parsed field list the `continue` never fires: the row has one cell per field, in field order |
| Users.RowOfExtend | bf-user-exporter.php:120-129 | one step of the inner loop appends the field's cell, or nothing when the trimmed field is empty |
| Exporter.DefaultFieldsText | bf-user-exporter.php:17 | the default field text is `"ID\nuser_login\nuser_email\nfirst_name\nlast_name"` |
| Exporter.DefaultFieldsParse | bf-user-exporter.php:17 | the default text parses to the five schema names ID, user_login, user_email, first_name, last_name, in that order |
| Exporter.ActivateIdempotent | bf-user-exporter.php:27-32 | activation leaves an existing option alone, always leaves it set, and a second activation changes nothing |
| Exporter.ReadHeals | bf-user-exporter.php:73-80 | reading never returns an empty value; afterwards the option holds what was returned; a non-empty value is returned unchanged, without a write |
| Exporter.SaveThenRead | bf-user-exporter.php:83-90 | after a save the option holds the input, or the default for empty input; a later read returns it without writing; no other option changes |
| Exporter.ExportTable | bf-user-exporter.php:113-132 | the header row followed by one row per user, characterized by ExportTableShape |
| Exporter.ExportTableShape | bf-user-exporter.php:113-132 | the table has one row more than there are users; its header is the field list; every row is as wide as the header; cell (i, j) is user i's value for field j |
| Exporter.ExportTableExtend | bf-user-exporter.php:118-132 | one step of the outer loop appends the user's row |
| Exporter.BuildRow | bf-user-exporter.php:119-131 | the inner loop builds exactly the row `RowOf` describes |
| Exporter.BuildTable | bf-user-exporter.php:113-132 | the outer loop builds exactly the table `ExportTable` describes |
| Exporter.ExportOutcomeOf | bf-user-exporter.php:93-148 | `no_fields` exactly when the parsed list is empty, whatever the users; `no_users` exactly when there are fields but no users; `no_data` never; a download exactly when there are both |
| Exporter.DownloadShape | bf-user-exporter.php:113-148 | a download is the byte-order mark, then the header record (the parsed fields), then one record per user in order, each as wide as the header and holding that user's cells |
| Exporter.RunExport | bf-user-exporter.php:93-148 | the export branch, with its checks in source order and its loops, yields exactly the outcome `ExportOutcomeOf` specifies |
| Csv.CsvStream | bf-user-exporter.php:144-148 | the byte-order mark then one record per row, characterized by CsvStreamShape |
| Csv.CsvStreamShape | bf-user-exporter.php:144-148 | the stream is the three bytes EF BB BF, followed by one record per row in order |
| Csv.EmitCsv | bf-user-exporter.php:143-148 | the writing loop produces exactly that stream |
| Options.OptionStore.GetOption | bf-user-exporter.php:74 | `get_option`: the stored value, or None (PHP's `false`) when unset; used by Activate and GetExportFields |
| Options.OptionStore.UpdateOption | bf-user-exporter.php:30 | `update_option` sets the one option and leaves every other option as it was |
| Exporter.UserExporter.Activate | bf-user-exporter.php:27-32 | the option map after activation is `ActivatedOptions` of the map before |
| Exporter.UserExporter.GetExportFields | bf-user-exporter.php:73-80 | returns a non-empty text that the option then holds; the map is healed as `HealedOptions` states |
| Exporter.UserExporter.SaveFields | bf-user-exporter.php:84-88 | the option map after a save is `SavedOptions` of the map before and the input |
| Exporter.UserExporter.Export | bf-user-exporter.php:92-152 | exporting reads (and heals) the stored list, then yields `ExportOutcomeOf` of that text |
| Exporter.UserExporter.HandleExport | bf-user-exporter.php:82-153 | save runs before export, so an export uses the list just saved; the notices, the download and the final option map all follow from the request and the map before |

## Left out

- The cipher class and the `*` encrypted-field marker are left out. The exporter's code never uses them (see above).
- The admin page HTML, menu registration, hook wiring and the message texts of `add_settings_error` are left out. Notices are the enum `Notice`.
- `check_admin_referer` is left out. On a bad nonce it ends the request, so the model treats every request as carrying a valid nonce.
- The HTTP headers, the `date('Y-m-d')` filename, `fopen`/`fclose` of the output and `exit` are left out. They are I/O and the clock.
- `fputcsv` quoting and escaping are left out. A record is the list of its cells.
- `json_encode` is the parameter `json`. Its output format and its `false` result on failure are not modelled.
- `get_users` is the input `users`. The model cannot express that users are never fetched after `no_fields`. It can express that this outcome does not depend on the users.
- `get_user_meta` is each user's `meta` map. Values are strings or arrays of entries; other PHP types (numbers, objects) are not modelled.
- `isset($user->$field)` and `$user->$field` are modelled as membership in, and lookup of, the user's attribute map. WordPress's magic `__isset` and `__get` on user objects are not modelled: in WordPress, `first_name` and `last_name` (and other names that are not columns of the user row) are resolved through user metadata (`metadata_exists`, `get_user_meta`). So CellOfSchemaField's "never depends on metadata" holds only because `attributes` is a separate input here; in WordPress a schema field such as `first_name` is read from the same metadata store.
- `array_filter` leaves gaps in the array keys. The model does not keep them, because `foreach` and `fputcsv` ignore keys.
- PHP strings are byte strings. Here each `char` stands for one byte; no encoding is modelled.
