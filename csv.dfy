/**
  What the export writes to the response body: the UTF-8 byte-order mark,
  then one CSV record per row of the table. The quoting `fputcsv` applies to
  a record is PHP library behaviour; a record is kept as its list of cells.
*/
module Csv {

  /** One write to the output stream. */
  datatype Write =
    | RawBytes(bytes: seq<bv8>)     // `fprintf` of a literal byte string
    | Record(cells: seq<string>)    // `fputcsv` of one row

  /** The UTF-8 byte-order mark, EF BB BF. */
  const Bom: seq<bv8> := [0xEF, 0xBB, 0xBF]

  /** The stream for `rows`: the byte-order mark, then each row in order. */
  function CsvStream(rows: seq<seq<string>>): seq<Write>
  {
    [RawBytes(Bom)] + seq(|rows|, i requires 0 <= i < |rows| => Record(rows[i]))
  }

  /** The stream starts with the byte-order mark and then holds one record per row, in order. */
  lemma CsvStreamShape(rows: seq<seq<string>>)
    ensures |CsvStream(rows)| == |rows| + 1
    ensures CsvStream(rows)[0] == RawBytes(Bom)
    ensures forall i :: 0 <= i < |rows| ==> CsvStream(rows)[i + 1] == Record(rows[i])
  {
  }

  /** Writes the byte-order mark and then every row, one record at a time. */
  method EmitCsv(rows: seq<seq<string>>) returns (writes: seq<Write>)
    ensures writes == CsvStream(rows)
  {
    writes := [RawBytes(Bom)];
    for i := 0 to |rows|
      invariant |writes| == i + 1 && writes[0] == RawBytes(Bom)
      invariant forall k :: 0 <= k < i ==> writes[k + 1] == Record(rows[k])
    {
      writes := writes + [Record(rows[i])];
    }
  }
}
