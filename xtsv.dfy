/** The host framework's side of the adapters: a row is the list of a
    token's field values, a sentence is a buffer of rows the caller owns,
    and the field-name index maps a column name to its position in a row.
    The Python exceptions the adapters can raise are values of `Error`. */
module Xtsv {

  type Row = seq<string>

  /** Column name to column position, as `prepare_fields` hands it over. */
  type FieldNames = map<string, nat>

  datatype Option<+T> = None | Some(value: T)

  /** The exceptions the adapter code raises or lets escape. */
  datatype Error =
    | ValueError(message: string)
    | NotImplementedError(message: string)
    | KeyError(key: string)
    | IndexError

  datatype Result<+T> = Ok(value: T) | Err(error: Error)

  /** `line[field_names[name]]`: a missing column name is a KeyError, a
      position past the end of the row an IndexError. */
  function Cell(row: Row, fieldNames: FieldNames, name: string): (r: Result<string>)
    ensures r.Ok? <==> name in fieldNames && fieldNames[name] < |row|
    ensures r.Ok? ==> r.value == row[fieldNames[name]]
    ensures name !in fieldNames ==> r == Err(KeyError(name))
    ensures name in fieldNames && fieldNames[name] >= |row| ==> r == Err(IndexError)
  {
    if name !in fieldNames then Err(KeyError(name))
    else if fieldNames[name] >= |row| then Err(IndexError)
    else Ok(row[fieldNames[name]])
  }

  /** `zip(rows, extra)` followed by `row += more` on each pair: the first
      min(|rows|, |extra|) rows are extended, the rest are left alone. */
  function ZipAppend(rows: seq<Row>, extra: seq<Row>): (r: seq<Row>)
    ensures |r| == |rows|
  {
    if |rows| == 0 || |extra| == 0 then rows
    else [rows[0] + extra[0]] + ZipAppend(rows[1..], extra[1..])
  }

  /** What ZipAppend does to each row: the paired rows keep all their
      fields and gain exactly their extension; unpaired rows do not change;
      no row is added or dropped. */
  lemma {:induction false} ZipAppendAt(rows: seq<Row>, extra: seq<Row>, i: nat)
    requires i < |rows|
    ensures |ZipAppend(rows, extra)| == |rows|
    ensures ZipAppend(rows, extra)[i] == if i < |extra| then rows[i] + extra[i] else rows[i]
  {
    if |rows| > 0 && |extra| > 0 && i > 0 {
      ZipAppendAt(rows[1..], extra[1..], i - 1);
    } else if |rows| > 0 && |extra| > 0 && |rows| > 1 {
      ZipAppendAt(rows[1..], extra[1..], 0);
    }
  }

  /** Elementwise characterisation: any sequence that extends the paired
      rows and keeps the others is ZipAppend's result. */
  lemma ZipAppendEq(rows: seq<Row>, extra: seq<Row>, result: seq<Row>)
    requires |result| == |rows|
    requires forall i :: 0 <= i < |rows| ==> result[i] == if i < |extra| then rows[i] + extra[i] else rows[i]
    ensures result == ZipAppend(rows, extra)
  {
    if |rows| > 0 {
      ZipAppendAt(rows, extra, 0);
    }
    forall i | 0 <= i < |rows| ensures result[i] == ZipAppend(rows, extra)[i] {
      ZipAppendAt(rows, extra, i);
    }
  }
}
