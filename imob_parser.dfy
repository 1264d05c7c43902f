/**
 * `parsePastedData`: pasted text to positional records. The whole text is
 * trimmed once, cut into lines on "\n", and every line into fields on "\t";
 * field i feeds column COLUMN_MAP[i].
 */
module ImobParser {
  import opened JsText
  import opened ImobSchema

  /** The cell a field position yields: null for a missing field or the text "null". */
  function Cell(fields: seq<string>, i: nat): Value {
    if i >= |fields| || fields[i] == "null" then Null else Str(fields[i])
  }

  /** One pasted line as a record: `COLUMN_MAP.forEach((colName, index) => ...)`. */
  function ParseLine(line: string): Row {
    Record(Split(line, "\t"))
  }

  /** The record built from a line's fields. */
  function Record(fields: seq<string>): Row {
    RawColumnsArePositional();
    map c | c in RawColumns :: Cell(fields, Position(c))
  }

  /** The lines of the trimmed text. */
  function Lines(text: string): seq<string> {
    Split(Trim(text), "\n")
  }

  /** `parsePastedData(text)`: one record per line of the trimmed text, in order. */
  function ParsePastedData(text: string): seq<Row> {
    var lines := Lines(text);
    seq(|lines|, j requires 0 <= j < |lines| => ParseLine(lines[j]))
  }

  /**
   * Every record has exactly the eleven COLUMN_MAP keys, whatever the number of
   * fields on its line, and column i holds field i, or null when field i is
   * missing or is the text "null".
   */
  lemma ParseLineShape(line: string)
    ensures IsRawRecord(ParseLine(line))
    ensures forall i :: 0 <= i < |ColumnMap| ==>
      ParseLine(line)[ColumnMap[i]] == Cell(Split(line, "\t"), i)
  {
    RawColumnsArePositional();
    PositionOfColumnMap();
  }

  /**
   * The record count is the number of "\n"-separated lines of the trimmed text:
   * an empty line inside the text still yields a record, and so does an input
   * that trims to nothing.
   */
  lemma ParsedRecordCount(text: string)
    ensures |ParsePastedData(text)| == CountChar(Trim(text), '\n') + 1
    ensures |ParsePastedData(text)| >= 1
  {
    SplitCount(Trim(text), '\n');
  }

  /** Every parsed record is a raw record, and record j is line j parsed. */
  lemma ParsedRecords(text: string)
    ensures forall j :: 0 <= j < |ParsePastedData(text)| ==>
      && IsRawRecord(ParsePastedData(text)[j])
      && ParsePastedData(text)[j] == ParseLine(Lines(text)[j])
  {
    forall j | 0 <= j < |ParsePastedData(text)| ensures IsRawRecord(ParsePastedData(text)[j]) {
      ParseLineShape(Lines(text)[j]);
    }
  }

  /**
   * A line made of tab-separated fields parses back to those fields, position
   * by position; fields past the eleventh do not reach the record.
   */
  lemma ParseJoinedFields(fields: seq<string>)
    requires |fields| >= 1
    requires forall k :: 0 <= k < |fields| ==> Excludes(fields[k], '\t')
    ensures forall i :: 0 <= i < |ColumnMap| ==>
      ParseLine(Join(fields, "\t"))[ColumnMap[i]] == Cell(fields, i)
  {
    SplitJoin(fields, '\t');
    ParseLineShape(Join(fields, "\t"));
  }

  /** Extra fields after the eleventh are dropped. */
  lemma ExtraFieldsDropped(fields: seq<string>, extra: seq<string>)
    requires |fields| == |ColumnMap|
    requires forall k :: 0 <= k < |fields| ==> Excludes(fields[k], '\t')
    requires forall k :: 0 <= k < |extra| ==> Excludes(extra[k], '\t')
    ensures ParseLine(Join(fields + extra, "\t")) == ParseLine(Join(fields, "\t"))
  {
    var all := fields + extra;
    forall k | 0 <= k < |all| ensures Excludes(all[k], '\t') {
      if k >= |fields| { assert all[k] == extra[k - |fields|]; }
    }
    SplitJoin(all, '\t');
    SplitJoin(fields, '\t');
    RecordIgnoresExtra(fields, extra);
  }

  lemma RecordIgnoresExtra(fields: seq<string>, extra: seq<string>)
    requires |fields| == |ColumnMap|
    ensures Record(fields + extra) == Record(fields)
  {
    var r1, r2 := Record(fields + extra), Record(fields);
    RawColumnsArePositional();
    forall c | c in RawColumns ensures r1[c] == r2[c] {
      assert (fields + extra)[Position(c)] == fields[Position(c)];
    }
    assert r1.Keys == r2.Keys;
  }
}
