/**
 * The customer export, and a reader of the format of section 2 of RFC 4180 that
 * undoes it, with LF as the record separator and CR as ordinary text.
 */
module CustomersCsv {
  import opened Option
  import opened Lists

  /**
   * One exported customer. The enum and number columns are given as the text
   * they print as; they are written without passing through `csv`.
   */
  datatype Row = Row(
    erpId: string, name: string, phone: string, region: string, accountStatus: string,
    outstandingBalance: string, openTickets: string, officers: seq<string>)

  // ---------------------------------------------------------------- printer

  predicate Special(c: char) {
    c == '"' || c == ',' || c == '\n'
  }

  predicate NeedsQuotes(value: string) {
    exists i :: 0 <= i < |value| && Special(value[i])
  }

  function DoubleQuotes(value: string): string {
    if value == "" then ""
    else (if value[0] == '"' then ['"', '"'] else [value[0]]) + DoubleQuotes(value[1..])
  }

  function Csv(value: string): string {
    if NeedsQuotes(value) then ['"'] + DoubleQuotes(value) + ['"'] else value
  }

  function Join(separator: string, parts: seq<string>): string {
    if parts == [] then ""
    else if |parts| == 1 then parts[0]
    else parts[0] + separator + Join(separator, parts[1..])
  }

  const HEADER := ["erpId", "name", "phone", "region", "accountStatus", "outstandingBalance", "openTickets", "assignedOfficers"]

  /** The values a reader of the export should see. */
  function Fields(r: Row): seq<string> {
    [r.erpId, r.name, r.phone, r.region, r.accountStatus, r.outstandingBalance, r.openTickets, Join(" / ", r.officers)]
  }

  function LineOf(r: Row): string {
    Join(",", [Csv(r.erpId), Csv(r.name), Csv(r.phone), r.region, r.accountStatus, r.outstandingBalance, r.openTickets,
               Csv(Join(" / ", r.officers))])
  }

  function ExportCustomersCsv(rows: seq<Row>): string {
    Join("\n", [Join(",", HEADER)] + Map(LineOf, rows))
  }

  // ---------------------------------------------------------------- reader

  /** Where the reader stands in the field it is reading. */
  datatype Mode = Start | Bare | Quoted | QuoteSeen

  /** The records of a text, or None where it breaks the quoting rules. */
  function Parse(text: string): Option<seq<seq<string>>> {
    ParseFrom(text, Start, "", [])
  }

  function ParseFrom(text: string, mode: Mode, field: string, record: seq<string>): Option<seq<seq<string>>> {
    if text == "" then
      if mode == Quoted then None else Some([record + [field]])
    else
      var c, rest := text[0], text[1..];
      if mode == Quoted then
        if c == '"' then ParseFrom(rest, QuoteSeen, field, record)
        else ParseFrom(rest, Quoted, field + [c], record)
      else if c == ',' then ParseFrom(rest, Start, "", record + [field])
      else if c == '\n' then
        var more := ParseFrom(rest, Start, "", []);
        if more.None? then None else Some([record + [field]] + more.value)
      else if c == '"' then
        if mode == Start then ParseFrom(rest, Quoted, field, record)
        else if mode == QuoteSeen then ParseFrom(rest, Quoted, field + [c], record)
        else None
      else if mode == QuoteSeen then None
      else ParseFrom(rest, Bare, field + [c], record)
  }

  // ---------------------------------------------------------------- round trip

  predicate AtDelimiter(rest: string) {
    rest == "" || rest[0] == ',' || rest[0] == '\n'
  }

  /** What the reader does from the end of a field on, whichever way the field was written. */
  function AfterField(rest: string, record: seq<string>): Option<seq<seq<string>>>
    requires AtDelimiter(rest)
  {
    if rest == "" then Some([record])
    else if rest[0] == ',' then ParseFrom(rest[1..], Start, "", record)
    else
      var more := ParseFrom(rest[1..], Start, "", []);
      if more.None? then None else Some([record] + more.value)
  }

  lemma {:induction false} ReadQuoted(value: string, rest: string, field: string, record: seq<string>)
    requires AtDelimiter(rest)
    ensures ParseFrom(DoubleQuotes(value) + (['"'] + rest), Quoted, field, record) == AfterField(rest, record + [field + value])
    decreases |value|
  {
    if value == "" {
      CloseQuote(rest, field, record);
      assert DoubleQuotes(value) + (['"'] + rest) == ['"'] + rest && field + value == field;
    } else {
      var c, more := value[0], DoubleQuotes(value[1..]) + (['"'] + rest);
      ReadQuoted(value[1..], rest, field + [c], record);
      assert (field + [c]) + value[1..] == field + value;
      QuotedChar(c, more, field, record);
      DoubleFirst(value, ['"'] + rest);
    }
  }

  lemma DoubleFirst(value: string, rest: string)
    requires value != ""
    ensures DoubleQuotes(value) + rest == (if value[0] == '"' then ['"', '"'] else [value[0]]) + (DoubleQuotes(value[1..]) + rest)
  {
  }

  /** The closing quote, and the delimiter that must follow it. */
  lemma CloseQuote(rest: string, field: string, record: seq<string>)
    requires AtDelimiter(rest)
    ensures ParseFrom(['"'] + rest, Quoted, field, record) == AfterField(rest, record + [field])
  {
    assert (['"'] + rest)[1..] == rest;
  }

  /** One character inside quotes: a doubled quote stands for one, anything else for itself. */
  lemma QuotedChar(c: char, more: string, field: string, record: seq<string>)
    ensures ParseFrom((if c == '"' then ['"', '"'] else [c]) + more, Quoted, field, record) == ParseFrom(more, Quoted, field + [c], record)
  {
    if c == '"' {
      assert (['"', '"'] + more)[1..] == ['"'] + more && (['"'] + more)[1..] == more;
    } else {
      assert ([c] + more)[1..] == more;
    }
  }

  lemma {:induction false} ReadBare(value: string, rest: string, mode: Mode, field: string, record: seq<string>)
    requires !NeedsQuotes(value) && AtDelimiter(rest) && (mode == Start || mode == Bare)
    ensures ParseFrom(value + rest, mode, field, record) == AfterField(rest, record + [field + value])
    decreases |value|
  {
    if value == "" {
      assert value + rest == rest && field + value == field;
    } else {
      assert !Special(value[0]);
      assert forall i :: 0 <= i < |value[1..]| ==> value[1..][i] == value[i + 1];
      assert (value + rest)[1..] == value[1..] + rest;
      assert field + value == (field + [value[0]]) + value[1..];
      ReadBare(value[1..], rest, Bare, field + [value[0]], record);
    }
  }

  /** A printed field reads back as itself, whatever it contains and whatever follows it. */
  lemma ReadField(value: string, rest: string, record: seq<string>)
    requires AtDelimiter(rest)
    ensures ParseFrom(Csv(value) + rest, Start, "", record) == AfterField(rest, record + [value])
  {
    assert "" + value == value;
    if NeedsQuotes(value) {
      var body := DoubleQuotes(value) + (['"'] + rest);
      assert Csv(value) + rest == ['"'] + body;
      OpenQuote(body, record);
      ReadQuoted(value, rest, "", record);
    } else {
      ReadBare(value, rest, Start, "", record);
    }
  }

  lemma OpenQuote(body: string, record: seq<string>)
    ensures ParseFrom(['"'] + body, Start, "", record) == ParseFrom(body, Quoted, "", record)
  {
    assert (['"'] + body)[1..] == body;
  }

  lemma JoinFirst(printed: seq<string>, rest: string)
    requires |printed| > 1
    ensures Join(",", printed) + rest == printed[0] + ([','] + (Join(",", printed[1..]) + rest))
  {
  }

  /** A record is its fields printed and joined; the reader gets the fields back and stands at what follows. */
  lemma {:induction false} ReadRecord(fields: seq<string>, printed: seq<string>, rest: string, record: seq<string>)
    requires fields != [] && |printed| == |fields| && forall i :: 0 <= i < |fields| ==> printed[i] == Csv(fields[i])
    requires rest == "" || rest[0] == '\n'
    ensures ParseFrom(Join(",", printed) + rest, Start, "", record) == AfterField(rest, record + fields)
    decreases |fields|
  {
    if |fields| == 1 {
      ReadField(fields[0], rest, record);
      assert fields == [fields[0]];
    } else {
      var tail := Join(",", printed[1..]) + rest;
      JoinFirst(printed, rest);
      ReadField(fields[0], [','] + tail, record);
      assert ([','] + tail)[1..] == tail;
      ReadRecord(fields[1..], printed[1..], rest, record + [fields[0]]);
      assert record + fields == (record + [fields[0]]) + fields[1..];
    }
  }

  /** The columns printed as they are carry no character the format reserves. */
  predicate Printable(r: Row) {
    !NeedsQuotes(r.region) && !NeedsQuotes(r.accountStatus) && !NeedsQuotes(r.outstandingBalance) && !NeedsQuotes(r.openTickets)
  }

  lemma ReadLine(r: Row, rest: string)
    requires Printable(r) && (rest == "" || rest[0] == '\n')
    ensures ParseFrom(LineOf(r) + rest, Start, "", []) == AfterField(rest, Fields(r))
  {
    var printed := [Csv(r.erpId), Csv(r.name), Csv(r.phone), r.region, r.accountStatus, r.outstandingBalance, r.openTickets,
                    Csv(Join(" / ", r.officers))];
    ReadRecord(Fields(r), printed, rest, []);
    assert [] + Fields(r) == Fields(r);
  }

  lemma {:induction false} ReadLines(rows: seq<Row>)
    requires rows != [] && forall r :: r in rows ==> Printable(r)
    ensures Parse(Join("\n", Map(LineOf, rows))) == Some(Map(Fields, rows))
  {
    var lines := Map(LineOf, rows);
    MapAt(LineOf, rows);
    if |rows| == 1 {
      ReadLine(rows[0], "");
      assert lines[0] + "" == lines[0];
      assert rows[1..] == [];
      assert Map(Fields, rows) == [Fields(rows[0])];
    } else {
      var tail := Join("\n", lines[1..]);
      assert Join("\n", lines) == lines[0] + (['\n'] + tail);
      ReadLine(rows[0], ['\n'] + tail);
      assert (['\n'] + tail)[1..] == tail;
      assert lines[1..] == Map(LineOf, rows[1..]);
      ReadLines(rows[1..]);
    }
  }

  lemma HeaderIsBare()
    ensures forall i :: 0 <= i < |HEADER| ==> Csv(HEADER[i]) == HEADER[i]
  {
    assert !NeedsQuotes("erpId") && !NeedsQuotes("name") && !NeedsQuotes("phone") && !NeedsQuotes("region");
    assert !NeedsQuotes("accountStatus") && !NeedsQuotes("outstandingBalance");
    assert !NeedsQuotes("openTickets") && !NeedsQuotes("assignedOfficers");
  }

  /** The header line reads back as the column names, and the reader stands at what follows. */
  lemma ReadHeader(rest: string)
    requires rest == "" || rest[0] == '\n'
    ensures ParseFrom(Join(",", HEADER) + rest, Start, "", []) == AfterField(rest, HEADER)
  {
    HeaderIsBare();
    ReadRecord(HEADER, HEADER, rest, []);
    assert [] + HEADER == HEADER;
  }

  /** Reading the export gives back the header and every row, for all names, phones and codes. */
  lemma ExportReadsBack(rows: seq<Row>)
    requires forall r :: r in rows ==> Printable(r)
    ensures Parse(ExportCustomersCsv(rows)) == Some([HEADER] + Map(Fields, rows))
  {
    var head, lines := Join(",", HEADER), Map(LineOf, rows);
    if rows == [] {
      assert [head] + lines == [head];
      ReadHeader("");
      assert head + "" == head;
      assert [HEADER] + Map(Fields, rows) == [HEADER];
    } else {
      MapAt(LineOf, rows);
      assert ([head] + lines)[1..] == lines;
      var tail := Join("\n", lines);
      assert Join("\n", [head] + lines) == head + (['\n'] + tail);
      ReadHeader(['\n'] + tail);
      assert (['\n'] + tail)[1..] == tail;
      ReadLines(rows);
    }
  }

  /** Two exports are the same text only where they state the same rows. */
  lemma ExportIsFaithful(rows: seq<Row>, others: seq<Row>)
    requires (forall r :: r in rows ==> Printable(r)) && (forall r :: r in others ==> Printable(r))
    requires ExportCustomersCsv(rows) == ExportCustomersCsv(others)
    ensures |rows| == |others| && forall i :: 0 <= i < |rows| ==> Fields(rows[i]) == Fields(others[i])
  {
    ExportReadsBack(rows);
    ExportReadsBack(others);
    assert ([HEADER] + Map(Fields, rows))[1..] == Map(Fields, rows);
    assert ([HEADER] + Map(Fields, others))[1..] == Map(Fields, others);
    MapAt(Fields, rows);
    MapAt(Fields, others);
  }

  /** The value a record holds under a column of this name. */
  predicate Under(record: seq<string>, name: string, value: string) {
    exists i :: 0 <= i < |HEADER| && i < |record| && HEADER[i] == name && record[i] == value
  }

  /** Every value of this row, under the name of its column. */
  ghost predicate States(record: seq<string>, r: Row) {
    |record| == 8 && Under(record, "erpId", r.erpId) && Under(record, "name", r.name) && Under(record, "phone", r.phone) &&
    Under(record, "region", r.region) && Under(record, "accountStatus", r.accountStatus) &&
    Under(record, "outstandingBalance", r.outstandingBalance) && Under(record, "openTickets", r.openTickets) &&
    Under(record, "assignedOfficers", Join(" / ", r.officers))
  }

  /** The file read back is the header and then each row, its values under their own columns' names. */
  lemma ColumnsAreNamed(rows: seq<Row>, i: nat)
    requires i < |rows| && forall r :: r in rows ==> Printable(r)
    ensures var file := Parse(ExportCustomersCsv(rows));
            file.Some? && |file.value| == |rows| + 1 && file.value[0] == HEADER && States(file.value[i + 1], rows[i])
  {
    ExportReadsBack(rows);
    RecordsAreNamed([HEADER] + Map(Fields, rows), rows, i);
  }

  lemma RecordsAreNamed(file: seq<seq<string>>, rows: seq<Row>, i: nat)
    requires file == [HEADER] + Map(Fields, rows) && i < |rows|
    ensures |file| == |rows| + 1 && file[0] == HEADER && States(file[i + 1], rows[i])
  {
    MapAt(Fields, rows);
    FieldsAreNamed(rows[i]);
    assert file[i + 1] == Map(Fields, rows)[i];
  }

  lemma FieldsAreNamed(r: Row)
    ensures States(Fields(r), r)
  {
    assert HEADER[0] == "erpId" && HEADER[1] == "name" && HEADER[2] == "phone" && HEADER[3] == "region";
    assert HEADER[4] == "accountStatus" && HEADER[5] == "outstandingBalance" && HEADER[6] == "openTickets" && HEADER[7] == "assignedOfficers";
  }
}
