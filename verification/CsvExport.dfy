/** The order-log export: how a row is printed, and that a reader following
    section 2 of RFC 4180 gets it back. */
module CsvExport {
  import opened Common

  /** Text that needs no quoting: numbers, timestamps, statuses. */
  type Plain = s: string | PlainText(s) witness ""

  predicate Special(c: char) { c == '"' || c == ',' || c == '\n' || c == '\r' }

  predicate PlainText(s: string) { forall i | 0 <= i < |s| :: !Special(s[i]) }

  /** A leading character a spreadsheet would evaluate. */
  predicate Triggers(s: string) {
    s != [] && s[0] in {'=', '+', '-', '@', '\t', '\r'}
  }

  function Neutral(s: string): string { if Triggers(s) then "'" + s else s }

  function Doubled(s: string): string {
    if s == [] then [] else (if s[0] == '"' then ['"', '"'] else [s[0]]) + Doubled(s[1..])
  }

  function Esc(s: string): string { ['"'] + Doubled(Neutral(s)) + ['"'] }

  /** The apostrophe is all that is ever added, exactly to text that would be
      evaluated, and nothing that would be evaluated is ever exported. */
  lemma NeutralIsSafe(s: string)
    ensures Neutral(s) == [] || !Formula(Neutral(s)[0])
    ensures Neutral(s) == if s != [] && Formula(s[0]) then "'" + s else s
  {
  }

  /** A spreadsheet would evaluate text beginning with this. */
  predicate Formula(c: char) { c == '=' || c == '+' || c == '-' || c == '@' || c == '\t' || c == '\r' }

  // ----- printing ------------------------------------------------------------------------

  datatype Field = Raw(plain: Plain) | Text(text: string)

  function FieldText(f: Field): string {
    match f case Raw(p) => p case Text(t) => Esc(t)
  }

  /** What a reader should find in a field. */
  function Content(f: Field): string {
    match f case Raw(p) => p case Text(t) => Neutral(t)
  }

  function Join(parts: seq<string>, sep: string): string {
    if parts == [] then "" else if |parts| == 1 then parts[0] else parts[0] + sep + Join(parts[1..], sep)
  }

  function FieldTexts(fields: seq<Field>): seq<string> {
    seq(|fields|, i requires 0 <= i < |fields| => FieldText(fields[i]))
  }

  function Contents(fields: seq<Field>): seq<string> {
    seq(|fields|, i requires 0 <= i < |fields| => Content(fields[i]))
  }

  function RowText(fields: seq<Field>): string { Join(FieldTexts(fields), ",") }

  function RowTexts(rows: seq<seq<Field>>): seq<string> {
    seq(|rows|, i requires 0 <= i < |rows| => RowText(rows[i]))
  }

  function AllContents(rows: seq<seq<Field>>): seq<seq<string>> {
    seq(|rows|, i requires 0 <= i < |rows| => Contents(rows[i]))
  }

  // ----- reading ----------------------------------------------------------------------------

  datatype FieldEnd = Comma | Break | EndOfFile

  datatype ReadResult = Malformed | Got(text: string, end: FieldEnd, rest: string)

  /** What may follow a field: a comma, a line break (CRLF or LF), or nothing. */
  function Delimited(text: string, s: string): ReadResult {
    if s == [] then Got(text, EndOfFile, [])
    else if s[0] == ',' then Got(text, Comma, s[1..])
    else if s[0] == '\n' then Got(text, Break, s[1..])
    else if s[0] == '\r' && |s| > 1 && s[1] == '\n' then Got(text, Break, s[2..])
    else Malformed
  }

  /** The rest of a quoted field: a doubled quote is a quote, a single one ends it. */
  function ReadQuoted(s: string): (r: ReadResult)
    ensures r.Got? ==> |r.rest| < |s|
  {
    if s == [] then Malformed
    else if s[0] != '"' then
      var r := ReadQuoted(s[1..]);
      if r.Got? then r.(text := [s[0]] + r.text) else r
    else if |s| > 1 && s[1] == '"' then
      var r := ReadQuoted(s[2..]);
      if r.Got? then r.(text := ['"'] + r.text) else r
    else Delimited([], s[1..])
  }

  function ReadBare(s: string): (r: ReadResult)
    ensures r.Got? && r.end != EndOfFile ==> |r.rest| < |s|
    ensures r.Got? && r.end == EndOfFile ==> r.rest == []
  {
    if s == [] || Special(s[0]) then Delimited([], s)
    else
      var r := ReadBare(s[1..]);
      if r.Got? then r.(text := [s[0]] + r.text) else r
  }

  function ReadField(s: string): (r: ReadResult)
    ensures r.Got? && r.end != EndOfFile ==> |r.rest| < |s|
  {
    if s != [] && s[0] == '"' then ReadQuoted(s[1..]) else ReadBare(s)
  }

  /** All records of a file; the last one may end in a line break or not. */
  function ReadAll(s: string): Option<seq<seq<string>>>
    decreases |s|
  {
    var f := ReadField(s);
    if f.Malformed? then None
    else if f.end == EndOfFile || (f.end == Break && f.rest == []) then Some([[f.text]])
    else
      var more := ReadAll(f.rest);
      if more.None? then None
      else if f.end == Break then Some([[f.text]] + more.value)
      else if more.value == [] then None
      else Some([[f.text] + more.value[0]] + more.value[1..])
  }

  // ----- the round trip -------------------------------------------------------------------------

  /** A tail that can follow a printed field. */
  predicate Tail(s: string) { s == [] || s[0] == ',' || s[0] == '\n' }

  /** A read field with one more character in front. */
  function Prefixed(c: char, r: ReadResult): ReadResult {
    if r.Got? then r.(text := [c] + r.text) else r
  }

  /** One printed character inside quotes is one character read. */
  lemma QuotedChar(c: char, s: string)
    ensures ReadQuoted((if c == '"' then ['"', '"'] else [c]) + s) == Prefixed(c, ReadQuoted(s))
  {
    if c == '"' {
      assert (['"', '"'] + s)[2..] == s;
    } else {
      assert ([c] + s)[1..] == s;
    }
  }

  lemma {:induction false} QuotedBack(t: string, tail: string)
    requires Tail(tail)
    ensures ReadQuoted(Doubled(t) + (['"'] + tail)) ==
      match Delimited([], tail) case Got(_, e, r) => Got(t, e, r) case Malformed => Malformed
    decreases |t|
  {
    var rest := ['"'] + tail;
    if t == [] {
      assert Doubled(t) + rest == rest && rest[1..] == tail;
    } else {
      QuotedBack(t[1..], tail);
      QuotedChar(t[0], Doubled(t[1..]) + rest);
      assert t == [t[0]] + t[1..];
      assert Doubled(t) + rest == (if t[0] == '"' then ['"', '"'] else [t[0]]) + (Doubled(t[1..]) + rest);
    }
  }

  lemma {:induction false} BareBack(t: string, tail: string)
    requires PlainText(t) && Tail(tail)
    ensures ReadBare(t + tail) ==
      match Delimited([], tail) case Got(_, e, r) => Got(t, e, r) case Malformed => Malformed
    decreases |t|
  {
    if t == [] {
      assert t + tail == tail;
    } else {
      BareBack(t[1..], tail);
      assert (t + tail)[1..] == t[1..] + tail;
      assert t == [t[0]] + t[1..];
    }
  }

  lemma FieldBack(f: Field, tail: string)
    requires Tail(tail)
    ensures ReadField(FieldText(f) + tail) ==
      if tail == [] then Got(Content(f), EndOfFile, [])
      else if tail[0] == ',' then Got(Content(f), Comma, tail[1..]) else Got(Content(f), Break, tail[1..])
  {
    match f
    case Raw(p) =>
      BareBack(p, tail);
      assert p + tail == [] || (p + tail)[0] != '"';
    case Text(t) =>
      QuotedBack(Neutral(t), tail);
      assert Esc(t) + tail == ['"'] + (Doubled(Neutral(t)) + (['"'] + tail));
  }

  lemma JoinCons(parts: seq<string>, sep: string)
    requires |parts| >= 2
    ensures Join(parts, sep) == parts[0] + (sep + Join(parts[1..], sep))
  {
  }

  function WithRow(row: seq<string>, more: Option<seq<seq<string>>>): Option<seq<seq<string>>> {
    if more.Some? then Some([row] + more.value) else None
  }

  lemma ReadFirstField(f: Field, rest: string, more: Option<seq<seq<string>>>, row: seq<string>)
    requires ReadAll(rest) == WithRow(row, more)
    ensures ReadAll(FieldText(f) + ("," + rest)) == WithRow([Content(f)] + row, more)
  {
    FieldBack(f, "," + rest);
    assert ("," + rest)[1..] == rest;
    if more.Some? { assert ([row] + more.value)[1..] == more.value; }
  }

  lemma RowTextCons(fields: seq<Field>)
    requires |fields| >= 2
    ensures RowText(fields) == FieldText(fields[0]) + ("," + RowText(fields[1..]))
  {
    JoinCons(FieldTexts(fields), ",");
    assert FieldTexts(fields)[1..] == FieldTexts(fields[1..]);
  }

  lemma LastFieldBack(f: Field, tail: string)
    requires tail == [] || (|tail| > 1 && tail[0] == '\n')
    ensures ReadAll(FieldText(f) + tail) == WithRow([Content(f)], if tail == [] then Some([]) else ReadAll(tail[1..]))
  {
    assert [[Content(f)]] + [] == [[Content(f)]];
    FieldBack(f, tail);
  }

  lemma FirstFieldBack(fields: seq<Field>, tail: string, more: Option<seq<seq<string>>>)
    requires |fields| >= 2
    requires ReadAll(RowText(fields[1..]) + tail) == WithRow(Contents(fields[1..]), more)
    ensures ReadAll(RowText(fields) + tail) == WithRow(Contents(fields), more)
  {
    RowTextCons(fields);
    ContentsCons(fields);
    Glued(FieldText(fields[0]), ",", RowText(fields[1..]), tail);
    ReadFirstField(fields[0], RowText(fields[1..]) + tail, more, Contents(fields[1..]));
  }

  lemma Glued(field: string, sep: string, rest: string, tail: string)
    ensures (field + (sep + rest)) + tail == field + (sep + (rest + tail))
  {
  }

  lemma ContentsCons(fields: seq<Field>)
    requires fields != []
    ensures Contents(fields) == [Content(fields[0])] + Contents(fields[1..])
  {
  }

  /** One printed row and the end of the file, or a break and more rows. */
  lemma {:induction false} RowBack(fields: seq<Field>, tail: string)
    requires fields != []
    requires tail == [] || (|tail| > 1 && tail[0] == '\n')
    ensures ReadAll(RowText(fields) + tail) ==
      WithRow(Contents(fields), if tail == [] then Some([]) else ReadAll(tail[1..]))
    decreases |fields|
  {
    if |fields| == 1 {
      assert RowText(fields) == FieldText(fields[0]) && Contents(fields) == [Content(fields[0])];
      LastFieldBack(fields[0], tail);
    } else {
      RowBack(fields[1..], tail);
      FirstFieldBack(fields, tail, if tail == [] then Some([]) else ReadAll(tail[1..]));
    }
  }

  lemma RowNotEmpty(fields: seq<Field>)
    requires |fields| >= 2
    ensures |RowText(fields)| > 0
  {
    JoinCons(FieldTexts(fields), ",");
  }

  lemma {:induction false} RowsBack(rows: seq<seq<Field>>)
    requires rows != [] && forall i | 0 <= i < |rows| :: |rows[i]| >= 2
    ensures ReadAll(Join(RowTexts(rows), "\n")) == Some(AllContents(rows))
    ensures |Join(RowTexts(rows), "\n")| > 0
    decreases |rows|
  {
    RowNotEmpty(rows[0]);
    if |rows| == 1 {
      RowBack(rows[0], []);
      assert RowTexts(rows) == [RowText(rows[0])];
      assert RowText(rows[0]) + [] == RowText(rows[0]);
      assert AllContents(rows) == [Contents(rows[0])] + [];
    } else {
      RowsBack(rows[1..]);
      FirstRowBack(rows[0], rows[1..]);
      assert rows == [rows[0]] + rows[1..];
    }
  }

  lemma FirstRowBack(row: seq<Field>, rows: seq<seq<Field>>)
    requires |row| >= 2 && rows != [] && |Join(RowTexts(rows), "\n")| > 0
    requires ReadAll(Join(RowTexts(rows), "\n")) == Some(AllContents(rows))
    ensures ReadAll(Join(RowTexts([row] + rows), "\n")) == Some(AllContents([row] + rows))
    ensures |Join(RowTexts([row] + rows), "\n")| > 0
  {
    var rest := Join(RowTexts(rows), "\n");
    AllContentsCons(row, rows);
    RowBack(row, "\n" + rest);
    assert ("\n" + rest)[1..] == rest;
    JoinCons([RowText(row)] + RowTexts(rows), "\n");
    assert ([RowText(row)] + RowTexts(rows))[1..] == RowTexts(rows);
  }

  // ----- the export ---------------------------------------------------------------------------------

  datatype ExportLine = ExportLine(
    item: string, qty: Plain, unitPrice: Plain, lineTotal: Plain, note: string, modifiers: seq<string>)

  datatype ExportOrder = ExportOrder(
    number: Plain, createdAt: Plain, table: string, status: Plain, rejectReason: Option<string>,
    lines: seq<ExportLine>, total: Plain, paymentStatus: Plain, paymentMethod: Option<Plain>, outcome: Option<Plain>)

  const ORDER_COLUMNS: seq<Plain> := ["order_number", "created_at", "table", "status", "reject_reason"]
  const LINE_COLUMNS: seq<Plain> := ["item", "qty", "unit_price_try", "line_total_try", "note", "modifiers"]
  const MONEY_COLUMNS: seq<Plain> := ["order_total_try", "payment_status", "payment_method", "visit_outcome"]
  const HEADER: seq<Plain> := ORDER_COLUMNS + LINE_COLUMNS + MONEY_COLUMNS

  function OrEmpty(p: Option<Plain>): Plain { if p.Some? then p.value else "" }

  /** The fifteen columns, in order. */
  datatype Row = Row(
    number: Plain, createdAt: Plain, table: string, status: Plain, rejectReason: string,
    item: string, qty: Plain, unitPrice: Plain, lineTotal: Plain, note: string, modifiers: string,
    total: Plain, paymentStatus: Plain, paymentMethod: Plain, outcome: Plain)

  function Columns(r: Row): (fields: seq<Field>)
    ensures |fields| == 15
  {
    [Raw(r.number), Raw(r.createdAt), Text(r.table), Raw(r.status), Text(r.rejectReason),
     Text(r.item), Raw(r.qty), Raw(r.unitPrice), Raw(r.lineTotal), Text(r.note), Text(r.modifiers),
     Raw(r.total), Raw(r.paymentStatus), Raw(r.paymentMethod), Raw(r.outcome)]
  }

  function LineRow(o: ExportOrder, l: ExportLine): Row {
    Row(o.number, o.createdAt, o.table, o.status, if o.rejectReason.Some? then o.rejectReason.value else "",
        l.item, l.qty, l.unitPrice, l.lineTotal, l.note, Join(l.modifiers, "; "),
        o.total, o.paymentStatus, OrEmpty(o.paymentMethod), OrEmpty(o.outcome))
  }

  function OrderRows(o: ExportOrder): seq<Row> {
    seq(|o.lines|, i requires 0 <= i < |o.lines| => LineRow(o, o.lines[i]))
  }

  function AllRows(orders: seq<ExportOrder>): seq<Row> {
    if orders == [] then [] else AllRows(orders[..|orders| - 1]) + OrderRows(orders[|orders| - 1])
  }

  function Printed(rows: seq<Row>): (fields: seq<seq<Field>>)
    ensures |fields| == |rows| && forall i | 0 <= i < |fields| :: fields[i] == Columns(rows[i])
  {
    if rows == [] then [] else Printed(rows[..|rows| - 1]) + [Columns(rows[|rows| - 1])]
  }

  function NameFields(names: seq<Plain>): seq<Field> {
    seq(|names|, i requires 0 <= i < |names| => Raw(names[i]))
  }

  function FileText(header: seq<Plain>, orders: seq<ExportOrder>): string {
    Join(RowTexts([NameFields(header)] + Printed(AllRows(orders))), "\n")
  }

  lemma NamesBack(names: seq<Plain>)
    ensures FieldTexts(NameFields(names)) == names && Contents(NameFields(names)) == names
  {
  }

  lemma AllContentsCons(row: seq<Field>, rows: seq<seq<Field>>)
    ensures AllContents([row] + rows) == [Contents(row)] + AllContents(rows)
    ensures RowTexts([row] + rows) == [RowText(row)] + RowTexts(rows)
  {
  }

  /** Whatever table names, item names, notes and modifiers contain, the reader
      recovers the header and one 15-field record per order line, in order, each
      field as stored up to the neutralising apostrophe. */
  lemma ExportRoundTrip(header: seq<Plain>, orders: seq<ExportOrder>)
    requires |header| >= 2
    ensures ReadAll(FileText(header, orders)) == Some([header] + AllContents(Printed(AllRows(orders))))
    ensures forall i | 0 <= i < |AllRows(orders)| ::
      AllContents(Printed(AllRows(orders)))[i] == Contents(Columns(AllRows(orders)[i]))
  {
    var fields := Printed(AllRows(orders));
    NamesBack(header);
    RowsBack([NameFields(header)] + fields);
    AllContentsCons(NameFields(header), fields);
  }

  /** The rows are the order lines, order by order. */
  lemma {:induction false} OneRowPerLine(orders: seq<ExportOrder>, o: nat, l: nat)
    requires o < |orders| && l < |orders[o].lines|
    ensures |AllRows(orders[..o])| + l < |AllRows(orders)|
    ensures AllRows(orders)[|AllRows(orders[..o])| + l] == LineRow(orders[o], orders[o].lines[l])
    decreases |orders|
  {
    var n := |orders| - 1;
    if o < n {
      OneRowPerLine(orders[..n], o, l);
      assert orders[..n][..o] == orders[..o];
    }
  }

  /** And there are no others. */
  lemma NoOtherRows(orders: seq<ExportOrder>, o: nat)
    requires o < |orders|
    ensures AllRows([]) == [] && |AllRows(orders[..o + 1])| == |AllRows(orders[..o])| + |orders[o].lines|
  {
    assert orders[..o + 1][..o] == orders[..o];
  }

  /** What a reader of the file finds for line l of an order: fifteen fields in the
      header's order, text as it is stored but for the apostrophe. */
  lemma RecordOfLine(orders: seq<ExportOrder>, o: nat, l: nat, at: nat)
    requires o < |orders| && l < |orders[o].lines| && at == |AllRows(orders[..o])| + l
    ensures at < |AllRows(orders)|
    ensures var order, line := orders[o], orders[o].lines[l];
      AllContents(Printed(AllRows(orders)))[at] ==
      [order.number, order.createdAt, Neutral(order.table), order.status,
       Neutral(if order.rejectReason.Some? then order.rejectReason.value else ""),
       Neutral(line.item), line.qty, line.unitPrice, line.lineTotal, Neutral(line.note),
       Neutral(Join(line.modifiers, "; ")), order.total, order.paymentStatus,
       if order.paymentMethod.Some? then order.paymentMethod.value else "",
       if order.outcome.Some? then order.outcome.value else ""]
  {
    OneRowPerLine(orders, o, l);
    var fields := Printed(AllRows(orders))[at];
    assert fields == Columns(LineRow(orders[o], orders[o].lines[l]));
    FifteenContents(fields);
  }

  lemma FifteenContents(fields: seq<Field>)
    requires |fields| == 15
    ensures Contents(fields) ==
      [Content(fields[0]), Content(fields[1]), Content(fields[2]), Content(fields[3]), Content(fields[4]),
       Content(fields[5]), Content(fields[6]), Content(fields[7]), Content(fields[8]), Content(fields[9]),
       Content(fields[10]), Content(fields[11]), Content(fields[12]), Content(fields[13]), Content(fields[14])]
  {
  }

  lemma PrintedAppend(rows: seq<Row>, r: Row)
    ensures RowTexts(Printed(rows + [r])) == RowTexts(Printed(rows)) + [RowText(Columns(r))]
  {
    assert (rows + [r])[..|rows|] == rows;
  }

  lemma OneRowMore(rows: seq<Row>, more: seq<Row>, l: nat)
    requires l < |more|
    ensures RowTexts(Printed(rows + more[..l + 1])) == RowTexts(Printed(rows + more[..l])) + [RowText(Columns(more[l]))]
  {
    assert rows + more[..l + 1] == (rows + more[..l]) + [more[l]];
    PrintedAppend(rows + more[..l], more[l]);
  }

  /** The rows so far and the first l of an order's. */
  function PrintedWith(rows: seq<Row>, o: ExportOrder, l: nat): seq<string>
    requires l <= |o.lines|
  {
    RowTexts(Printed(rows + OrderRows(o)[..l]))
  }

  lemma OneLineMore(rows: seq<Row>, o: ExportOrder, l: nat)
    requires l < |o.lines|
    ensures PrintedWith(rows, o, l + 1) == PrintedWith(rows, o, l) + [RowText(Columns(LineRow(o, o.lines[l])))]
  {
    OneRowMore(rows, OrderRows(o), l);
  }

  method PushRows(texts: seq<string>, ghost rows: seq<Row>, o: ExportOrder) returns (more: seq<string>)
    requires texts == RowTexts(Printed(rows))
    ensures more == RowTexts(Printed(rows + OrderRows(o)))
  {
    more := texts;
    var l := 0;
    assert rows + OrderRows(o)[..0] == rows;
    while l < |o.lines|
      invariant 0 <= l <= |o.lines|
      invariant more == PrintedWith(rows, o, l)
    {
      OneLineMore(rows, o, l);
      more := more + [RowText(Columns(LineRow(o, o.lines[l])))];
      l := l + 1;
    }
    assert OrderRows(o)[..l] == OrderRows(o);
  }

  /** The export loop: header, then one row per line of each order. */
  method ExportWith(header: seq<Plain>, orders: seq<ExportOrder>) returns (text: string)
    requires |header| >= 2
    ensures text == FileText(header, orders)
    ensures ReadAll(text) == Some([header] + AllContents(Printed(AllRows(orders))))
  {
    var texts: seq<string> := [];
    var i := 0;
    while i < |orders|
      invariant 0 <= i <= |orders|
      invariant texts == RowTexts(Printed(AllRows(orders[..i])))
    {
      assert orders[..i + 1][..i] == orders[..i];
      texts := PushRows(texts, AllRows(orders[..i]), orders[i]);
      i := i + 1;
    }
    assert orders[..i] == orders;
    NamesBack(header);
    AllContentsCons(NameFields(header), Printed(AllRows(orders)));
    text := Join([Join(header, ",")] + texts, "\n");
    ExportRoundTrip(header, orders);
  }

  method ExportCsv(orders: seq<ExportOrder>) returns (text: string)
    ensures text == FileText(HEADER, orders)
    ensures ReadAll(text) == Some([HEADER] + AllContents(Printed(AllRows(orders))))
    ensures |HEADER| == 15 && forall i | 0 <= i < |AllRows(orders)| ::
      && AllContents(Printed(AllRows(orders)))[i] == Contents(Columns(AllRows(orders)[i]))
      && |Contents(Columns(AllRows(orders)[i]))| == 15
  {
    text := ExportWith(HEADER, orders);
  }
}
