/** The CSV reader of the web client: `parseCsvRows` and `csvToRecords`.

    `ParseCsvRows` keeps the form of the source: one pass over the text with the four mutable
    variables `rows`, `row`, `cell`, `inQuotes` and an index that sometimes skips a character.
    Its specification `Scanned` is the same scanner as a function of the remaining text; what the
    scanner is for is then stated against an independent grammar, `RenderTable`, which writes a
    table the way section 2 of RFC 4180 allows: every cell quoted or (when it holds no special
    character) bare, every record closed by LF or CRLF, the last record possibly not closed. The
    grammar goes beyond the RFC where the scanner does: quotes may open and close anywhere in a cell,
    and a CR alone closes a record. */
module Csv {

  const QUOTE := '\"'
  const COMMA := ','
  const LF := '\n'
  const CR := '\r'

  type Row = seq<string>

  datatype Scan = Scan(rows: seq<Row>, row: Row, cell: string, inQuotes: bool)

  const START := Scan([], [], "", false)

  // One iteration of the scanner: the next state and how many characters it consumed.
  function Step(s: Scan, text: string): (Scan, nat)
    requires text != ""
  {
    var c := text[0];
    if c == QUOTE then
      if s.inQuotes && |text| > 1 && text[1] == QUOTE then (s.(cell := s.cell + [QUOTE]), 2)
      else (s.(inQuotes := !s.inQuotes), 1)
    else if !s.inQuotes && c == COMMA then
      (s.(row := s.row + [s.cell], cell := ""), 1)
    else if !s.inQuotes && (c == LF || c == CR) then
      (Scan(s.rows + [s.row + [s.cell]], [], "", false),
       if c == CR && |text| > 1 && text[1] == LF then 2 else 1)
    else
      (s.(cell := s.cell + [c]), 1)
  }

  // The state after the scanner has consumed all of `text`.
  function Scanned(s: Scan, text: string): Scan
    decreases |text|
  {
    if text == "" then s
    else var (s', n) := Step(s, text); Scanned(s', text[n..])
  }

  // The flush after the loop: a started row is kept, an empty line is not.
  function Finish(s: Scan): seq<Row> {
    if |s.cell| > 0 || |s.row| > 0 then s.rows + [s.row + [s.cell]] else s.rows
  }

  function Rows(text: string): seq<Row> { Finish(Scanned(START, text)) }

  method ParseCsvRows(text: string) returns (rows: seq<Row>)
    ensures rows == Rows(text)
  {
    rows := [];
    var row: Row := [];
    var cell := "";
    var inQuotes := false;
    var i := 0;
    while i < |text|
      invariant 0 <= i <= |text|
      invariant Scanned(Scan(rows, row, cell, inQuotes), text[i..]) == Scanned(START, text)
    {
      var c := text[i];
      ghost var rest := text[i..];
      assert rest[0] == c;
      if c == QUOTE {
        if inQuotes && i + 1 < |text| && text[i + 1] == QUOTE {
          assert rest[1] == QUOTE && rest[2..] == text[i + 2..];
          cell := cell + [QUOTE];
          i := i + 2;
        } else {
          assert rest[1..] == text[i + 1..];
          inQuotes := !inQuotes;
          i := i + 1;
        }
      } else if !inQuotes && c == COMMA {
        assert rest[1..] == text[i + 1..];
        row, cell := row + [cell], "";
        i := i + 1;
      } else if !inQuotes && (c == LF || c == CR) {
        var skip := if c == CR && i + 1 < |text| && text[i + 1] == LF then 2 else 1;
        assert rest[skip..] == text[i + skip..];
        rows, row, cell := rows + [row + [cell]], [], "";
        i := i + skip;
      } else {
        assert rest[1..] == text[i + 1..];
        cell := cell + [c];
        i := i + 1;
      }
    }
    if |cell| > 0 || |row| > 0 {
      rows := rows + [row + [cell]];
    }
  }

  // ----- RFC 4180 renderings of a table -----

  datatype Eol = Lf | CrLf | Cr

  // A stretch of a cell, written between quotes or bare.
  datatype Part = Part(text: string, quoted: bool)

  datatype Cell = Cell(parts: seq<Part>)

  datatype Record = Record(cells: seq<Cell>, eol: Eol)

  predicate Special(c: char) { c == QUOTE || c == COMMA || c == LF || c == CR }

  // A bare part may not hold a special character; a quoted one may hold anything, but two of them may not
  // touch, as their quotes would be read as one character.
  predicate LegalPart(p: Part) { p.quoted || forall k :: 0 <= k < |p.text| ==> !Special(p.text[k]) }

  predicate LegalCell(c: Cell) {
    && (forall k :: 0 <= k < |c.parts| ==> LegalPart(c.parts[k]))
    && (forall k :: 0 <= k < |c.parts| - 1 && c.parts[k].quoted ==> !c.parts[k + 1].quoted && c.parts[k + 1].text != "")
  }

  predicate LegalCells(cells: seq<Cell>) {
    |cells| > 0 && forall k :: 0 <= k < |cells| ==> LegalCell(cells[k])
  }

  // Inner quotes are doubled.
  function Escape(v: string): string {
    if v == "" then "" else (if v[0] == QUOTE then [QUOTE, QUOTE] else [v[0]]) + Escape(v[1..])
  }

  function RenderPart(p: Part): string { if p.quoted then [QUOTE] + Escape(p.text) + [QUOTE] else p.text }

  function RenderParts(ps: seq<Part>): string { if ps == [] then "" else RenderPart(ps[0]) + RenderParts(ps[1..]) }

  function Text(ps: seq<Part>): string { if ps == [] then "" else ps[0].text + Text(ps[1..]) }

  function RenderCell(c: Cell): string { RenderParts(c.parts) }

  function Value(c: Cell): string { Text(c.parts) }

  function RenderCells(cells: seq<Cell>): string {
    if cells == [] then "" else
    if |cells| == 1 then RenderCell(cells[0]) else RenderCell(cells[0]) + [COMMA] + RenderCells(cells[1..])
  }

  function RenderEol(e: Eol): string { if e == Lf then [LF] else if e == Cr then [CR] else [CR, LF] }

  function RenderTable(records: seq<Record>): string {
    if records == [] then "" else RenderCells(records[0].cells) + RenderEol(records[0].eol) + RenderTable(records[1..])
  }

  function Values(cells: seq<Cell>): Row { seq(|cells|, i requires 0 <= i < |cells| => Value(cells[i])) }

  function TableValues(records: seq<Record>): seq<Row> {
    seq(|records|, i requires 0 <= i < |records| => Values(records[i].cells))
  }

  // A record that an LF alone is all that is written of.
  predicate OnlyLf(r: Record) { RenderCells(r.cells) == "" && r.eol == Lf }

  // A lone CR may not be followed by such a record, or the two would close one record.
  predicate LegalTable(records: seq<Record>) {
    && (forall k :: 0 <= k < |records| ==> LegalCells(records[k].cells))
    && (forall k :: 0 <= k < |records| - 1 && records[k].eol == Cr ==> !OnlyLf(records[k + 1]))
  }

  // ----- The scanner reads every rendering back -----

  lemma {:induction false} ScanQuotedBody(s: Scan, v: string, rest: string)
    requires s.inQuotes
    requires rest == "" || rest[0] != QUOTE
    ensures Scanned(s, Escape(v) + [QUOTE] + rest) == Scanned(s.(cell := s.cell + v, inQuotes := false), rest)
    decreases |v|
  {
    var text := Escape(v) + [QUOTE] + rest;
    if v == "" {
      assert s.cell + v == s.cell;
      assert text[1..] == rest;
    } else {
      var n := if v[0] == QUOTE then 2 else 1;
      assert text[n..] == Escape(v[1..]) + [QUOTE] + rest;
      var s' := s.(cell := s.cell + [v[0]]);
      assert Step(s, text) == (s', n);
      ScanQuotedBody(s', v[1..], rest);
      assert s.cell + [v[0]] + v[1..] == s.cell + v;
    }
  }

  lemma {:induction false} ScanBare(s: Scan, v: string, rest: string)
    requires !s.inQuotes
    requires forall k :: 0 <= k < |v| ==> !Special(v[k])
    ensures Scanned(s, v + rest) == Scanned(s.(cell := s.cell + v), rest)
    decreases |v|
  {
    if v == "" {
      assert v + rest == rest && s.cell + v == s.cell;
    } else {
      var s' := s.(cell := s.cell + [v[0]]);
      assert (v + rest)[1..] == v[1..] + rest;
      assert Step(s, v + rest) == (s', 1);
      ScanBare(s', v[1..], rest);
      assert s.cell + [v[0]] + v[1..] == s.cell + v;
    }
  }

  // The first character of what follows a quoted part, or of a cell's end.
  lemma {:induction false} PartsStart(ps: seq<Part>, rest: string)
    requires (rest == "" || rest[0] != QUOTE) && (ps != [] ==> !ps[0].quoted && ps[0].text != "" && LegalPart(ps[0]))
    ensures RenderParts(ps) + rest == "" || (RenderParts(ps) + rest)[0] != QUOTE
  {
  }

  lemma {:induction false} ScanParts(s: Scan, ps: seq<Part>, rest: string)
    requires !s.inQuotes && LegalCell(Cell(ps)) && (rest == "" || rest[0] != QUOTE)
    ensures Scanned(s, RenderParts(ps) + rest) == Scanned(s.(cell := s.cell + Text(ps)), rest)
    decreases |ps|
  {
    if ps == [] {
      assert RenderParts(ps) + rest == rest && s.cell + Text(ps) == s.cell;
    } else {
      var p, more := ps[0], ps[1..];
      var tail := RenderParts(more) + rest;
      assert RenderParts(ps) + rest == RenderPart(p) + tail;
      LegalMore(ps);
      ScanPart(s, p, more, rest);
      ScanParts(s.(cell := s.cell + p.text), more, rest);
      assert s.cell + p.text + Text(more) == s.cell + Text(ps);
    }
  }

  lemma LegalMore(ps: seq<Part>)
    requires ps != [] && LegalCell(Cell(ps))
    ensures LegalCell(Cell(ps[1..])) && LegalPart(ps[0])
    ensures ps[0].quoted && |ps| > 1 ==> !ps[1].quoted && ps[1].text != "" && LegalPart(ps[1])
  {
    assert forall k :: 0 <= k < |ps| - 1 ==> ps[1..][k] == ps[k + 1];
  }

  lemma ScanPart(s: Scan, p: Part, more: seq<Part>, rest: string)
    requires !s.inQuotes && LegalPart(p) && (rest == "" || rest[0] != QUOTE)
    requires p.quoted && more != [] ==> !more[0].quoted && more[0].text != "" && LegalPart(more[0])
    ensures var tail := RenderParts(more) + rest;
            Scanned(s, RenderPart(p) + tail) == Scanned(s.(cell := s.cell + p.text), tail)
  {
    var tail := RenderParts(more) + rest;
    if p.quoted {
      var text := RenderPart(p) + tail;
      PartsStart(more, rest);
      assert text[1..] == Escape(p.text) + [QUOTE] + tail;
      ScanQuotedBody(s.(inQuotes := true), p.text, tail);
    } else {
      ScanBare(s, p.text, tail);
    }
  }

  lemma ScanCell(s: Scan, c: Cell, rest: string)
    requires !s.inQuotes && s.cell == "" && LegalCell(c)
    requires rest == "" || rest[0] != QUOTE
    ensures Scanned(s, RenderCell(c) + rest) == Scanned(s.(cell := Value(c)), rest)
  {
    ScanParts(s, c.parts, rest);
    assert "" + Value(c) == Value(c);
  }

  lemma ScanComma(s: Scan, rest: string)
    requires !s.inQuotes
    ensures Scanned(s, [COMMA] + rest) == Scanned(s.(row := s.row + [s.cell], cell := ""), rest)
  {
    assert ([COMMA] + rest)[1..] == rest;
    assert Step(s, [COMMA] + rest) == (s.(row := s.row + [s.cell], cell := ""), 1);
  }

  lemma RenderSplit(cells: seq<Cell>, rest: string)
    requires |cells| > 1
    ensures RenderCells(cells) + rest == RenderCell(cells[0]) + ([COMMA] + (RenderCells(cells[1..]) + rest))
  {
    Regroup(RenderCell(cells[0]), [COMMA], RenderCells(cells[1..]) + rest);
    Regroup(RenderCell(cells[0]) + [COMMA], RenderCells(cells[1..]), rest);
  }

  lemma Regroup<T>(a: seq<T>, b: seq<T>, c: seq<T>)
    ensures a + b + c == a + (b + c)
  {
  }

  lemma ValuesSplit(row: Row, cells: seq<Cell>)
    requires |cells| > 1
    ensures var vs, ws := Values(cells), Values(cells[1..]);
            vs[|vs| - 1] == ws[|ws| - 1] && row + [Value(cells[0])] + ws[..|ws| - 1] == row + vs[..|vs| - 1]
  {
    assert Values(cells[1..]) == Values(cells)[1..];
  }

  lemma {:induction false} ScanCells(s: Scan, cells: seq<Cell>, rest: string)
    requires !s.inQuotes && s.cell == "" && LegalCells(cells)
    requires rest == "" || rest[0] == LF || rest[0] == CR
    ensures var vs := Values(cells);
            Scanned(s, RenderCells(cells) + rest)
            == Scanned(s.(row := s.row + vs[..|vs| - 1], cell := vs[|vs| - 1]), rest)
    decreases |cells|
  {
    var vs := Values(cells);
    if |cells| == 1 {
      ScanCell(s, cells[0], rest);
      assert s.row + vs[..0] == s.row;
    } else {
      var tail := RenderCells(cells[1..]) + rest;
      RenderSplit(cells, rest);
      ScanCell(s, cells[0], [COMMA] + tail);
      ScanComma(s.(cell := Value(cells[0])), tail);
      ScanCells(s.(row := s.row + [Value(cells[0])], cell := ""), cells[1..], rest);
      ValuesSplit(s.row, cells);
    }
  }

  lemma ScanEol(s: Scan, eol: Eol, tail: string)
    requires !s.inQuotes && (eol == Cr ==> tail == "" || tail[0] != LF)
    ensures Scanned(s, RenderEol(eol) + tail) == Scanned(START.(rows := s.rows + [s.row + [s.cell]]), tail)
  {
    var closed := RenderEol(eol) + tail;
    var n := |RenderEol(eol)|;
    assert closed[n..] == tail;
    assert Step(s, closed) == (START.(rows := s.rows + [s.row + [s.cell]]), n);
  }

  lemma FrontAndLast<T>(vs: seq<T>)
    requires vs != []
    ensures [] + vs[..|vs| - 1] + [vs[|vs| - 1]] == vs
  {
  }

  lemma ScanRecord(done: seq<Row>, r: Record, tail: string)
    requires LegalCells(r.cells) && (r.eol == Cr ==> tail == "" || tail[0] != LF)
    ensures Scanned(START.(rows := done), RenderCells(r.cells) + RenderEol(r.eol) + tail)
            == Scanned(START.(rows := done + [Values(r.cells)]), tail)
  {
    Regroup(RenderCells(r.cells), RenderEol(r.eol), tail);
    ScanCells(START.(rows := done), r.cells, RenderEol(r.eol) + tail);
    var vs := Values(r.cells);
    FrontAndLast(vs);
    ScanEol(Scan(done, [] + vs[..|vs| - 1], vs[|vs| - 1], false), r.eol, tail);
  }

  lemma TableSplit(records: seq<Record>)
    requires records != []
    ensures TableValues(records) == [Values(records[0].cells)] + TableValues(records[1..])
  {
  }

  // What follows a record closed by a lone CR does not begin with an LF.
  lemma TailStart(records: seq<Record>, rest: string)
    requires records != [] && LegalTable(records) && (rest == "" || rest[0] != LF)
    ensures LegalTable(records[1..])
    ensures records[0].eol == Cr ==>
              RenderTable(records[1..]) + rest == "" || (RenderTable(records[1..]) + rest)[0] != LF
  {
    assert forall k :: 0 <= k < |records| - 1 ==> records[1..][k] == records[k + 1];
    if |records| > 1 {
      var r := records[1];
      CellsStart(r.cells);
      assert RenderTable(records[1..]) == RenderCells(r.cells) + RenderEol(r.eol) + RenderTable(records[1..][1..]);
    }
  }

  lemma {:induction false} PartsNoLf(ps: seq<Part>)
    requires forall k :: 0 <= k < |ps| ==> LegalPart(ps[k])
    ensures RenderParts(ps) != "" ==> RenderParts(ps)[0] != LF
  {
    if ps != [] { PartsNoLf(ps[1..]); }
  }

  lemma CellsStart(cells: seq<Cell>)
    requires LegalCells(cells)
    ensures RenderCells(cells) != "" ==> RenderCells(cells)[0] != LF
  {
    assert LegalCell(cells[0]);
    PartsNoLf(cells[0].parts);
  }

  lemma {:induction false} ScanTable(done: seq<Row>, records: seq<Record>, rest: string)
    requires LegalTable(records) && (rest == "" || rest[0] != LF)
    ensures Scanned(START.(rows := done), RenderTable(records) + rest)
            == Scanned(START.(rows := done + TableValues(records)), rest)
    decreases |records|
  {
    if records == [] {
      assert RenderTable(records) + rest == rest && done + TableValues(records) == done;
    } else {
      var r := records[0];
      var tail := RenderTable(records[1..]) + rest;
      Regroup(RenderCells(r.cells) + RenderEol(r.eol), RenderTable(records[1..]), rest);
      TailStart(records, rest);
      ScanRecord(done, r, tail);
      var done' := done + [Values(r.cells)];
      ScanTable(done', records[1..], rest);
      TableSplit(records);
      Regroup(done, [Values(r.cells)], TableValues(records[1..]));
    }
  }

  // Main result: any legal rendering whose records are all closed is read back exactly.
  lemma ParseInvertsRender(records: seq<Record>)
    requires LegalTable(records)
    ensures Rows(RenderTable(records)) == TableValues(records)
  {
    ScanTable([], records, "");
    assert RenderTable(records) + "" == RenderTable(records);
    assert [] + TableValues(records) == TableValues(records);
  }

  // The rendering of the export side: every cell quoted, one fixed line ending.
  function Encode(rows: seq<Row>, eol: Eol): string { RenderTable(Quoted(rows, eol)) }

  function Quoted(rows: seq<Row>, eol: Eol): seq<Record> {
    seq(|rows|, i requires 0 <= i < |rows| =>
      Record(seq(|rows[i]|, j requires 0 <= j < |rows[i]| => Cell([Part(rows[i][j], true)])), eol))
  }

  lemma OnePart(v: string)
    ensures Value(Cell([Part(v, true)])) == v && RenderCell(Cell([Part(v, true)])) == [QUOTE] + Escape(v) + [QUOTE]
  {
    var ps := [Part(v, true)];
    assert Text(ps) == v + Text(ps[1..]) == v;
    assert RenderParts(ps) == RenderPart(ps[0]) + RenderParts(ps[1..]) == RenderPart(ps[0]);
  }

  lemma QuotedCells(row: Row, cells: seq<Cell>)
    requires |row| == |cells| > 0 && forall j :: 0 <= j < |row| ==> cells[j] == Cell([Part(row[j], true)])
    ensures LegalCells(cells) && RenderCells(cells) != ""
  {
    OnePart(row[0]);
  }

  lemma ParseInvertsEncode(rows: seq<Row>, eol: Eol)
    requires forall i :: 0 <= i < |rows| ==> |rows[i]| > 0
    ensures Rows(Encode(rows, eol)) == rows
  {
    var records := Quoted(rows, eol);
    forall i | 0 <= i < |rows| ensures LegalCells(records[i].cells) && RenderCells(records[i].cells) != "" {
      QuotedCells(rows[i], records[i].cells);
    }
    ParseInvertsRender(records);
    forall i, j | 0 <= i < |rows| && 0 <= j < |rows[i]| ensures Value(records[i].cells[j]) == rows[i][j] {
      OnePart(rows[i][j]);
    }
    assert forall i :: 0 <= i < |rows| ==> TableValues(records)[i] == rows[i];
    assert TableValues(records) == rows;
  }

  // RFC 4180 lets the last record go without a line ending. It is then read back unless it is a
  // single empty cell, which the final flush cannot tell from no record at all.
  lemma ParseOpenRecord(records: seq<Record>, last: seq<Cell>)
    requires LegalTable(records) && LegalCells(last)
    ensures var text := RenderTable(records) + RenderCells(last);
            && (Values(last) != [""] ==> Rows(text) == TableValues(records) + [Values(last)])
            && (Values(last) == [""] ==> Rows(text) == TableValues(records))
  {
    var done := TableValues(records);
    CellsStart(last);
    ScanTable([], records, RenderCells(last));
    assert [] + done == done;
    ScanOpen(done, last);
  }

  lemma ScanOpen(done: seq<Row>, last: seq<Cell>)
    requires LegalCells(last)
    ensures Finish(Scanned(START.(rows := done), RenderCells(last)))
            == if Values(last) == [""] then done else done + [Values(last)]
  {
    var vs := Values(last);
    ScanCells(START.(rows := done), last, "");
    assert RenderCells(last) + "" == RenderCells(last);
    FrontAndLast(vs);
    if |vs| == 1 { assert vs == [vs[0]]; }
  }

  lemma OpenRecordReadBackExactly(records: seq<Record>, last: seq<Cell>)
    requires LegalTable(records) && LegalCells(last)
    ensures Rows(RenderTable(records) + RenderCells(last)) == TableValues(records) + [Values(last)]
            <==> !(|last| == 1 && Value(last[0]) == "")
  {
    ParseOpenRecord(records, last);
    if |last| == 1 && Value(last[0]) == "" {
      assert Values(last) == [""];
      var done := TableValues(records);
      assert |done + [Values(last)]| == |done| + 1;
    } else {
      assert Values(last) != [""] by {
        if |last| == 1 { assert Values(last)[0] == Value(last[0]); }
      }
    }
  }

  // ----- Records -----

  // The characters String.prototype.trim removes.
  predicate JsSpace(c: char) {
    c in {'\t', '\n', '\U{000B}', '\U{000C}', '\r', ' ', '\U{00A0}', '\U{1680}', '\U{2028}', '\U{2029}',
          '\U{202F}', '\U{205F}', '\U{3000}', '\U{FEFF}'}
    || '\U{2000}' <= c <= '\U{200A}'
  }

  predicate BlankCell(cell: string) { forall k :: 0 <= k < |cell| ==> JsSpace(cell[k]) }

  predicate BlankRow(row: Row) { forall k :: 0 <= k < |row| ==> BlankCell(row[k]) }

  function NonBlank(rows: seq<Row>): seq<Row> {
    if rows == [] then []
    else (if BlankRow(rows[0]) then [] else [rows[0]]) + NonBlank(rows[1..])
  }

  // The rows with some character that is no white space stay, in their order; the others go.
  lemma {:induction false} NonBlankConcat(a: seq<Row>, b: seq<Row>)
    ensures NonBlank(a + b) == NonBlank(a) + NonBlank(b)
  {
    if a == [] {
      assert a + b == b;
    } else {
      assert (a + b)[1..] == a[1..] + b;
      NonBlankConcat(a[1..], b);
    }
  }

  lemma NonBlankOne(row: Row)
    ensures NonBlank([row])
            == if exists k, j :: 0 <= k < |row| && 0 <= j < |row[k]| && !JsSpace(row[k][j]) then [row] else []
  {
    assert [row][1..] == [];
    if !BlankRow(row) {
      var k :| 0 <= k < |row| && !BlankCell(row[k]);
      assert exists j :: 0 <= j < |row[k]| && !JsSpace(row[k][j]);
    }
    if k, j :| 0 <= k < |row| && 0 <= j < |row[k]| && !JsSpace(row[k][j]) { assert !BlankCell(row[k]); }
  }

  // White space alone, in every cell, is what a blank row is made of.
  lemma SpacesAreBlank(row: Row)
    requires forall k, j :: 0 <= k < |row| && 0 <= j < |row[k]| ==> row[k][j] in {' ', '\t', '\r', '\n', '\U{00A0}'}
    ensures NonBlank([row]) == []
  {
    NonBlankOne(row);
  }

  function CellOr(row: Row, j: nat): string { if j < |row| then row[j] else "" }

  // `rec` is what assigning the row's cells under the headers, left to right, leaves behind: every
  // header is a key and a repeated header keeps the value of its last column.
  ghost predicate RecordOf(headers: Row, upTo: nat, row: Row, rec: map<string, string>)
    requires upTo <= |headers|
  {
    && (forall h :: h in rec <==> exists j :: 0 <= j < upTo && headers[j] == h)
    && forall j :: 0 <= j < upTo && (forall k :: j < k < upTo ==> headers[k] != headers[j])
         ==> headers[j] in rec && rec[headers[j]] == CellOr(row, j)
  }

  // The relation leaves no freedom: a header row and a data row have exactly one record.
  lemma RecordUnique(headers: Row, row: Row, a: map<string, string>, b: map<string, string>)
    requires RecordOf(headers, |headers|, row, a) && RecordOf(headers, |headers|, row, b)
    ensures a == b
  {
    assert a.Keys == b.Keys by {
      assert forall h :: h in a <==> h in b;
    }
    forall h | h in a ensures a[h] == b[h] {
      var j := LastColumn(headers, |headers|, h);
    }
  }

  lemma LastColumn(headers: Row, upTo: nat, h: string) returns (j: nat)
    requires upTo <= |headers|
    requires exists q :: 0 <= q < upTo && headers[q] == h
    ensures j < upTo && headers[j] == h && forall k :: j < k < upTo ==> headers[k] != h
  {
    j := upTo - 1;
    while headers[j] != h
      invariant 0 <= j < upTo
      invariant forall k :: j < k < upTo ==> headers[k] != h
      decreases j
    {
      j := j - 1;
    }
  }

  lemma RecordOfExtended(headers: Row, j: nat, row: Row, rec: map<string, string>)
    requires j < |headers| && RecordOf(headers, j, row, rec)
    ensures RecordOf(headers, j + 1, row, rec[headers[j] := CellOr(row, j)])
  {
    var rec' := rec[headers[j] := CellOr(row, j)];
    forall h ensures h in rec' <==> exists q :: 0 <= q < j + 1 && headers[q] == h {
      if h in rec {
        var q :| 0 <= q < j && headers[q] == h;
        assert 0 <= q < j + 1;
      } else if h == headers[j] {
        assert 0 <= j < j + 1;
      }
    }
    forall q | 0 <= q < j + 1 && (forall m :: q < m < j + 1 ==> headers[m] != headers[q])
      ensures headers[q] in rec' && rec'[headers[q]] == CellOr(row, q)
    {
      if q < j {
        assert headers[j] != headers[q];
        assert forall m :: q < m < j ==> headers[m] != headers[q];
      }
    }
  }

  method BuildRecord(headers: Row, row: Row) returns (rec: map<string, string>)
    ensures RecordOf(headers, |headers|, row, rec)
  {
    rec := map[];
    var j := 0;
    while j < |headers|
      invariant 0 <= j <= |headers|
      invariant RecordOf(headers, j, row, rec)
    {
      RecordOfExtended(headers, j, row, rec);
      rec := rec[headers[j] := CellOr(row, j)];
      j := j + 1;
    }
  }

  lemma NonBlankFrom(all: seq<Row>, k: nat)
    requires k < |all|
    ensures NonBlank(all[k..]) == if BlankRow(all[k]) then NonBlank(all[k + 1..]) else [all[k]] + NonBlank(all[k + 1..])
  {
    assert all[k..][0] == all[k] && all[k..][1..] == all[k + 1..];
  }

  method DropBlankRows(all: seq<Row>) returns (rows: seq<Row>)
    ensures rows == NonBlank(all)
  {
    rows := [];
    var k := 0;
    while k < |all|
      invariant 0 <= k <= |all|
      invariant rows + NonBlank(all[k..]) == NonBlank(all)
    {
      NonBlankFrom(all, k);
      if !BlankRow(all[k]) {
        Regroup(rows, [all[k]], NonBlank(all[k + 1..]));
        rows := rows + [all[k]];
      }
      k := k + 1;
    }
  }

  method CsvToRecords(text: string) returns (records: seq<map<string, string>>)
    ensures var rows := NonBlank(Rows(text));
            if rows == [] then records == [] else
            && |records| == |rows| - 1
            && forall i :: 0 <= i < |records| ==> RecordOf(rows[0], |rows[0]|, rows[i + 1], records[i])
    // A header that is not repeated names its own column; a missing cell is empty.
    ensures var rows := NonBlank(Rows(text));
            forall i, j :: 0 <= i < |records| && |rows| == |records| + 1 && 0 <= j < |rows[0]|
                           && (forall k :: j < k < |rows[0]| ==> rows[0][k] != rows[0][j]) ==>
              && rows[0][j] in records[i]
              && records[i][rows[0][j]] == if j < |rows[i + 1]| then rows[i + 1][j] else ""
  {
    var all := ParseCsvRows(text);
    var rows := DropBlankRows(all);
    records := [];
    if |rows| == 0 { return; }
    var i := 1;
    while i < |rows|
      invariant 1 <= i <= |rows|
      invariant |records| == i - 1
      invariant forall m :: 0 <= m < |records| ==> RecordOf(rows[0], |rows[0]|, rows[m + 1], records[m])
    {
      var rec := BuildRecord(rows[0], rows[i]);
      records := records + [rec];
      i := i + 1;
    }
  }
}
