/** The statement as CSV, and the reading of it that section 2 of RFC 4180 prescribes. */
module Csv {
  import opened Basics
  import opened Money

  // ---------- The printer ----------

  const FORMULA_START: seq<char> := ['=', '+', '-', '@', '\t', '\r']
  const CRLF: string := "\r\n"
  const BYTE_ORDER_MARK: char := '\U{FEFF}'

  predicate StartsFormula(v: string) {
    v != "" && v[0] in FORMULA_START
  }

  /** Spreadsheets would run a formula, so it gets an apostrophe. */
  function Guarded(v: string): string {
    if StartsFormula(v) then "'" + v else v
  }

  function Doubled(v: string): string {
    if v == "" then "" else (if v[0] == '"' then "\"\"" else [v[0]]) + Doubled(v[1..])
  }

  function Cell(v: string): string {
    "\"" + Doubled(Guarded(v)) + "\""
  }

  function Join(parts: seq<string>, separator: string): string {
    if parts == [] then ""
    else if |parts| == 1 then parts[0]
    else parts[0] + separator + Join(parts[1..], separator)
  }

  function Map<S, T>(s: seq<S>, f: S -> T): (r: seq<T>)
    ensures |r| == |s| && forall i :: 0 <= i < |s| ==> r[i] == f(s[i])
  {
    seq(|s|, i requires 0 <= i < |s| => f(s[i]))
  }

  /** A line of the statement, its date already formatted in the user's timezone. Amounts are in kobo. */
  datatype Row = Row(date: string, reference: string, description: string, isCredit: bool, amount: int, balance: int)

  const HEADER: seq<string> := ["Date", "Reference", "Description", "Money in (NGN)", "Money out (NGN)", "Balance (NGN)"]

  function Cells(row: Row): seq<string> {
    [row.date, row.reference, row.description,
     if row.isCredit then Fixed(row.amount) else "",
     if row.isCredit then "" else Fixed(row.amount),
     Fixed(row.balance)]
  }

  function Record(cells: seq<string>): string {
    Join(Map(cells, Cell), ",")
  }

  function Table(rows: seq<Row>): seq<seq<string>> {
    [HEADER] + Map(rows, Cells)
  }

  function RenderStatement(rows: seq<Row>): string {
    [BYTE_ORDER_MARK] + Join(Map(Table(rows), Record), CRLF) + CRLF
  }

  // ---------- RFC 4180, section 2 ----------

  /** The rest of a quoted field, after its opening quote: its text, and what follows its closing quote. */
  function ScanQuoted(s: string): (r: Option<(string, string)>)
    ensures r.Some? ==> |r.value.1| < |s|
  {
    if s == "" then None
    else if s[0] != '"' then
      var rest := ScanQuoted(s[1..]);
      if rest.None? then None else Some(([s[0]] + rest.value.0, rest.value.1))
    else if 1 < |s| && s[1] == '"' then
      var rest := ScanQuoted(s[2..]);
      if rest.None? then None else Some((['"'] + rest.value.0, rest.value.1))
    else Some(("", s[1..]))
  }

  predicate TextData(c: char) {
    c == ' ' || c == '!' || '#' <= c <= '+' || '-' <= c <= '~'
  }

  function ScanPlain(s: string): (r: (string, string))
    ensures |r.1| <= |s|
  {
    if s == "" || !TextData(s[0]) then ("", s)
    else
      var rest := ScanPlain(s[1..]);
      ([s[0]] + rest.0, rest.1)
  }

  function ScanField(s: string): (r: Option<(string, string)>)
    ensures r.Some? ==> |r.value.1| <= |s|
  {
    if s != "" && s[0] == '"' then ScanQuoted(s[1..]) else Some(ScanPlain(s))
  }

  /** One record, with its fields separated by commas. */
  function ScanRecord(s: string): (r: Option<(seq<string>, string)>)
    ensures r.Some? ==> |r.value.1| <= |s|
    decreases |s|
  {
    var field := ScanField(s);
    if field.None? then None
    else
      var (text, rest) := field.value;
      if rest != "" && rest[0] == ',' then
        var others := ScanRecord(rest[1..]);
        if others.None? then None else Some(([text] + others.value.0, others.value.1))
      else Some(([text], rest))
  }

  /** A file: records ended by line breaks, the last of which may be missing. */
  function Parse(s: string): Option<seq<seq<string>>>
    decreases |s|
  {
    var first := ScanRecord(s);
    if first.None? then None
    else
      var (fields, rest) := first.value;
      if rest == "" || rest == CRLF then Some([fields])
      else if rest[..Min(2, |rest|)] == CRLF then
        var others := Parse(rest[2..]);
        if others.None? then None else Some([fields] + others.value)
      else None
  }

  function Min(a: nat, b: nat): nat {
    if a < b then a else b
  }

  // ---------- The round trip ----------

  lemma {:induction false} ScanUndoesDoubling(v: string, rest: string)
    requires rest == "" || rest[0] != '"'
    ensures ScanQuoted(Doubled(v) + "\"" + rest) == Some((v, rest))
  {
    var s := Doubled(v) + "\"" + rest;
    if v == "" {
      assert s == "\"" + rest;
      assert s[1..] == rest;
    } else {
      ScanUndoesDoubling(v[1..], rest);
      var tail := Doubled(v[1..]) + "\"" + rest;
      if v[0] == '"' {
        assert s == "\"\"" + tail;
        assert s[2..] == tail;
      } else {
        assert s == [v[0]] + tail;
        assert s[1..] == tail;
      }
      assert [v[0]] + v[1..] == v;
    }
  }

  lemma ScanUndoesCell(v: string, rest: string)
    requires rest == "" || rest[0] != '"'
    ensures ScanField(Cell(v) + rest) == Some((Guarded(v), rest))
  {
    ScanUndoesDoubling(Guarded(v), rest);
    assert (Cell(v) + rest)[1..] == Doubled(Guarded(v)) + "\"" + rest;
  }

  lemma RecordSplits(cells: seq<string>)
    requires 1 < |cells|
    ensures Record(cells) == Cell(cells[0]) + "," + Record(cells[1..])
  {
    assert Map(cells, Cell)[1..] == Map(cells[1..], Cell);
  }

  lemma OneCell(cells: seq<string>)
    requires |cells| == 1
    ensures Record(cells) == Cell(cells[0]) && Map(cells, Guarded) == [Guarded(cells[0])]
  {
  }

  lemma GuardedSplits(cells: seq<string>)
    requires cells != []
    ensures Map(cells, Guarded) == [Guarded(cells[0])] + Map(cells[1..], Guarded)
  {
  }

  lemma {:induction false} ScanUndoesRecord(cells: seq<string>, rest: string)
    requires cells != [] && (rest == "" || (rest[0] != '"' && rest[0] != ','))
    ensures ScanRecord(Record(cells) + rest) == Some((Map(cells, Guarded), rest))
    decreases |cells|
  {
    if |cells| == 1 {
      ScanUndoesCell(cells[0], rest);
      OneCell(cells);
      hide Cell, ScanField, Guarded, Record, Map;
    } else {
      var tail := Record(cells[1..]) + rest;
      RecordSplits(cells);
      ScanUndoesCell(cells[0], "," + tail);
      ScanUndoesRecord(cells[1..], rest);
      GuardedSplits(cells);
      hide Cell, ScanField, Guarded, Record, Map;
      assert Record(cells) + rest == Cell(cells[0]) + ("," + tail);
      assert ("," + tail)[1..] == tail;
    }
  }

  function GuardedRecord(cells: seq<string>): seq<string> {
    Map(cells, Guarded)
  }

  lemma JoinSteps(table: seq<seq<string>>)
    requires table != []
    ensures |table| == 1 ==> Join(Map(table, Record), CRLF) + CRLF == Record(table[0]) + CRLF
    ensures |table| > 1 ==>
              Join(Map(table, Record), CRLF) + CRLF == Record(table[0]) + (CRLF + (Join(Map(table[1..], Record), CRLF) + CRLF))
  {
    hide Record, CRLF;
    assert Map(table, Record)[1..] == Map(table[1..], Record);
  }

  lemma LineBreak()
    ensures |CRLF| == 2 && CRLF[0] != '"' && CRLF[0] != ','
  {
  }

  lemma LineBreakFirst(tail: string)
    ensures var s := CRLF + tail; s != "" && s[0] != '"' && s[0] != ','
  {
  }

  lemma ParseLast(s: string, fields: seq<string>)
    requires ScanRecord(s) == Some((fields, CRLF))
    ensures Parse(s) == Some([fields])
  {
    hide ScanRecord;
  }

  lemma {:induction false} ParseUndoesPrinting(table: seq<seq<string>>)
    requires table != [] && forall i :: 0 <= i < |table| ==> table[i] != []
    ensures Parse(Join(Map(table, Record), CRLF) + CRLF) == Some(Map(table, GuardedRecord))
    decreases |table|
  {
    hide ScanRecord, Record, GuardedRecord, Parse, Join, CRLF;
    JoinSteps(table);
    RecordIsGuarded(table[0]);
    LineBreak();
    if |table| == 1 {
      ScanUndoesRecord(table[0], CRLF);
      ParseLast(Record(table[0]) + CRLF, GuardedRecord(table[0]));
      assert Map(table, GuardedRecord) == [GuardedRecord(table[0])];
    } else {
      var tail := Join(Map(table[1..], Record), CRLF) + CRLF;
      LineBreakFirst(tail);
      ScanUndoesRecord(table[0], CRLF + tail);
      ParseUndoesPrinting(table[1..]);
      ParseStep(Record(table[0]) + (CRLF + tail), GuardedRecord(table[0]), tail);
      assert Map(table, GuardedRecord) == [GuardedRecord(table[0])] + Map(table[1..], GuardedRecord);
    }
  }

  lemma RecordIsGuarded(cells: seq<string>)
    ensures Map(cells, Guarded) == GuardedRecord(cells)
  {
  }

  lemma ParseStep(s: string, fields: seq<string>, tail: string)
    requires ScanRecord(s) == Some((fields, CRLF + tail)) && |CRLF| <= |tail|
    ensures Parse(s) == if Parse(tail).None? then None else Some([fields] + Parse(tail).value)
  {
    hide ScanRecord;
    assert (CRLF + tail)[..2] == CRLF && (CRLF + tail)[2..] == tail;
  }

  /** No guarded cell starts a formula, and every other cell is printed as it is. */
  lemma GuardedIsSafe(v: string)
    ensures !StartsFormula(Guarded(v))
    ensures !StartsFormula(v) ==> Guarded(v) == v
    ensures Guarded(v) ==
            if v != "" && (v[0] == '=' || v[0] == '+' || v[0] == '-' || v[0] == '@' || v[0] == '\t' || v[0] == '\r') then "'" + v else v
  {
  }

  /**
   * Reading the file after its byte-order mark returns the header and every row, cell for cell, for
   * any descriptions, with quotes, commas or line breaks in them; and no cell read starts a formula.
   */
  lemma StatementRoundTrip(rows: seq<Row>)
    ensures var file := RenderStatement(rows);
      && file[0] == BYTE_ORDER_MARK
      && Parse(file[1..]) == Some(Map(Table(rows), GuardedRecord))
      && |Map(Table(rows), GuardedRecord)| == |rows| + 1
    ensures forall i, j :: 0 <= i <= |rows| && 0 <= j < 6 ==>
              && |Table(rows)[i]| == 6 && !StartsFormula(Map(Table(rows), GuardedRecord)[i][j])
              && (!StartsFormula(Table(rows)[i][j]) ==> Map(Table(rows), GuardedRecord)[i][j] == Table(rows)[i][j])
  {
    var table := Table(rows);
    hide HEADER;
    TableShape(rows);
    hide Table, Cells, Cell, Doubled;
    ParseUndoesPrinting(table);
    hide Parse, Join, Record;
    assert RenderStatement(rows)[1..] == Join(Map(table, Record), CRLF) + CRLF;
    forall i, j | 0 <= i <= |rows| && 0 <= j < 6
      ensures !StartsFormula(Map(table, GuardedRecord)[i][j])
      ensures !StartsFormula(table[i][j]) ==> Map(table, GuardedRecord)[i][j] == table[i][j]
    {
      assert Map(table, GuardedRecord)[i] == GuardedRecord(table[i]);
      GuardedIsSafe(table[i][j]);
    }
  }

  lemma TableShape(rows: seq<Row>)
    ensures |Table(rows)| == |rows| + 1
    ensures forall i :: 0 <= i < |Table(rows)| ==> |Table(rows)[i]| == 6
  {
    hide Fixed;
    assert |HEADER| == 6 && forall row :: |Cells(row)| == 6;
    hide HEADER, Cells;
    forall i | 0 <= i < |Table(rows)| ensures |Table(rows)[i]| == 6 {
      if 0 < i { assert Table(rows)[i] == Cells(rows[i - 1]); }
    }
  }

  // ---------- Reading the rows back ----------

  /** A guarded cell without its apostrophe. */
  function Unguarded(v: string): string {
    if v != "" && v[0] == '\'' && StartsFormula(v[1..]) then v[1..] else v
  }

  /**
   * What the cells of a line say: the date, reference and description as they are, the amount under money in
   * or money out and nothing under the other, and the balance, which may be below zero.
   */
  lemma CellsReadBack(row: Row)
    ensures var cells := GuardedRecord(Cells(row));
      && |cells| == 6
      && cells[0] == Guarded(row.date) && cells[1] == Guarded(row.reference) && cells[2] == Guarded(row.description)
      && ReadFixed(Unguarded(cells[if row.isCredit then 3 else 4])) == Some(row.amount)
      && cells[if row.isCredit then 4 else 3] == ""
      && ReadFixed(Unguarded(cells[5])) == Some(row.balance)
  {
    hide Fixed, ReadFixed;
    FixedReadsBack(row.amount);
    FixedReadsBack(row.balance);
    FixedUnguards(row.amount);
    FixedUnguards(row.balance);
  }

  lemma FixedUnguards(kobo: int)
    ensures Unguarded(Guarded(Fixed(kobo))) == Fixed(kobo)
  {
    var size := if kobo < 0 then -kobo else kobo;
    assert AllDigits(Digits(size / 100));
    assert Fixed(kobo)[0] != '\'';
    assert ("'" + Fixed(kobo))[1..] == Fixed(kobo);
  }

  /** The file's first record is the header, and record `i + 1` says what row `i` does. */
  lemma FileTellsTheRows(rows: seq<Row>, i: nat)
    requires i < |rows|
    ensures Parse(RenderStatement(rows)[1..]).Some?
    ensures var records := Parse(RenderStatement(rows)[1..]).value;
      && |records| == |rows| + 1
      && records[0] == ["Date", "Reference", "Description", "Money in (NGN)", "Money out (NGN)", "Balance (NGN)"]
      && var cells := records[i + 1];
         && |cells| == 6
         && cells[0] == Guarded(rows[i].date) && cells[1] == Guarded(rows[i].reference) && cells[2] == Guarded(rows[i].description)
         && ReadFixed(Unguarded(cells[if rows[i].isCredit then 3 else 4])) == Some(rows[i].amount)
         && cells[if rows[i].isCredit then 4 else 3] == ""
         && ReadFixed(Unguarded(cells[5])) == Some(rows[i].balance)
  {
    hide Parse, RenderStatement, Cells, HEADER, GuardedRecord, ReadFixed, Unguarded, Guarded;
    StatementRoundTrip(rows);
    CellsReadBack(rows[i]);
    HeaderIsPlain();
    RecordOf(rows, i);
  }

  lemma RecordOf(rows: seq<Row>, i: nat)
    requires i < |rows|
    ensures var records := Map(Table(rows), GuardedRecord);
      |records| == |rows| + 1 && records[0] == GuardedRecord(HEADER) && records[i + 1] == GuardedRecord(Cells(rows[i]))
  {
    hide HEADER, Cells, GuardedRecord;
  }

  lemma HeaderIsPlain()
    ensures GuardedRecord(HEADER) == ["Date", "Reference", "Description", "Money in (NGN)", "Money out (NGN)", "Balance (NGN)"]
  {
    hide Guarded;
    forall i | 0 <= i < 6 ensures Guarded(HEADER[i]) == HEADER[i] {
      HeaderCell(i);
      GuardedIsSafe(HEADER[i]);
    }
  }

  lemma HeaderCell(i: nat)
    requires i < 6
    ensures |HEADER| == 6 && !StartsFormula(HEADER[i])
  {
  }
}
