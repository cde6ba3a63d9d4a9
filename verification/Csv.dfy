/** The CSV row reader of the password import, and the printer it inverts. */
module Csv {
  import opened Prelude

  type Row = seq<string>

  predicate AllEmpty(row: Row) {
    forall i :: 0 <= i < |row| ==> row[i] == ""
  }

  // ----- the reader -----------------------------------------------------------

  /** A row, if there is one, and the characters not consumed by it. */
  datatype Read = Read(row: Option<Row>, rest: string)

  /**
   * The reader inside a row: finished fields, the field being read, and whether it is inside
   * quotes. One character of lookahead decides a doubled quote and a CRLF.
   */
  function Scan(s: string, fields: Row, cur: string, quoted: bool): (r: Read)
    ensures |r.rest| <= |s|
    decreases |s|
  {
    if s == "" then
      var row := fields + [cur];
      Read(if AllEmpty(row) then None else Some(row), "")
    else if quoted then
      if s[0] != '"' then Scan(s[1..], fields, cur + [s[0]], true)
      else if |s| > 1 && s[1] == '"' then Scan(s[2..], fields, cur + ['"'], true)
      else Scan(s[1..], fields, cur, false)
    else
      match s[0]
      case '"' => Scan(s[1..], fields, cur, true)
      case ',' => Scan(s[1..], fields + [cur], "", false)
      case '\n' => Read(Some(fields + [cur]), s[1..])
      case '\r' => Read(Some(fields + [cur]), if |s| > 1 && s[1] == '\n' then s[2..] else s[1..])
      case c => Scan(s[1..], fields, cur + [c], false)
  }

  function NextRow(s: string): (r: Read)
    ensures r.row.Some? ==> |r.rest| < |s|
  {
    if s == "" then Read(None, "") else ScanProgress(s, [], "", false); Scan(s, [], "", false)
  }

  lemma ScanProgress(s: string, fields: Row, cur: string, quoted: bool)
    requires s != ""
    ensures |Scan(s, fields, cur, quoted).rest| < |s|
  {
  }

  /** All rows up to the first time the reader has none. */
  function ParseRows(s: string): seq<Row>
    decreases |s|
  {
    var r := NextRow(s);
    if r.row.None? then [] else [r.row.value] + ParseRows(r.rest)
  }

  /** The row iterator over the remaining characters. */
  class RowIter {
    var chars: string

    constructor (text: string)
      ensures chars == text
    {
      chars := text;
    }

    method Next() returns (row: Option<Row>)
      modifies this
      ensures Read(row, chars) == NextRow(old(chars))
      ensures row.Some? ==> |chars| < |old(chars)|
    {
      var fields: Row, cur, inQuotes, sawAny := [], "", false, false;
      ghost var target := Scan(chars, [], "", false);
      while chars != ""
        invariant sawAny <==> chars != old(chars)
        invariant !sawAny ==> fields == [] && cur == "" && !inQuotes
        invariant |chars| <= |old(chars)|
        invariant Scan(chars, fields, cur, inQuotes) == target
        decreases |chars|
      {
        var ch := chars[0];
        chars := chars[1..];
        sawAny := true;
        if inQuotes {
          if ch == '"' {
            if chars != "" && chars[0] == '"' {
              cur := cur + ['"'];
              chars := chars[1..];
              continue;
            }
            inQuotes := false;
            continue;
          }
          cur := cur + [ch];
        } else {
          match ch {
            case '"' => inQuotes := true;
            case ',' =>
              fields, cur := fields + [cur], "";
            case '\n' =>
              return Some(fields + [cur]);
            case '\r' =>
              if chars != "" && chars[0] == '\n' {
                chars := chars[1..];
              }
              return Some(fields + [cur]);
            case _ =>
              cur := cur + [ch];
          }
        }
      }
      if !sawAny {
        return None;
      }
      fields := fields + [cur];
      if AllEmpty(fields) {
        return None;
      }
      return Some(fields);
    }
  }

  /** Draining the iterator yields exactly the parsed rows. */
  method CollectRows(text: string) returns (rows: seq<Row>)
    ensures rows == ParseRows(text)
  {
    var iter := new RowIter(text);
    rows := [];
    var row := iter.Next();
    while row.Some?
      invariant row.Some? ==> rows + [row.value] + ParseRows(iter.chars) == ParseRows(text)
      invariant row.None? ==> rows == ParseRows(text)
      decreases row.Some?, |iter.chars|
    {
      rows := rows + [row.value];
      ghost var before := iter.chars;
      row := iter.Next();
      if row.Some? {
        assert ParseRows(before) == [row.value] + ParseRows(iter.chars);
      } else {
        assert ParseRows(before) == [];
      }
    }
  }

  // ----- the printer (section 2 of RFC 4180) ----------------------------------

  /** A field and whether it is printed in quotes. */
  datatype Cell = Cell(text: string, quoted: bool)

  datatype LineEnd = LF | CRLF

  datatype Printed = Printed(cells: seq<Cell>, end: LineEnd)

  predicate IsSpecial(c: char) {
    c == ',' || c == '"' || c == '\n' || c == '\r'
  }

  /** Fields with a comma, quote or line break must be quoted; the others may be. */
  predicate ProperCell(cell: Cell) {
    cell.quoted || forall i :: 0 <= i < |cell.text| ==> !IsSpecial(cell.text[i])
  }

  predicate ProperRow(cells: seq<Cell>) {
    cells != [] && forall i :: 0 <= i < |cells| ==> ProperCell(cells[i])
  }

  function Escape(text: string): string {
    if text == "" then ""
    else (if text[0] == '"' then "\"\"" else [text[0]]) + Escape(text[1..])
  }

  function PrintCell(cell: Cell): string {
    if cell.quoted then "\"" + Escape(cell.text) + "\"" else cell.text
  }

  function PrintCells(cells: seq<Cell>): string {
    if cells == [] then ""
    else if |cells| == 1 then PrintCell(cells[0])
    else PrintCell(cells[0]) + "," + PrintCells(cells[1..])
  }

  function PrintEnd(end: LineEnd): string {
    match end
    case LF => "\n"
    case CRLF => "\r\n"
  }

  function PrintRow(row: Printed): string {
    PrintCells(row.cells) + PrintEnd(row.end)
  }

  function PrintRows(rows: seq<Printed>): string {
    if rows == [] then "" else PrintRow(rows[0]) + PrintRows(rows[1..])
  }

  function Texts(cells: seq<Cell>): Row {
    seq(|cells|, i requires 0 <= i < |cells| => cells[i].text)
  }

  function RowTexts(rows: seq<Printed>): seq<Row> {
    seq(|rows|, i requires 0 <= i < |rows| => Texts(rows[i].cells))
  }

  // ----- reading back what was printed ----------------------------------------

  predicate StartsWithQuote(s: string) {
    s != "" && s[0] == '"'
  }

  lemma {:induction false} ScanPlain(text: string, rest: string, fields: Row, cur: string)
    requires forall i :: 0 <= i < |text| ==> !IsSpecial(text[i])
    ensures Scan(text + rest, fields, cur, false) == Scan(rest, fields, cur + text, false)
  {
    if text == "" {
      assert text + rest == rest && cur + text == cur;
    } else {
      assert (text + rest)[0] == text[0] && (text + rest)[1..] == text[1..] + rest;
      assert !IsSpecial(text[0]);
      ScanPlain(text[1..], rest, fields, cur + [text[0]]);
      assert cur + [text[0]] + text[1..] == cur + text;
    }
  }

  lemma {:induction false} ScanQuoted(text: string, rest: string, fields: Row, cur: string)
    requires !StartsWithQuote(rest)
    ensures Scan(Escape(text) + "\"" + rest, fields, cur, true) == Scan(rest, fields, cur + text, false)
  {
    var s := Escape(text) + "\"" + rest;
    if text == "" {
      assert s == "\"" + rest && s[1..] == rest && cur + text == cur;
    } else {
      var later := Escape(text[1..]) + "\"" + rest;
      if text[0] == '"' {
        assert s == "\"\"" + later && s[2..] == later;
      } else {
        assert s == [text[0]] + later && s[1..] == later;
      }
      ScanQuoted(text[1..], rest, fields, cur + [text[0]]);
      assert cur + [text[0]] + text[1..] == cur + text;
    }
  }

  lemma {:induction false} ScanCell(cell: Cell, rest: string, fields: Row)
    requires ProperCell(cell) && !StartsWithQuote(rest)
    ensures Scan(PrintCell(cell) + rest, fields, "", false) == Scan(rest, fields, cell.text, false)
  {
    assert "" + cell.text == cell.text;
    if cell.quoted {
      var s := PrintCell(cell) + rest;
      assert s[0] == '"' && s[1..] == Escape(cell.text) + "\"" + rest;
      ScanQuoted(cell.text, rest, fields, "");
    } else {
      ScanPlain(cell.text, rest, fields, "");
    }
  }

  lemma {:induction false} ScanCells(cells: seq<Cell>, rest: string, fields: Row)
    requires ProperRow(cells) && !StartsWithQuote(rest)
    ensures Scan(PrintCells(cells) + rest, fields, "", false)
         == Scan(rest, fields + Texts(cells)[..|cells| - 1], cells[|cells| - 1].text, false)
    decreases |cells|
  {
    var n := |cells| - 1;
    if n == 0 {
      ScanCell(cells[0], rest, fields);
      assert fields + Texts(cells)[..0] == fields;
    } else {
      var later := PrintCells(cells[1..]) + rest;
      assert PrintCells(cells) + rest == PrintCell(cells[0]) + ("," + later);
      ScanComma(cells[0], later, fields);
      ScanCells(cells[1..], rest, fields + [cells[0].text]);
      assert Texts(cells)[..n] == [cells[0].text] + Texts(cells[1..])[..n - 1];
      assert fields + [cells[0].text] + Texts(cells[1..])[..n - 1] == fields + Texts(cells)[..n];
    }
  }

  lemma {:induction false} ScanComma(cell: Cell, later: string, fields: Row)
    requires ProperCell(cell)
    ensures Scan(PrintCell(cell) + ("," + later), fields, "", false) == Scan(later, fields + [cell.text], "", false)
  {
    ScanCell(cell, "," + later, fields);
    assert ("," + later)[1..] == later;
  }

  lemma PrintCellsNonEmpty(cells: seq<Cell>)
    requires ProperRow(cells)
    ensures PrintCells(cells) == "" ==> AllEmpty(Texts(cells))
  {
    if |cells| == 1 {
      assert PrintCell(cells[0]) == "" ==> cells[0].text == "";
    }
  }

  /** A printed row is read back whole, whatever follows it. */
  lemma {:induction false} ReadPrintedRow(row: Printed, rest: string)
    requires ProperRow(row.cells)
    ensures NextRow(PrintRow(row) + rest) == Read(Some(Texts(row.cells)), rest)
  {
    var n := |row.cells| - 1;
    var tail := PrintEnd(row.end) + rest;
    assert PrintRow(row) + rest == PrintCells(row.cells) + tail;
    ScanCells(row.cells, tail, []);
    var texts := Texts(row.cells);
    assert [] + texts[..n] + [row.cells[n].text] == texts;
    match row.end {
      case LF => assert tail[1..] == rest;
      case CRLF => assert tail[2..] == rest;
    }
  }

  /** A lone CR ends a row as well. */
  lemma {:induction false} ReadRowBeforeCR(cells: seq<Cell>, rest: string)
    requires ProperRow(cells) && (rest != "" ==> rest[0] != '\n')
    ensures NextRow(PrintCells(cells) + "\r" + rest) == Read(Some(Texts(cells)), rest)
  {
    var n, texts := |cells| - 1, Texts(cells);
    var tail := "\r" + rest;
    assert PrintCells(cells) + "\r" + rest == PrintCells(cells) + tail;
    ScanCells(cells, tail, []);
    assert [] + texts[..n] + [cells[n].text] == texts;
    assert tail[1..] == rest;
  }

  /** An unterminated last row survives unless all its fields are empty. */
  lemma {:induction false} ReadLastRow(cells: seq<Cell>)
    requires ProperRow(cells)
    ensures ParseRows(PrintCells(cells))
         == if forall i :: 0 <= i < |cells| ==> cells[i].text == "" then [] else [Texts(cells)]
  {
    ReadUnterminated(cells);
    AllEmptyMeans(cells);
  }

  lemma {:induction false} AllEmptyMeans(cells: seq<Cell>)
    ensures AllEmpty(Texts(cells)) <==> forall i :: 0 <= i < |cells| ==> cells[i].text == ""
  {
    assert forall i :: 0 <= i < |cells| ==> Texts(cells)[i] == cells[i].text;
  }

  lemma {:induction false} ReadUnterminated(cells: seq<Cell>)
    requires ProperRow(cells)
    ensures ParseRows(PrintCells(cells)) == if AllEmpty(Texts(cells)) then [] else [Texts(cells)]
  {
    var s, n, texts := PrintCells(cells), |cells| - 1, Texts(cells);
    ScanCells(cells, "", []);
    assert s + "" == s;
    assert [] + texts[..n] + [cells[n].text] == texts;
    PrintCellsNonEmpty(cells);
    ParseOne(s, texts);
  }

  /** A text that is all one row, if it is one. */
  lemma ParseOne(s: string, row: Row)
    requires NextRow(s) == Read(if AllEmpty(row) then None else Some(row), "")
    ensures ParseRows(s) == if AllEmpty(row) then [] else [row]
  {
    assert ParseRows("") == [];
  }

  lemma {:induction false} ParsePrintedRow(row: Printed, rest: string)
    requires ProperRow(row.cells)
    ensures ParseRows(PrintRow(row) + rest) == [Texts(row.cells)] + ParseRows(rest)
  {
    ReadPrintedRow(row, rest);
  }

  lemma RowTextsCons(rows: seq<Printed>)
    requires rows != []
    ensures RowTexts(rows) == [Texts(rows[0].cells)] + RowTexts(rows[1..])
  {
  }

  lemma PrintRowsCons(rows: seq<Printed>, tail: string)
    requires rows != []
    ensures PrintRows(rows) + tail == PrintRow(rows[0]) + (PrintRows(rows[1..]) + tail)
  {
  }

  /** Any rows, quoted as needed and ended by LF or CRLF independently, come back exactly. */
  lemma {:induction false} RoundTrip(rows: seq<Printed>, tail: string)
    requires forall i :: 0 <= i < |rows| ==> ProperRow(rows[i].cells)
    ensures ParseRows(PrintRows(rows) + tail) == RowTexts(rows) + ParseRows(tail)
  {
    if rows == [] {
      assert PrintRows(rows) + tail == tail;
      assert RowTexts(rows) == [];
    } else {
      RoundTrip(rows[1..], tail);
      PrintRowsCons(rows, tail);
      ParsePrintedRow(rows[0], PrintRows(rows[1..]) + tail);
      RowTextsCons(rows);
      Prepend(Texts(rows[0].cells), RowTexts(rows[1..]), ParseRows(tail));
    }
  }

  lemma Prepend(first: Row, rest: seq<Row>, more: seq<Row>)
    ensures [first] + (rest + more) == [first] + rest + more
  {
  }

  // ----- splitting at a row end -----------------------------------------------

  /** Where the current row's line break ends, if it has one. */
  function RowEnd(s: string, quoted: bool): (rest: Option<string>)
    ensures rest.Some? ==> |rest.value| < |s|
    decreases |s|
  {
    if s == "" then None
    else if quoted then
      if s[0] != '"' then RowEnd(s[1..], true)
      else if |s| > 1 && s[1] == '"' then RowEnd(s[2..], true)
      else RowEnd(s[1..], false)
    else if s[0] == '\n' then Some(s[1..])
    else if s[0] == '\r' then Some(if |s| > 1 && s[1] == '\n' then s[2..] else s[1..])
    else RowEnd(s[1..], s[0] == '"')
  }

  /** The text is a sequence of rows each ended by a line break. */
  predicate AtRowEnd(s: string)
    decreases |s|
  {
    s == "" || (RowEnd(s, false).Some? && AtRowEnd(RowEnd(s, false).value))
  }

  /** A CR at the end of `a` and an LF at the start of `b` are read as one line break. */
  function Joined(a: string, b: string): string {
    if a != "" && a[|a| - 1] == '\r' && b != "" && b[0] == '\n' then b[1..] else b
  }

  /** The first row of `a` is read alike from `a` and from `a + b`. */
  ghost predicate ReadsAlike(a: string, b: string, fields: Row, cur: string, quoted: bool) {
    var r := Scan(a, fields, cur, quoted);
    && r.row.Some? && Some(r.rest) == RowEnd(a, quoted)
    && Scan(a + b, fields, cur, quoted) == Read(r.row, if r.rest == "" then Joined(a, b) else r.rest + b)
    && (r.rest != "" ==> r.rest[|r.rest| - 1] == a[|a| - 1])
  }

  lemma ReadsAlikeAtBreak(a: string, b: string, fields: Row, cur: string)
    requires a != "" && (a[0] == '\n' || a[0] == '\r')
    ensures ReadsAlike(a, b, fields, cur, false)
  {
    var s := a + b;
    assert s[0] == a[0] && s[1..] == a[1..] + b;
    if |a| > 1 {
      assert s[1] == a[1] && s[2..] == a[2..] + b;
    } else if b != "" {
      assert s[1] == b[0] && s[2..] == b[1..];
    }
  }

  lemma {:induction false} ScanAppend(a: string, b: string, fields: Row, cur: string, quoted: bool)
    requires RowEnd(a, quoted).Some?
    ensures ReadsAlike(a, b, fields, cur, quoted)
    decreases |a|
  {
    var s := a + b;
    assert s[0] == a[0] && s[1..] == a[1..] + b;
    if !quoted && (a[0] == '\n' || a[0] == '\r') {
      ReadsAlikeAtBreak(a, b, fields, cur);
    } else {
      assert |a| > 1 && s[1] == a[1] && s[2..] == a[2..] + b;
      if quoted && a[0] == '"' && a[1] == '"' {
        ScanAppend(a[2..], b, fields, cur + ['"'], true);
      } else if quoted && a[0] == '"' {
        ScanAppend(a[1..], b, fields, cur, false);
      } else if quoted {
        ScanAppend(a[1..], b, fields, cur + [a[0]], true);
      } else if a[0] == '"' {
        ScanAppend(a[1..], b, fields, cur, true);
      } else if a[0] == ',' {
        ScanAppend(a[1..], b, fields + [cur], "", false);
      } else {
        ScanAppend(a[1..], b, fields, cur + [a[0]], false);
      }
    }
  }

  /** Parsing splits over concatenation at a row end. */
  lemma {:induction false} ParseSplits(a: string, b: string)
    requires AtRowEnd(a)
    ensures ParseRows(a + b) == ParseRows(a) + ParseRows(Joined(a, b))
    decreases |a|
  {
    if a == "" {
      assert a + b == b;
    } else {
      ScanAppend(a, b, [], "", false);
      var r := NextRow(a);
      if r.rest == "" {
        assert ParseRows("") == [];
      } else {
        ParseSplits(r.rest, b);
      }
      Prepend(r.row.value, ParseRows(r.rest), ParseRows(Joined(a, b)));
    }
  }
}
