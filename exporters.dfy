/**
 * The CSV text built by `downloadCSV` (frontend/src/utils/exporters.js): a
 * header line, then one line per row with the cells in header order. A string
 * cell is quoted, with its quotes doubled, only when it contains a comma;
 * every other cell is written as it is.
 */
module Csv {
  import opened Common

  /** A cell value: absent (null or undefined), a string, or any other value by its `String()` rendering. */
  datatype Cell = Missing | Str(s: string) | Other(rendered: string)

  /** A row maps column names to cells; a column the row lacks reads as undefined. */
  type Row = map<string, Cell>

  function CellAt(row: Row, h: string): (r: Cell) {
    if h in row then row[h] else Missing
  }

  /** `s.replace(/"/g, '""')`. */
  function Doubled(s: string): (r: string) {
    if s == [] then []
    else (if s[0] == '"' then "\"\"" else [s[0]]) + Doubled(s[1..])
  }

  function Quote(s: string): (r: string) {
    "\"" + Doubled(s) + "\""
  }

  /** Halves each doubled quote: the reading a CSV parser gives to the inside of a quoted field. */
  function Undoubled(s: string): (r: string) {
    if s == [] then []
    else if |s| >= 2 && s[0] == '"' && s[1] == '"' then "\"" + Undoubled(s[2..])
    else [s[0]] + Undoubled(s[1..])
  }

  /** Strips the outer quotes of a quoted field and halves the doubled quotes inside; leaves any other field alone. */
  function Unquote(t: string): (r: string) {
    if |t| >= 2 && t[0] == '"' && t[|t| - 1] == '"' then Undoubled(t[1..|t| - 1]) else t
  }

  /** The text of one cell: `row[h] ?? ""`, quoted only when it is a string with a comma. */
  function CellText(c: Cell): (r: string) {
    match c
    case Missing => ""
    case Str(s) => if ',' in s then Quote(s) else s
    case Other(t) => t
  }

  function Cells(row: Row, headers: seq<string>): (cs: seq<string>)
    ensures |cs| == |headers|
  {
    seq(|headers|, i requires 0 <= i < |headers| => CellText(CellAt(row, headers[i])))
  }

  function Line(row: Row, headers: seq<string>): (r: string) {
    Join(Cells(row, headers), ",")
  }

  function Lines(rows: seq<Row>, headers: seq<string>): (ls: seq<string>)
    ensures |ls| == |rows|
  {
    seq(|rows|, i requires 0 <= i < |rows| => Line(rows[i], headers))
  }

  /** The whole CSV text. */
  function Csv(rows: seq<Row>, headers: seq<string>): (r: string) {
    Join(headers, ",") + "\n" + Join(Lines(rows, headers), "\n")
  }

  // ---------------------------------------------------------------------------
  // Properties

  /** Halving the doubled quotes undoes doubling them. */
  lemma {:induction false} UndoubleDoubled(s: string)
    ensures Undoubled(Doubled(s)) == s
  {
    if s != [] {
      UndoubleDoubled(s[1..]);
      var rest := Doubled(s[1..]);
      if s[0] == '"' {
        assert Doubled(s) == "\"\"" + rest;
        assert Doubled(s)[2..] == rest;
      } else {
        assert Doubled(s) == [s[0]] + rest;
        assert Doubled(s)[1..] == rest;
      }
    }
  }

  /** Quoting is reversible: stripping the quotes and halving the doubled ones gives back the string. */
  lemma QuoteRoundTrip(s: string)
    ensures Unquote(Quote(s)) == s
  {
    var q := Quote(s);
    assert q[1..|q| - 1] == Doubled(s);
    UndoubleDoubled(s);
  }

  /**
   * Absent cells are empty; a string with a comma is quoted and reads back;
   * a string without one, and any other value, is written unchanged.
   */
  lemma CellRules(c: Cell)
    ensures c.Missing? ==> CellText(c) == ""
    ensures c.Str? && ',' in c.s ==> |CellText(c)| >= 2 && CellText(c)[0] == '"' && Unquote(CellText(c)) == c.s
    ensures c.Str? && ',' !in c.s ==> CellText(c) == c.s
    ensures c.Other? ==> CellText(c) == c.rendered
  {
    if c.Str? && ',' in c.s {
      QuoteRoundTrip(c.s);
    }
  }

  /**
   * A string cell reads back through Unquote unless it has no comma yet starts
   * and ends with a quote: such a cell is written bare and then reads as quoted.
   */
  lemma CellReadsBack(s: string)
    ensures ',' in s || !(|s| >= 2 && s[0] == '"' && s[|s| - 1] == '"') <==> Unquote(CellText(Str(s))) == s
  {
    if ',' in s {
      QuoteRoundTrip(s);
    } else if |s| >= 2 && s[0] == '"' && s[|s| - 1] == '"' {
      assert |Undoubled(s[1..|s| - 1])| < |s| by {
        UndoubledShorter(s[1..|s| - 1]);
      }
    }
  }

  lemma {:induction false} UndoubledShorter(s: string)
    ensures |Undoubled(s)| <= |s|
  {
    if s != [] {
      if |s| >= 2 && s[0] == '"' && s[1] == '"' {
        UndoubledShorter(s[2..]);
      } else {
        UndoubledShorter(s[1..]);
      }
    }
  }

  /** A character other than a quote occurs in the doubled string only where it occurs in the original. */
  lemma {:induction false} DoubledFree(s: string, ch: char)
    requires ch != '"' && ch !in s
    ensures ch !in Doubled(s)
  {
    if s != [] {
      DoubledFree(s[1..], ch);
    }
  }

  /** A cell value does not contain `ch`. */
  predicate CellFree(c: Cell, ch: char) {
    match c
    case Missing => true
    case Str(s) => ch !in s
    case Other(t) => ch !in t
  }

  lemma CellTextFree(c: Cell, ch: char)
    requires ch != '"' && CellFree(c, ch)
    ensures ch !in CellText(c)
  {
    if c.Str? && ',' in c.s {
      DoubledFree(c.s, ch);
    }
  }

  /** Joining pieces that lack `ch` with a separator that lacks it gives a string that lacks it. */
  lemma {:induction false} JoinFree(parts: seq<string>, sep: string, ch: char)
    requires ch !in sep
    requires forall k :: 0 <= k < |parts| ==> ch !in parts[k]
    ensures ch !in Join(parts, sep)
  {
    if |parts| > 1 {
      JoinFree(parts[1..], sep, ch);
    }
  }

  /** No cell of the table, for the given columns, contains `ch`. */
  predicate TableFree(rows: seq<Row>, headers: seq<string>, ch: char) {
    forall i, j :: 0 <= i < |rows| && 0 <= j < |headers| ==> CellFree(CellAt(rows[i], headers[j]), ch)
  }

  lemma LineFree(row: Row, headers: seq<string>, ch: char)
    requires ch != '"' && ch != ','
    requires forall j :: 0 <= j < |headers| ==> CellFree(CellAt(row, headers[j]), ch)
    ensures ch !in Line(row, headers)
  {
    var cs := Cells(row, headers);
    forall k | 0 <= k < |cs|
      ensures ch !in cs[k]
    {
      CellTextFree(CellAt(row, headers[k]), ch);
    }
    JoinFree(cs, ",", ch);
  }

  /**
   * Without commas in its cells, a line splits at its commas into exactly the
   * cells, in header order.
   */
  lemma LineCells(row: Row, headers: seq<string>)
    requires |headers| >= 1
    requires forall j :: 0 <= j < |headers| ==> CellFree(CellAt(row, headers[j]), ',')
    ensures Split(Line(row, headers), ',') == Cells(row, headers)
    ensures forall j :: 0 <= j < |headers| ==> Cells(row, headers)[j] == CellText(CellAt(row, headers[j]))
  {
    var cs := Cells(row, headers);
    forall k | 0 <= k < |cs|
      ensures ',' !in cs[k]
    {
      CellTextFree(CellAt(row, headers[k]), ',');
    }
    SplitJoin(cs, ',');
  }

  /** The first line is the header names joined by commas. */
  lemma HeaderLine(rows: seq<Row>, headers: seq<string>)
    requires forall k :: 0 <= k < |headers| ==> '\n' !in headers[k]
    ensures Split(Csv(rows, headers), '\n')[0] == Join(headers, ",")
  {
    JoinFree(headers, ",", '\n');
    SplitPrefix(Join(headers, ","), Join(Lines(rows, headers), "\n"), '\n');
  }

  /**
   * When no header and no cell holds a newline, the text splits into the
   * header line followed by exactly one line per row, in order.
   */
  lemma OneLinePerRow(rows: seq<Row>, headers: seq<string>)
    requires |rows| >= 1
    requires forall k :: 0 <= k < |headers| ==> '\n' !in headers[k]
    requires TableFree(rows, headers, '\n')
    ensures Split(Csv(rows, headers), '\n') == [Join(headers, ",")] + Lines(rows, headers)
  {
    var ls := Lines(rows, headers);
    forall i | 0 <= i < |ls|
      ensures '\n' !in ls[i]
    {
      LineFree(rows[i], headers, '\n');
    }
    JoinFree(headers, ",", '\n');
    SplitPrefix(Join(headers, ","), Join(ls, "\n"), '\n');
    SplitJoin(ls, '\n');
  }

  /** With no rows the text is the header line and one newline. */
  lemma NoRows(headers: seq<string>)
    ensures Csv([], headers) == Join(headers, ",") + "\n"
  {
    assert Lines([], headers) == [];
  }

  /** A string cell holding a newline but no comma is written bare, so its row spans two lines. */
  lemma NewlineSplitsRow()
    ensures var rows := [map["note" := Str("a\nb")]];
      |Split(Csv(rows, ["note"]), '\n')| == |rows| + 2
  {
    var rows := [map["note" := Str("a\nb")]];
    assert CellAt(rows[0], "note") == Str("a\nb");
    assert Cells(rows[0], ["note"]) == ["a\nb"];
    assert Lines(rows, ["note"]) == ["a\nb"];
    var text := Csv(rows, ["note"]);
    assert text == "note" + ['\n'] + ("a" + ['\n'] + "b");
    assert '\n' !in "note" && '\n' !in "a" && '\n' !in "b";
    SplitPrefix("note", "a" + ['\n'] + "b", '\n');
    SplitPrefix("a", "b", '\n');
    SplitFree("b", '\n');
    assert Split(text, '\n') == ["note", "a", "b"];
  }
}
