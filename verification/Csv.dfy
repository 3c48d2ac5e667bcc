/** Quoted CSV rows, as `gpu.rs` reads them. */
module Csv {
  import opened Text

  const QUOTE: char := '"'
  const COMMA: char := ','

  /** Reading from inside a row: what is left, the cell so far, and whether quotes are open. */
  function RowFrom(rest: string, cell: string, quoted: bool): (cells: seq<string>)
    ensures cells != []
    decreases |rest|
  {
    if rest == "" then [Trim(cell)]
    else if rest[0] == QUOTE && quoted && |rest| > 1 && rest[1] == QUOTE then
      RowFrom(rest[2..], cell + [QUOTE], quoted)
    else if rest[0] == QUOTE then RowFrom(rest[1..], cell, !quoted)
    else if rest[0] == COMMA && !quoted then [Trim(cell)] + RowFrom(rest[1..], "", quoted)
    else RowFrom(rest[1..], cell + [rest[0]], quoted)
  }

  function Row(line: string): seq<string> {
    RowFrom(line, "", false)
  }

  /** `parse_csv_row`. */
  method ParseCsvRow(line: string) returns (cells: seq<string>)
    ensures cells == Row(line)
    ensures |cells| == 1 + SplittingCommas(line, false)
  {
    cells := [];
    var cell, quoted, i := "", false, 0;
    while i < |line|
      invariant i <= |line|
      invariant cells + RowFrom(line[i..], cell, quoted) == Row(line)
    {
      var ch := line[i];
      assert line[i..][1..] == line[i + 1..];
      i := i + 1;
      if ch == QUOTE && quoted && i < |line| && line[i] == QUOTE {
        assert line[i - 1..][2..] == line[i + 1..];
        cell := cell + [QUOTE];
        i := i + 1;
      } else if ch == QUOTE {
        quoted := !quoted;
      } else if ch == COMMA && !quoted {
        cells := cells + [Trim(cell)];
        cell := "";
      } else {
        cell := cell + [ch];
      }
    }
    cells := cells + [Trim(cell)];
    CommasCountCells(line, "", false);
  }

  /** The commas with an even number of quotes before them (odd, when starting inside quotes). */
  function SplittingCommas(rest: string, quoted: bool): nat {
    if rest == "" then 0
    else if rest[0] == QUOTE then SplittingCommas(rest[1..], !quoted)
    else (if rest[0] == COMMA && !quoted then 1 else 0) + SplittingCommas(rest[1..], quoted)
  }

  /** Only commas outside quotes ever end a cell, on every line whatsoever. */
  lemma {:induction false} CommasCountCells(rest: string, cell: string, quoted: bool)
    ensures |RowFrom(rest, cell, quoted)| == 1 + SplittingCommas(rest, quoted)
    decreases |rest|
  {
    if rest != "" {
      if rest[0] == QUOTE && quoted && |rest| > 1 && rest[1] == QUOTE {
        CommasCountCells(rest[2..], cell + [QUOTE], quoted);
        assert rest[1..][1..] == rest[2..];
      } else if rest[0] == QUOTE {
        CommasCountCells(rest[1..], cell, !quoted);
      } else if rest[0] == COMMA && !quoted {
        CommasCountCells(rest[1..], "", quoted);
      } else {
        CommasCountCells(rest[1..], cell + [rest[0]], quoted);
      }
    }
  }

  /** Whether quotes are open after some text. */
  function Inside(text: string, quoted: bool): bool {
    if text == "" then quoted else Inside(text[1..], if text[0] == QUOTE then !quoted else quoted)
  }

  /** The cell that some text leaves unfinished. */
  function Unfinished(text: string, cell: string, quoted: bool): string
    decreases |text|
  {
    if text == "" then cell
    else if text[0] == QUOTE && quoted && |text| > 1 && text[1] == QUOTE then
      Unfinished(text[2..], cell + [QUOTE], quoted)
    else if text[0] == QUOTE then Unfinished(text[1..], cell, !quoted)
    else if text[0] == COMMA && !quoted then Unfinished(text[1..], "", quoted)
    else Unfinished(text[1..], cell + [text[0]], quoted)
  }

  /** The cells that some text completes. */
  function Finished(text: string, cell: string, quoted: bool): seq<string> {
    var cells := RowFrom(text, cell, quoted);
    cells[..|cells| - 1]
  }

  lemma {:induction false} LastCellIsUnfinished(text: string, cell: string, quoted: bool)
    ensures RowFrom(text, cell, quoted) == Finished(text, cell, quoted) + [Trim(Unfinished(text, cell, quoted))]
    decreases |text|
  {
    if text != "" {
      if text[0] == QUOTE && quoted && |text| > 1 && text[1] == QUOTE {
        LastCellIsUnfinished(text[2..], cell + [QUOTE], quoted);
      } else if text[0] == QUOTE {
        LastCellIsUnfinished(text[1..], cell, !quoted);
      } else if text[0] == COMMA && !quoted {
        LastCellIsUnfinished(text[1..], "", quoted);
        var rest := RowFrom(text[1..], "", quoted);
        assert RowFrom(text, cell, quoted) == [Trim(cell)] + rest;
      } else {
        LastCellIsUnfinished(text[1..], cell + [text[0]], quoted);
      }
    }
  }

  /** What is read up to and beyond a comma, by whether the comma stands inside quotes. */
  function AtComma(a: string, b: string, cell: string, quoted: bool): seq<string> {
    if Inside(a, quoted) then Finished(a, cell, quoted) + RowFrom(b, Unfinished(a, cell, quoted) + [COMMA], true)
    else RowFrom(a, cell, quoted) + RowFrom(b, "", false)
  }

  lemma CommaAfterCell(a: string, b: string, cell: string)
    requires a != "" && a[0] == COMMA
    ensures AtComma(a, b, cell, false) == [Trim(cell)] + AtComma(a[1..], b, "", false)
  {
    var rest := RowFrom(a[1..], "", false);
    assert RowFrom(a, cell, false) == [Trim(cell)] + rest;
    assert Finished(a, cell, false) == [Trim(cell)] + Finished(a[1..], "", false);
  }

  lemma EscapedQuoteBeforeComma(a: string, b: string, cell: string)
    requires |a| > 1 && a[0] == QUOTE && a[1] == QUOTE
    ensures AtComma(a, b, cell, true) == AtComma(a[2..], b, cell + [QUOTE], true)
  {
    var rest := a[1..];
    assert rest[0] == QUOTE && rest[1..] == a[2..];
    assert Inside(a, true) == Inside(rest, false) == Inside(a[2..], true);
    assert Finished(a, cell, true) == Finished(a[2..], cell + [QUOTE], true);
  }

  /**
   * On every line, at every comma: outside quotes the comma ends a cell there, the row being
   * what stands before it read on its own followed by what stands after it read on its own;
   * inside quotes the comma is one more character of the unfinished cell.
   */
  lemma {:induction false} CommaEndsCellOutsideQuotes(a: string, b: string, cell: string, quoted: bool)
    ensures RowFrom(a + [COMMA] + b, cell, quoted) == AtComma(a, b, cell, quoted)
    decreases |a|
  {
    var s := a + [COMMA] + b;
    if a == "" {
      assert s[1..] == b;
      assert [] + RowFrom(b, cell + [COMMA], true) == RowFrom(b, cell + [COMMA], true);
    } else if a[0] == QUOTE && quoted && |a| > 1 && a[1] == QUOTE {
      CommaEndsCellOutsideQuotes(a[2..], b, cell + [QUOTE], quoted);
      EscapedQuoteBeforeComma(a, b, cell);
      assert s[2..] == a[2..] + [COMMA] + b && s[1] == a[1];
    } else {
      assert s[1..] == a[1..] + [COMMA] + b;
      assert s[0] == a[0] && (|a| > 1 ==> s[1] == a[1]) && (|a| == 1 ==> s[1] == COMMA);
      if a[0] == QUOTE {
        CommaEndsCellOutsideQuotes(a[1..], b, cell, !quoted);
      } else if a[0] == COMMA && !quoted {
        CommaEndsCellOutsideQuotes(a[1..], b, "", false);
        CommaAfterCell(a, b, cell);
      } else {
        CommaEndsCellOutsideQuotes(a[1..], b, cell + [a[0]], quoted);
      }
    }
  }

  // ---------------------------------------------------------------------
  // Printing as in section 2 of RFC 4180
  // ---------------------------------------------------------------------

  function DoubleQuotes(cell: string): string {
    if cell == "" then ""
    else (if cell[0] == QUOTE then [QUOTE, QUOTE] else [cell[0]]) + DoubleQuotes(cell[1..])
  }

  function PrintCell(cell: string, quote: bool): string {
    if quote then [QUOTE] + DoubleQuotes(cell) + [QUOTE] else cell
  }

  /** A cell may go unquoted only when it holds neither a comma nor a quote. */
  predicate MayStandBare(cell: string) {
    COMMA !in cell && QUOTE !in cell
  }

  function PrintRow(cells: seq<string>, quotes: seq<bool>): string
    requires |cells| == |quotes| && cells != []
  {
    if |cells| == 1 then PrintCell(cells[0], quotes[0])
    else PrintCell(cells[0], quotes[0]) + [COMMA] + PrintRow(cells[1..], quotes[1..])
  }

  /** A quoted cell is read whole; the quote that ends it is the one a comma or the end follows. */
  lemma {:induction false} QuotedCellReadsBack(cell: string, before: string, after: string)
    requires after == "" || after[0] == COMMA
    ensures RowFrom(DoubleQuotes(cell) + [QUOTE] + after, before, true) == RowFrom(after, before + cell, false)
    decreases |cell|
  {
    var text := DoubleQuotes(cell) + [QUOTE] + after;
    if cell == "" {
      assert text == [QUOTE] + after;
      assert text[1..] == after;
      assert before + cell == before;
    } else {
      QuotedCellReadsBack(cell[1..], before + [cell[0]], after);
      var tail := DoubleQuotes(cell[1..]) + [QUOTE] + after;
      assert before + [cell[0]] + cell[1..] == before + cell;
      if cell[0] == QUOTE {
        assert text == [QUOTE, QUOTE] + tail;
        assert text[2..] == tail;
      } else {
        assert text == [cell[0]] + tail;
        assert text[1..] == tail;
      }
    }
  }

  lemma {:induction false} BareCellReadsBack(cell: string, before: string, after: string)
    requires MayStandBare(cell)
    ensures RowFrom(cell + after, before, false) == RowFrom(after, before + cell, false)
    decreases |cell|
  {
    var text := cell + after;
    if cell == "" {
      assert text == after && before + cell == before;
    } else {
      BareCellReadsBack(cell[1..], before + [cell[0]], after);
      assert before + [cell[0]] + cell[1..] == before + cell;
      assert text[1..] == cell[1..] + after;
      assert cell[0] in cell;
    }
  }

  lemma CellReadsBack(cell: string, quote: bool, after: string)
    requires quote || MayStandBare(cell)
    requires after == "" || after[0] == COMMA
    ensures RowFrom(PrintCell(cell, quote) + after, "", false) == RowFrom(after, cell, false)
  {
    assert "" + cell == cell;
    if quote {
      var text := PrintCell(cell, quote) + after;
      assert text[1..] == DoubleQuotes(cell) + [QUOTE] + after;
      QuotedCellReadsBack(cell, "", after);
    } else {
      BareCellReadsBack(cell, "", after);
    }
  }

  /**
   * Reading undoes printing, for every non-empty list of trimmed cells and every choice of
   * which cells to quote that the format allows.
   */
  lemma {:induction false} RowRoundTrips(cells: seq<string>, quotes: seq<bool>)
    requires |cells| == |quotes| && cells != []
    requires forall i :: 0 <= i < |cells| ==> IsTrimmed(cells[i]) && (quotes[i] || MayStandBare(cells[i]))
    ensures Row(PrintRow(cells, quotes)) == cells
  {
    var cell := PrintCell(cells[0], quotes[0]);
    TrimOfTrimmed(cells[0]);
    if |cells| == 1 {
      CellReadsBack(cells[0], quotes[0], "");
      assert cell + "" == cell;
    } else {
      RowRoundTrips(cells[1..], quotes[1..]);
      var rest := PrintRow(cells[1..], quotes[1..]);
      CellReadsBack(cells[0], quotes[0], [COMMA] + rest);
      assert cell + [COMMA] + rest == cell + ([COMMA] + rest);
      assert ([COMMA] + rest)[1..] == rest;
    }
  }
}
