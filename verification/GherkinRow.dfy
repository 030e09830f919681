// Table rows of a feature file: scanning a line into cells, with the escapes for the
// pipe, the backslash and the newline, and writing cells back.
module GherkinRow {
  import opened Text

  /** What a character stands for after a backslash, if it is one of the three escapes. */
  function Escaped(c: char): Option<char> {
    if c == '|' || c == '\\' then Some(c)
    else if c == 'n' then Some('\n')
    else None
  }

  /** The cells in the rest of a row, given the text of the cell being read. */
  function Scan(s: string, cell: string): seq<string> {
    if s == "" then []
    else if s[0] == '\\' && |s| > 1 && Escaped(s[1]).Some? then Scan(s[2..], cell + [Escaped(s[1]).value])
    else if s[0] == '|' then [Trim(cell)] + Scan(s[1..], "")
    else Scan(s[1..], cell + [s[0]])
  }

  /** The cells of one line of a table. */
  function TableRow(line: string): seq<string> {
    var trimmed := Trim(line);
    if trimmed != "" && trimmed[0] == '|' then Scan(trimmed[1..], "") else Scan(trimmed, "")
  }

  /** One character, or one escape, of the scan at position i. */
  lemma ScanAt(s: string, i: nat, cell: string)
    requires i < |s|
    ensures var escape := s[i] == '\\' && i + 1 < |s| && Escaped(s[i + 1]).Some?;
            Scan(s[i..], cell) ==
            if escape then Scan(s[i + 2..], cell + [Escaped(s[i + 1]).value])
            else if s[i] == '|' then [Trim(cell)] + Scan(s[i + 1..], "")
            else Scan(s[i + 1..], cell + [s[i]])
  {
    var rest := s[i..];
    assert rest[1..] == s[i + 1..];
    if i + 1 < |s| { assert rest[2..] == s[i + 2..]; }
  }

  /** The first bar is optional: a line that does not start with one is read as if it did. */
  lemma FirstBarOptional(line: string)
    requires Trim(line) != "" && Trim(line)[0] != '|'
    ensures TableRow("|" + Trim(line)) == TableRow(line)
  {
    var barred := "|" + Trim(line);
    TrimTrimmed(line);
    TrimPadded("", barred, "");
    assert "" + barred + "" == barred && barred[1..] == Trim(line);
  }

  method ParseTableRow(line: string) returns (cells: seq<string>)
    ensures cells == TableRow(line)
  {
    var trimmed := Trim(line);
    var cell, i := "", 0;
    cells := [];
    if trimmed != "" && trimmed[i] == '|' { i := i + 1; }
    ghost var all := TableRow(line);
    while i < |trimmed|
      invariant i <= |trimmed|
      invariant cells + Scan(trimmed[i..], cell) == all
    {
      var ch := trimmed[i];
      ScanAt(trimmed, i, cell);
      if ch == '\\' {
        if i + 1 < |trimmed| && Escaped(trimmed[i + 1]).Some? {
          cell := cell + [Escaped(trimmed[i + 1]).value];
          i := i + 1;
        } else {
          cell := cell + [ch];
        }
      } else if ch == '|' {
        MoveOver(cells, Trim(cell), Scan(trimmed[i + 1..], ""));
        cells := cells + [Trim(cell)];
        cell := "";
      } else {
        cell := cell + [ch];
      }
      i := i + 1;
    }
  }

  // ---------------------------------------------------------------- writing

  function EscapeChar(c: char): string {
    if c == '|' then "\\|" else if c == '\\' then "\\\\" else if c == '\n' then "\\n" else [c]
  }

  function Escape(cell: string): string {
    if cell == "" then "" else EscapeChar(cell[0]) + Escape(cell[1..])
  }

  /** The cells of a row after its leading pipe, each between paddings and closed by a pipe. */
  function WriteCells(cells: seq<string>, pad: string): string {
    if cells == [] then "" else pad + Escape(cells[0]) + pad + "|" + WriteCells(cells[1..], pad)
  }

  function WriteRow(cells: seq<string>, pad: string): string {
    "|" + WriteCells(cells, pad)
  }

  predicate AllTrimmed(cells: seq<string>) {
    forall i :: 0 <= i < |cells| ==> Trimmed(cells[i])
  }

  // ---------------------------------------------------------------- round trip

  lemma ScanEscape(c: char, rest: string, acc: string)
    ensures Scan(EscapeChar(c) + rest, acc) == Scan(rest, acc + [c])
  {
    var s := EscapeChar(c) + rest;
    if c == '|' || c == '\\' || c == '\n' {
      assert s[2..] == rest;
    } else {
      assert s[1..] == rest;
    }
  }

  lemma {:induction false} ScanEscaped(cell: string, rest: string, acc: string)
    ensures Scan(Escape(cell) + rest, acc) == Scan(rest, acc + cell)
  {
    if cell == "" {
      assert Escape(cell) + rest == rest && acc + cell == acc;
    } else {
      Regroup3(EscapeChar(cell[0]), Escape(cell[1..]), rest);
      ScanEscape(cell[0], Escape(cell[1..]) + rest, acc);
      ScanEscaped(cell[1..], rest, acc + [cell[0]]);
      assert acc + [cell[0]] + cell[1..] == acc + cell;
    }
  }

  /** Text between pipes in which every backslash stands before an ordinary character. */
  predicate Verbatim(raw: string) {
    && '|' !in raw
    && forall i :: 0 <= i < |raw| && raw[i] == '\\' ==> i + 1 < |raw| && Escaped(raw[i + 1]).None?
  }

  /** A lone backslash is kept: unescaped text is read as it stands. */
  lemma {:induction false} ScanVerbatim(raw: string, rest: string, acc: string)
    requires Verbatim(raw)
    ensures Scan(raw + rest, acc) == Scan(rest, acc + raw)
  {
    if raw == "" {
      assert raw + rest == rest && acc + raw == acc;
    } else {
      var s := raw + rest;
      assert s[1..] == raw[1..] + rest;
      assert raw[0] in raw;
      assert raw[0] == '\\' ==> s[1] == raw[1];
      ScanVerbatim(raw[1..], rest, acc + [raw[0]]);
      assert acc + [raw[0]] + raw[1..] == acc + raw;
    }
  }

  lemma BlankVerbatim(pad: string)
    requires Blank(pad)
    ensures Verbatim(pad)
  {
  }

  lemma ScanPipe(rest: string, cell: string)
    ensures Scan("|" + rest, cell) == [Trim(cell)] + Scan(rest, "")
  {
    assert ("|" + rest)[1..] == rest;
  }

  /** The closing padding and pipe end the cell, and the padding is trimmed away. */
  lemma ScanClose(cell: string, pad: string, rest: string)
    requires Trimmed(cell) && Blank(pad)
    ensures Scan(pad + ("|" + rest), pad + cell) == [cell] + Scan(rest, "")
  {
    BlankVerbatim(pad);
    ScanVerbatim(pad, "|" + rest, pad + cell);
    ScanPipe(rest, pad + cell + pad);
    TrimPadded(pad, cell, pad);
  }

  lemma ScanOpen(pad: string, rest: string)
    requires Blank(pad)
    ensures Scan(pad + rest, "") == Scan(rest, pad)
  {
    BlankVerbatim(pad);
    ScanVerbatim(pad, rest, "");
    assert "" + pad == pad;
  }

  lemma ScanCell(cell: string, pad: string, rest: string)
    requires Trimmed(cell) && Blank(pad)
    ensures Scan(pad + Escape(cell) + pad + "|" + rest, "") == [cell] + Scan(rest, "")
  {
    Nest5(pad, Escape(cell), pad, "|", rest);
    var close := pad + ("|" + rest);
    ScanOpen(pad, Escape(cell) + close);
    ScanEscaped(cell, close, pad);
    ScanClose(cell, pad, rest);
  }

  lemma {:induction false} ScanWritten(cells: seq<string>, pad: string)
    requires AllTrimmed(cells) && Blank(pad)
    ensures Scan(WriteCells(cells, pad), "") == cells
  {
    if cells != [] {
      ScanCell(cells[0], pad, WriteCells(cells[1..], pad));
      ScanWritten(cells[1..], pad);
      assert [cells[0]] + cells[1..] == cells;
    }
  }

  lemma {:induction false} WrittenEnds(cells: seq<string>, pad: string)
    requires cells != []
    ensures WriteCells(cells, pad) != "" && WriteCells(cells, pad)[|WriteCells(cells, pad)| - 1] == '|'
  {
    if |cells| > 1 { WrittenEnds(cells[1..], pad); }
  }

  lemma RowTrimmed(cells: seq<string>, pad: string)
    ensures Trimmed(WriteRow(cells, pad)) && WriteRow(cells, pad)[0] == '|'
  {
    if cells != [] { WrittenEnds(cells, pad); }
  }

  /** Writing trimmed cells between pipes and scanning the line, however it is indented, gives the cells back. */
  lemma RowRoundTrip(cells: seq<string>, pad: string, left: string, right: string)
    requires AllTrimmed(cells) && Blank(pad) && Blank(left) && Blank(right)
    ensures TableRow(left + WriteRow(cells, pad) + right) == cells
  {
    RowTrimmed(cells, pad);
    TrimPadded(left, WriteRow(cells, pad), right);
    assert WriteRow(cells, pad)[1..] == WriteCells(cells, pad);
    ScanWritten(cells, pad);
  }

  /** A cell with lone backslashes needs no escapes: it is read as it stands. */
  lemma VerbatimCell(cell: string, pad: string, rest: string)
    requires Verbatim(cell) && Trimmed(cell) && Blank(pad)
    ensures Scan(pad + cell + pad + "|" + rest, "") == [cell] + Scan(rest, "")
  {
    Nest5(pad, cell, pad, "|", rest);
    var close := pad + ("|" + rest);
    ScanOpen(pad, cell + close);
    ScanVerbatim(cell, close, pad);
    ScanClose(cell, pad, rest);
  }

  // ---------------------------------------------------------------- normal form

  lemma {:induction false} ScanTrims(s: string, cell: string)
    ensures AllTrimmed(Scan(s, cell))
    decreases |s|
  {
    if s == "" {
    } else if s[0] == '\\' && |s| > 1 && Escaped(s[1]).Some? {
      ScanTrims(s[2..], cell + [Escaped(s[1]).value]);
    } else if s[0] == '|' {
      TrimTrimmed(cell);
      ScanTrims(s[1..], "");
    } else {
      ScanTrims(s[1..], cell + [s[0]]);
    }
  }

  /** Whatever a line holds, the cells read from it are trimmed, so writing and reading them again changes nothing. */
  lemma RowNormalForm(line: string, pad: string)
    requires Blank(pad)
    ensures AllTrimmed(TableRow(line)) && TableRow(WriteRow(TableRow(line), pad)) == TableRow(line)
  {
    var trimmed := Trim(line);
    ScanTrims(if trimmed != "" && trimmed[0] == '|' then trimmed[1..] else trimmed, "");
    var row := WriteRow(TableRow(line), pad);
    RowRoundTrip(TableRow(line), pad, "", "");
    assert "" + row + "" == row;
  }
}
