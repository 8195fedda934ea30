/**
 The table row splitter (internal/markdown/markdown.go, splitRow) and a printer it undoes.
 */
module TableRow {
  import opened Text

  /** The cells of `t` when `cur` has been gathered for the one being read. */
  function Cells(t: string, cur: string): (cells: seq<string>)
    ensures |cells| > 0
    decreases |t|
  {
    if t == "" then [TrimSpace(cur)]
    else if t[0] == '\\' && |t| > 1 && t[1] == '|' then Cells(t[2..], cur + "|")
    else if t[0] == '|' then [TrimSpace(cur)] + Cells(t[1..], "")
    else Cells(t[1..], cur + [t[0]])
  }

  /** An empty cell outside an outer pipe is punctuation. */
  function Unframed(cells: seq<string>, t: string): (r: seq<string>)
    requires |cells| > 0
    ensures |r| > 0
  {
    var tail := if |cells| > 1 && cells[0] == "" && t != "" && t[0] == '|' then cells[1..] else cells;
    if |tail| > 1 && tail[|tail| - 1] == "" && t != "" && t[|t| - 1] == '|' then tail[..|tail| - 1] else tail
  }

  function RowCells(line: string): (cells: seq<string>)
    ensures |cells| > 0
  {
    Unframed(Cells(TrimSpace(line), ""), TrimSpace(line))
  }

  method SplitRow(line: string) returns (cells: seq<string>)
    ensures cells == RowCells(line)
  {
    hide TrimSpace;
    var t := TrimSpace(line);
    cells := [];
    var cur, j := "", 0;
    while j < |t|
      invariant j <= |t|
      invariant Cells(t, "") == cells + Cells(t[j..], cur)
    {
      assert t[j..][1..] == t[j + 1..] && cur + [t[j]] == cur + [t[j..][0]];
      if t[j] == '\\' && j + 1 < |t| && t[j + 1] == '|' {
        assert t[j..][2..] == t[j + 2..] && cur + ['|'] == cur + "|";
        cur := cur + ['|'];
        j := j + 2;
        continue;
      }
      if t[j] == '|' {
        ghost var rest := Cells(t[j + 1..], "");
        assert cells + ([TrimSpace(cur)] + rest) == (cells + [TrimSpace(cur)]) + rest;
        cells := cells + [TrimSpace(cur)];
        cur := "";
      } else {
        cur := cur + [t[j]];
      }
      j := j + 1;
    }
    assert t[j..] == "";
    cells := cells + [TrimSpace(cur)];
    if |cells| > 1 && cells[0] == "" && t != "" && t[0] == '|' {
      cells := cells[1..];
    }
    if |cells| > 1 && cells[|cells| - 1] == "" && t != "" && t[|t| - 1] == '|' {
      cells := cells[..|cells| - 1];
    }
  }

  // ---- a printer

  function Escape(cell: string): string {
    if cell == "" then "" else (if cell[0] == '|' then "\\|" else [cell[0]]) + Escape(cell[1..])
  }

  /** Each cell between blanks, with a pipe after it. */
  function PrintCells(cells: seq<string>): string {
    if cells == [] then "" else " " + Escape(cells[0]) + " |" + PrintCells(cells[1..])
  }

  function PrintRow(cells: seq<string>): string { "|" + PrintCells(cells) }

  function Trimmed(cells: seq<string>): seq<string> {
    seq(|cells|, i requires 0 <= i < |cells| => TrimSpace(cells[i]))
  }

  // ---- reading undoes printing

  lemma {:induction false} CellsOfEscaped(cell: string, rest: string, cur: string)
    requires rest != "" && rest[0] != '|'
    ensures Cells(Escape(cell) + rest, cur) == Cells(rest, cur + cell)
    decreases |cell|
  {
    hide TrimSpace;
    var t := Escape(cell) + rest;
    if cell == "" {
      assert t == rest && cur + cell == cur;
    } else {
      var more := Escape(cell[1..]) + rest;
      assert cur + cell == cur + [cell[0]] + cell[1..];
      if cell[0] == '|' {
        assert t == "\\|" + more && t[2..] == more && cur + "|" == cur + [cell[0]];
      } else {
        assert t == [cell[0]] + more && t[1..] == more;
        NotAPipe(cell[1..], rest);
      }
      CellsOfEscaped(cell[1..], rest, cur + [cell[0]]);
    }
  }

  /** What follows a backslash of a printed cell is never a bare pipe. */
  lemma NotAPipe(cell: string, rest: string)
    requires rest != "" && rest[0] != '|'
    ensures Escape(cell) + rest != "" && (Escape(cell) + rest)[0] != '|'
  {
    if cell != "" {
      assert Escape(cell) != "" && Escape(cell)[0] != '|';
    }
  }

  lemma {:induction false} CellsOfPrinted(cells: seq<string>)
    ensures Cells(PrintCells(cells), "") == Trimmed(cells) + [""]
    decreases |cells|
  {
    hide TrimSpace, Cells;
    if cells == [] {
      NoText();
      assert Trimmed(cells) + [""] == [""];
    } else {
      FirstCell(cells[0], PrintCells(cells[1..]));
      CellsOfPrinted(cells[1..]);
      assert Trimmed(cells) + [""] == [TrimSpace(cells[0])] + (Trimmed(cells[1..]) + [""]);
    }
  }

  lemma NoText()
    ensures Cells("", "") == [""]
  {
    TightIffTrimmed("");
  }

  lemma FirstCell(cell: string, more: string)
    ensures Cells(" " + Escape(cell) + " |" + more, "") == [TrimSpace(cell)] + Cells(more, "")
  {
    hide TrimSpace, Escape;
    var rest := " |" + more;
    var t := " " + Escape(cell) + " |" + more;
    assert t == " " + (Escape(cell) + rest) && t[1..] == Escape(cell) + rest;
    assert "" + [t[0]] == " ";
    CellsOfEscaped(cell, rest, " ");
    assert rest[1..] == "|" + more && ("|" + more)[1..] == more;
    assert Cells(rest, " " + cell) == Cells("|" + more, " " + cell + " ");
    TrimAround(cell);
  }

  /** Splitting a printed row gives the cells back, trimmed, whatever is in them: pipes, backslashes
      at the end, nothing at all. */
  lemma SplitUndoesPrint(cells: seq<string>)
    requires cells != []
    ensures RowCells(PrintRow(cells)) == Trimmed(cells)
  {
    hide TrimSpace, PrintCells, Cells;
    var t := PrintRow(cells);
    EndsInPipe(cells);
    assert Tight(t);
    TightIffTrimmed(t);
    CellsOfPrinted(cells);
    FirstPipe(PrintCells(cells));
    var all := Cells(t, "");
    assert all[1..] == Trimmed(cells) + [""];
    assert all[1..][..|cells|] == Trimmed(cells);
  }

  /** So it is an exact inverse just for cells without blanks at their ends. */
  lemma RoundTripIffTrimmed(cells: seq<string>)
    requires cells != []
    ensures RowCells(PrintRow(cells)) == cells <==> forall i :: 0 <= i < |cells| ==> Tight(cells[i])
  {
    hide TrimSpace, PrintRow, RowCells, Tight;
    SplitUndoesPrint(cells);
    forall i | 0 <= i < |cells| ensures Tight(cells[i]) <==> Trimmed(cells)[i] == cells[i] {
      TightIffTrimmed(cells[i]);
    }
    if forall i :: 0 <= i < |cells| ==> Tight(cells[i]) {
      assert Trimmed(cells) == cells;
    }
  }

  /** The cells with a pipe between each two and none around them. */
  function PrintBare(cells: seq<string>): string
    requires cells != []
  {
    Escape(cells[0]) + if |cells| == 1 then "" else " | " + PrintBare(cells[1..])
  }

  /** A row needs no outer pipes: it is read the same without them, unless an outer cell is empty. */
  lemma BareRowIsRead(cells: seq<string>)
    requires cells != []
    requires cells[0] != "" && cells[|cells| - 1] != ""
    requires forall i :: 0 <= i < |cells| ==> Tight(cells[i])
    ensures RowCells(PrintBare(cells)) == cells
  {
    hide TrimSpace, PrintBare, Cells, Tight, IsSpace;
    BareIsTight(cells);
    TightIffTrimmed(PrintBare(cells));
    CellsOfTight(cells);
  }

  lemma CellsOfTight(cells: seq<string>)
    requires cells != [] && forall i :: 0 <= i < |cells| ==> Tight(cells[i])
    ensures Cells(PrintBare(cells), "") == cells
  {
    hide TrimSpace, PrintBare, Cells, Tight;
    CellsOfBare(cells, "");
    forall i | 0 <= i < |cells| ensures TrimSpace(cells[i]) == cells[i] {
      TightIffTrimmed(cells[i]);
    }
    assert "" + cells[0] == cells[0];
    assert [cells[0]] + Trimmed(cells[1..]) == cells;
  }

  lemma BareIsTight(cells: seq<string>)
    requires cells != [] && cells[0] != "" && cells[|cells| - 1] != ""
    requires Tight(cells[0]) && Tight(cells[|cells| - 1])
    ensures Tight(PrintBare(cells))
  {
    hide PrintBare, Escape;
    EscapeEnds(cells[0]);
    BareEnds(cells);
  }

  lemma {:induction false} EscapeEnds(cell: string)
    requires cell != ""
    ensures Escape(cell) != "" && Escape(cell)[|Escape(cell)| - 1] == cell[|cell| - 1]
    ensures Escape(cell)[0] == if cell[0] == '|' then '\\' else cell[0]
    decreases |cell|
  {
    if |cell| > 1 {
      EscapeEnds(cell[1..]);
    } else {
      assert Escape(cell[1..]) == "";
    }
  }

  lemma {:induction false} BareEnds(cells: seq<string>)
    requires cells != [] && cells[|cells| - 1] != ""
    ensures PrintBare(cells) != ""
    ensures cells[0] != "" ==> PrintBare(cells)[0] == Escape(cells[0])[0]
    ensures PrintBare(cells)[|PrintBare(cells)| - 1] == cells[|cells| - 1][|cells[|cells| - 1]| - 1]
    decreases |cells|
  {
    hide Escape;
    if |cells| == 1 {
      EscapeEnds(cells[0]);
    } else {
      BareEnds(cells[1..]);
      if cells[0] != "" {
        EscapeEnds(cells[0]);
      }
    }
  }

  lemma {:induction false} CellsOfBare(cells: seq<string>, cur: string)
    requires cells != []
    ensures Cells(PrintBare(cells), cur) == [TrimSpace(cur + cells[0])] + Trimmed(cells[1..])
    decreases |cells|
  {
    hide TrimSpace;
    var cell := cells[0];
    if |cells| == 1 {
      CellsOfLast(cell, cur);
      assert PrintBare(cells) == Escape(cell);
    } else {
      var more := PrintBare(cells[1..]);
      CellsOfEscaped(cell, " | " + more, cur);
      assert PrintBare(cells) == Escape(cell) + (" | " + more);
      PipeBetween(more, cur + cell);
      CellsOfBare(cells[1..], " ");
      TrimEnds(cells[1]);
      assert Trimmed(cells[1..]) == [TrimSpace(cells[1])] + Trimmed(cells[1..][1..]);
    }
  }

  lemma PipeBetween(more: string, cur: string)
    ensures Cells(" | " + more, cur) == [TrimSpace(cur)] + Cells(more, " ")
  {
    hide TrimSpace;
    var t := " | " + more;
    assert t[1..] == "| " + more && ("| " + more)[1..] == " " + more && (" " + more)[1..] == more;
    assert Cells(t, cur) == Cells("| " + more, cur + " ");
    assert Cells("| " + more, cur + " ") == [TrimSpace(cur + " ")] + Cells(" " + more, "");
    assert "" + [(" " + more)[0]] == " ";
    TrimEnds(cur);
  }

  lemma {:induction false} CellsOfLast(cell: string, cur: string)
    ensures Cells(Escape(cell), cur) == [TrimSpace(cur + cell)]
    decreases |cell|
  {
    hide TrimSpace;
    var t := Escape(cell);
    if cell == "" {
      assert cur + cell == cur;
    } else {
      var more := Escape(cell[1..]);
      assert cur + cell == cur + [cell[0]] + cell[1..];
      if cell[0] == '|' {
        assert t == "\\|" + more && t[2..] == more && cur + "|" == cur + [cell[0]];
      } else {
        assert t == [cell[0]] + more && t[1..] == more;
        assert more == "" || more[0] != '|';
      }
      CellsOfLast(cell[1..], cur + [cell[0]]);
    }
  }

  lemma FirstPipe(rest: string)
    ensures Cells("|" + rest, "") == [""] + Cells(rest, "")
  {
    hide TrimSpace;
    assert ("|" + rest)[1..] == rest;
    TightIffTrimmed("");
  }

  lemma {:induction false} EndsInPipe(cells: seq<string>)
    requires cells != []
    ensures PrintCells(cells) != "" && PrintCells(cells)[|PrintCells(cells)| - 1] == '|'
    decreases |cells|
  {
    if |cells| > 1 {
      EndsInPipe(cells[1..]);
    }
  }
}
