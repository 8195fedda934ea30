/**
 Tables in the Markdown renderer (internal/markdown/markdown.go, tableAt, alignOf and writeTable).
 */
module MarkdownTable {
  import opened Text
  import opened Markup
  import opened TableRow
  import opened Options

  predicate HasPipe(line: string) { '|' in line }

  predicate Blank(line: string) { TrimSpace(line) == "" }

  predicate BodyRow(line: string) { !Blank(line) && HasPipe(line) }

  /** How many body rows follow, from lines[j] on. */
  function BodyRows(lines: seq<string>, j: nat): (n: nat)
    requires j <= |lines|
    ensures j + n <= |lines|
    decreases |lines| - j
  {
    if j < |lines| && BodyRow(lines[j]) then 1 + BodyRows(lines, j + 1) else 0
  }

  /** How many lines the table starting at lines[i] takes, or 0. `delim` recognises a row of dashes. */
  function TableLength(delim: string -> bool, lines: seq<string>, i: nat): (n: nat)
    requires i < |lines|
    ensures i + n <= |lines|
  {
    if i + 1 < |lines| && HasPipe(lines[i]) && HasPipe(lines[i + 1]) && delim(lines[i + 1])
       && |RowCells(lines[i])| == |RowCells(lines[i + 1])|
    then 2 + BodyRows(lines, i + 2)
    else 0
  }

  lemma {:induction false} BodyRowsAre(lines: seq<string>, j: nat)
    requires j <= |lines|
    ensures forall k :: j <= k < j + BodyRows(lines, j) ==> BodyRow(lines[k])
    ensures var end := j + BodyRows(lines, j); end == |lines| || !BodyRow(lines[end])
    decreases |lines| - j
  {
    hide BodyRow;
    if j < |lines| && BodyRow(lines[j]) {
      BodyRowsAre(lines, j + 1);
    }
  }

  /** A table has a header and a delimiter row of as many cells, and goes on up to the first line that
      is all blanks or has no pipe. */
  lemma TableIsUpTo(delim: string -> bool, lines: seq<string>, i: nat)
    requires i < |lines|
    ensures var n := TableLength(delim, lines, i);
            && (n > 0 <==> i + 1 < |lines| && '|' in lines[i] && '|' in lines[i + 1] && delim(lines[i + 1])
                           && |RowCells(lines[i])| == |RowCells(lines[i + 1])|)
            && (n > 0 ==> n >= 2 && (i + n == |lines| || '|' !in lines[i + n]
                                     || forall c :: c in lines[i + n] ==> IsSpace(c)))
            && (forall k :: i + 2 <= k < i + n ==> '|' in lines[k] && exists c :: c in lines[k] && !IsSpace(c))
  {
    hide RowCells, IsSpace, TrimSpace, BodyRows;
    var n := TableLength(delim, lines, i);
    if n > 0 {
      BodyRowsAre(lines, i + 2);
      if i + n < |lines| {
        TrimmedAwayIff(lines[i + n]);
      }
      forall k | i + 2 <= k < i + n ensures '|' in lines[k] && exists c :: c in lines[k] && !IsSpace(c) {
        assert BodyRow(lines[k]);
        TrimmedAwayIff(lines[k]);
      }
    }
  }

  method TableAt(delim: string -> bool, lines: seq<string>, i: nat) returns (n: nat)
    requires i < |lines|
    ensures n == TableLength(delim, lines, i)
  {
    hide RowCells, Blank;
    if i + 1 >= |lines| {
      return 0;
    }
    var header := lines[i];
    if !HasPipe(header) {
      return 0;
    }
    var dashes := lines[i + 1];
    if !HasPipe(dashes) || !delim(dashes) {
      return 0;
    }
    var heads := SplitRow(header);
    var rules := SplitRow(dashes);
    if |heads| != |rules| {
      return 0;
    }
    n := 2;
    while i + n < |lines|
      invariant i + n <= |lines|
      invariant 2 + BodyRows(lines, i + 2) == n + BodyRows(lines, i + n)
    {
      var row := lines[i + n];
      if Blank(row) || !HasPipe(row) {
        break;
      }
      n := n + 1;
    }
  }

  function AlignOf(cell: string): string {
    var c := TrimSpace(cell);
    var left := c != "" && c[0] == ':';
    var right := c != "" && c[|c| - 1] == ':';
    if left && right then "md-center" else if right then "md-right" else ""
  }

  function Dashes(n: nat): string { seq(n, i => '-') }

  function PrintAlign(left: bool, right: bool, n: nat): string {
    (if left then ":" else "") + Dashes(n) + (if right then ":" else "")
  }

  /** A column is centred for colons on both ends of its dashes, right-aligned for one on the right. */
  lemma AlignIsRead(left: bool, right: bool, n: nat)
    requires n > 0
    ensures AlignOf(PrintAlign(left, right, n)) == if right then (if left then "md-center" else "md-right") else ""
  {
    hide TrimSpace;
    var cell := PrintAlign(left, right, n);
    assert cell[0] == (if left then ':' else '-');
    assert cell[|cell| - 1] == (if right then ':' else '-');
    TrimTight(cell);
  }

  /** One alignment for each cell of the header, from the delimiter row. */
  function Aligns(block: seq<string>): seq<string>
    requires |block| >= 2
  {
    var rules := RowCells(block[1]);
    seq(|RowCells(block[0])|, j requires 0 <= j < |RowCells(block[0])| => if j < |rules| then AlignOf(rules[j]) else "")
  }

  function CellAt(cells: seq<string>, j: nat): string { if j < |cells| then cells[j] else "" }

  /** The first n cells of a row, each in the column's alignment; missing ones are empty. */
  function RowTokens(tag: Tag, aligns: seq<string>, cells: seq<string>, n: nat): seq<Token>
    requires n <= |aligns|
  {
    if n == 0 then []
    else RowTokens(tag, aligns, cells, n - 1) + Element(tag, aligns[n - 1], [Text([CellAt(cells, n - 1)])])
  }

  function BodyTokens(aligns: seq<string>, block: seq<string>, n: nat): seq<Token>
    requires 2 <= n <= |block|
  {
    if n == 2 then []
    else BodyTokens(aligns, block, n - 1) + Element(TR, "", RowTokens(TD, aligns, RowCells(block[n - 1]), |aligns|))
  }

  function TableTokens(block: seq<string>): seq<Token>
    requires |block| >= 2
  {
    var aligns := Aligns(block);
    Element(TABLE, "md-table",
            Element(THEAD, "", Element(TR, "", RowTokens(TH, aligns, RowCells(block[0]), |aligns|)))
            + Element(TBODY, "", BodyTokens(aligns, block, |block|)))
  }

  method ColumnAligns(block: seq<string>, width: nat) returns (aligns: seq<string>)
    requires |block| >= 2 && width == |RowCells(block[0])|
    ensures aligns == Aligns(block)
  {
    hide RowCells, AlignOf;
    aligns := seq(width, j => "");
    var rules := SplitRow(block[1]);
    for j := 0 to |rules|
      invariant |aligns| == width
      invariant forall k :: 0 <= k < width ==> aligns[k] == if k < j then AlignOf(rules[k]) else ""
    {
      if j < |aligns| {
        aligns := aligns[j := AlignOf(rules[j])];
      }
    }
  }

  /** Writes the table tag by tag. */
  method WriteTable(block: seq<string>) returns (out: seq<Token>)
    requires |block| >= 2
    ensures out == TableTokens(block)
  {
    hide RowCells, Aligns, RowTokens, BodyTokens;
    var header := SplitRow(block[0]);
    var aligns := ColumnAligns(block, |header|);
    AlignsAre(block);
    out := [Open(TABLE, "md-table"), Open(THEAD, ""), Open(TR, "")];
    var head := WriteCells(TH, aligns, header);
    out := out + head + [Close(TR), Close(THEAD), Open(TBODY, "")];
    ghost var start := out;
    BodyStarts(aligns, block);
    assert start + [] == start;
    for i := 2 to |block|
      invariant out == start + BodyTokens(aligns, block, i)
    {
      var cells := SplitRow(block[i]);
      var row := WriteCells(TD, aligns, cells);
      BodyGrows(aligns, block, i);
      ghost var done := BodyTokens(aligns, block, i);
      assert start + done + ([Open(TR, "")] + row + [Close(TR)]) == start + (done + Element(TR, "", row));
      out := out + ([Open(TR, "")] + row + [Close(TR)]);
    }
    out := out + [Close(TBODY), Close(TABLE)];
    TableIs(head, BodyTokens(aligns, block, |block|));
  }

  /** The cells of one row, as many as there are columns. */
  method WriteCells(tag: Tag, aligns: seq<string>, cells: seq<string>) returns (out: seq<Token>)
    ensures out == RowTokens(tag, aligns, cells, |aligns|)
  {
    out := [];
    for j := 0 to |aligns|
      invariant out == RowTokens(tag, aligns, cells, j)
    {
      var text := "";
      if j < |cells| {
        text := cells[j];
      }
      out := out + ([Open(tag, aligns[j])] + [Text([text])] + [Close(tag)]);
    }
  }

  lemma BodyStarts(aligns: seq<string>, block: seq<string>)
    requires |block| >= 2
    ensures BodyTokens(aligns, block, 2) == []
  {
  }

  lemma BodyGrows(aligns: seq<string>, block: seq<string>, i: nat)
    requires 2 <= i < |block|
    ensures BodyTokens(aligns, block, i + 1)
         == BodyTokens(aligns, block, i) + Element(TR, "", RowTokens(TD, aligns, RowCells(block[i]), |aligns|))
  {
    hide RowTokens, RowCells;
  }

  lemma TableIs(head: seq<Token>, body: seq<Token>)
    ensures [Open(TABLE, "md-table"), Open(THEAD, ""), Open(TR, "")] + head + [Close(TR), Close(THEAD), Open(TBODY, "")]
            + body + [Close(TBODY), Close(TABLE)]
         == Element(TABLE, "md-table", Element(THEAD, "", Element(TR, "", head)) + Element(TBODY, "", body))
  {
  }

  // ---- a table closes what it opens, and is as wide as its header

  lemma {:induction false} RowNeutral(tag: Tag, aligns: seq<string>, cells: seq<string>, n: nat)
    requires n <= |aligns|
    ensures Neutral(RowTokens(tag, aligns, cells, n))
    decreases n
  {
    hide Neutral, Element, CellAt;
    TextNeutral([]);
    if n > 0 {
      RowNeutral(tag, aligns, cells, n - 1);
      LeafSpoken([], tag, aligns[n - 1], [CellAt(cells, n - 1)]);
      ConcatNeutral(RowTokens(tag, aligns, cells, n - 1), Element(tag, aligns[n - 1], [Text([CellAt(cells, n - 1)])]));
    }
  }

  lemma {:induction false} BodyNeutral(aligns: seq<string>, block: seq<string>, n: nat)
    requires 2 <= n <= |block|
    ensures Neutral(BodyTokens(aligns, block, n))
    decreases n
  {
    hide Neutral, Element, RowTokens, RowCells;
    TextNeutral([]);
    if n > 2 {
      BodyNeutral(aligns, block, n - 1);
      var cells := RowTokens(TD, aligns, RowCells(block[n - 1]), |aligns|);
      RowNeutral(TD, aligns, RowCells(block[n - 1]), |aligns|);
      ElementNeutral(TR, "", cells);
      ConcatNeutral(BodyTokens(aligns, block, n - 1), Element(TR, "", cells));
    }
  }

  lemma TableNeutral(block: seq<string>)
    requires |block| >= 2
    ensures Neutral(TableTokens(block))
  {
    hide Neutral, Element, RowTokens, BodyTokens, RowCells, Aligns;
    var aligns := Aligns(block);
    var head := RowTokens(TH, aligns, RowCells(block[0]), |aligns|);
    RowNeutral(TH, aligns, RowCells(block[0]), |aligns|);
    ElementNeutral(TR, "", head);
    ElementNeutral(THEAD, "", Element(TR, "", head));
    BodyNeutral(aligns, block, |block|);
    ElementNeutral(TBODY, "", BodyTokens(aligns, block, |block|));
    ConcatNeutral(Element(THEAD, "", Element(TR, "", head)), Element(TBODY, "", BodyTokens(aligns, block, |block|)));
    ElementNeutral(TABLE, "md-table",
                   Element(THEAD, "", Element(TR, "", head)) + Element(TBODY, "", BodyTokens(aligns, block, |block|)));
  }

  /** What the first n cells of a row say: each is opened with the alignment that its cell of the
      delimiter row asks for, and says its text. */
  function RowSaid(cells: seq<string>, rules: seq<string>, n: nat, path: seq<Tag>): seq<Said> {
    if n == 0 then []
    else RowSaid(cells, rules, n - 1, path)
         + [Opened(AlignOf(CellAt(rules, n - 1)), path), Said(CellAt(cells, n - 1), path)]
  }

  function BodySaid(block: seq<string>, width: nat, n: nat): seq<Said>
    requires 2 <= n <= |block|
  {
    if n == 2 then []
    else BodySaid(block, width, n - 1) + [Opened("", [TABLE, TBODY, TR])]
         + RowSaid(RowCells(block[n - 1]), RowCells(block[1]), width, [TABLE, TBODY, TR, TD])
  }

  /** What a table says: its header's cells, then every body row fitted to the header's width. */
  function TableSaid(block: seq<string>): seq<Said>
    requires |block| >= 2
  {
    var header, rules := RowCells(block[0]), RowCells(block[1]);
    [Opened("md-table", [TABLE]), Opened("", [TABLE, THEAD]), Opened("", [TABLE, THEAD, TR])]
    + RowSaid(header, rules, |header|, [TABLE, THEAD, TR, TH])
    + [Opened("", [TABLE, TBODY])] + BodySaid(block, |header|, |block|)
  }

  /** A row has as many cells as the header: its own in their places, then empty ones. */
  lemma {:induction false} RowSaidAt(cells: seq<string>, rules: seq<string>, n: nat, path: seq<Tag>, j: nat)
    requires j < n
    ensures var said := RowSaid(cells, rules, n, path);
            && |said| == 2 * n
            && said[2 * j] == Opened(if j < |rules| then AlignOf(rules[j]) else "", path)
            && said[2 * j + 1] == Said(if j < |cells| then cells[j] else "", path)
    decreases n
  {
    hide AlignOf;
    NoAlign();
    if n > 1 {
      RowSaidAt(cells, rules, n - 1, path, if j < n - 1 then j else 0);
    } else {
      assert RowSaid(cells, rules, 0, path) == [];
    }
  }

  lemma NoAlign()
    ensures AlignOf("") == ""
  {
    TightIffTrimmed("");
  }

  lemma {:induction false} RowSpoken(st: seq<Tag>, tag: Tag, aligns: seq<string>, cells: seq<string>,
                                     rules: seq<string>, n: nat)
    requires n <= |aligns| && forall j :: 0 <= j < n ==> aligns[j] == AlignOf(CellAt(rules, j))
    ensures Spoken(st, RowTokens(tag, aligns, cells, n)) == RowSaid(cells, rules, n, st + [tag])
    decreases n
  {
    hide Element, CellAt, Run, Spoken, AlignOf;
    if n == 0 {
      SpokenNone(st);
    } else {
      RowSpoken(st, tag, aligns, cells, rules, n - 1);
      RowNeutral(tag, aligns, cells, n - 1);
      LeafSpoken(st, tag, aligns[n - 1], [CellAt(cells, n - 1)]);
      SpokenConcat(st, RowTokens(tag, aligns, cells, n - 1),
                   Element(tag, aligns[n - 1], [Text([CellAt(cells, n - 1)])]));
    }
  }

  lemma SpokenNone(st: seq<Tag>)
    ensures Spoken(st, []) == []
  {
  }

  lemma AlignsAre(block: seq<string>)
    requires |block| >= 2
    ensures |Aligns(block)| == |RowCells(block[0])|
    ensures forall j :: 0 <= j < |Aligns(block)| ==> Aligns(block)[j] == AlignOf(CellAt(RowCells(block[1]), j))
  {
    hide RowCells, AlignOf;
    NoAlign();
  }

  lemma {:induction false} BodySpoken(block: seq<string>, n: nat)
    requires 2 <= n <= |block|
    ensures Spoken([TABLE, TBODY], BodyTokens(Aligns(block), block, n)) == BodySaid(block, |Aligns(block)|, n)
    decreases n
  {
    hide Element, Run, Spoken, RowTokens, RowCells, RowSaid, Aligns, AlignOf;
    var st, aligns := [TABLE, TBODY], Aligns(block);
    if n == 2 {
      SpokenNone(st);
    } else {
      var cells := RowTokens(TD, aligns, RowCells(block[n - 1]), |aligns|);
      BodySpoken(block, n - 1);
      BodyNeutral(aligns, block, n - 1);
      RowNeutral(TD, aligns, RowCells(block[n - 1]), |aligns|);
      SpokenConcat(st, BodyTokens(aligns, block, n - 1), Element(TR, "", cells));
      ElementSpoken(st, TR, "", cells);
      AlignsAre(block);
      RowSpoken(st + [TR], TD, aligns, RowCells(block[n - 1]), RowCells(block[1]), |aligns|);
      assert st + [TR] == [TABLE, TBODY, TR] && st + [TR] + [TD] == [TABLE, TBODY, TR, TD];
    }
  }

  lemma HeadSpoken(block: seq<string>)
    requires |block| >= 2
    ensures var header, row := RowCells(block[0]), RowTokens(TH, Aligns(block), RowCells(block[0]), |Aligns(block)|);
            && Neutral(Element(THEAD, "", Element(TR, "", row)))
            && Spoken([TABLE], Element(THEAD, "", Element(TR, "", row)))
               == [Opened("", [TABLE, THEAD]), Opened("", [TABLE, THEAD, TR])]
                  + RowSaid(header, RowCells(block[1]), |header|, [TABLE, THEAD, TR, TH])
  {
    hide Element, Run, Spoken, RowTokens, RowCells, Neutral, RowSaid, Aligns, AlignOf;
    var aligns, header := Aligns(block), RowCells(block[0]);
    var row := RowTokens(TH, aligns, header, |aligns|);
    AlignsAre(block);
    RowNeutral(TH, aligns, header, |aligns|);
    ElementNeutral(TR, "", row);
    ElementNeutral(THEAD, "", Element(TR, "", row));
    ElementSpoken([TABLE], THEAD, "", Element(TR, "", row));
    assert [TABLE] + [THEAD] == [TABLE, THEAD] && [TABLE, THEAD] + [TR] == [TABLE, THEAD, TR];
    ElementSpoken([TABLE, THEAD], TR, "", row);
    RowSpoken([TABLE, THEAD, TR], TH, aligns, header, RowCells(block[1]), |aligns|);
    assert [TABLE, THEAD, TR] + [TH] == [TABLE, THEAD, TR, TH];
  }

  /** Every row has exactly the cells of the header's width, each cell in its place and in the
      alignment of its column. */
  lemma TableSpoken(block: seq<string>)
    requires |block| >= 2
    ensures Spoken([], TableTokens(block)) == TableSaid(block)
  {
    hide Element, Run, Spoken, RowTokens, BodyTokens, RowCells, RowSaid, BodySaid, Neutral, Aligns, AlignOf;
    var aligns := Aligns(block);
    var row := RowTokens(TH, aligns, RowCells(block[0]), |aligns|);
    var head, body := Element(THEAD, "", Element(TR, "", row)), Element(TBODY, "", BodyTokens(aligns, block, |block|));
    HeadSpoken(block);
    BodyNeutral(aligns, block, |block|);
    ElementNeutral(TBODY, "", BodyTokens(aligns, block, |block|));
    ConcatNeutral(head, body);
    ElementSpoken([], TABLE, "md-table", head + body);
    assert [] + [TABLE] == [TABLE] && [TABLE] + [TBODY] == [TABLE, TBODY];
    NeutralRun([TABLE], head);
    SpokenConcat([TABLE], head, body);
    ElementSpoken([TABLE], TBODY, "", BodyTokens(aligns, block, |block|));
    AlignsAre(block);
    BodySpoken(block, |block|);
  }

  lemma NeutralRun(st: seq<Tag>, toks: seq<Token>)
    requires Neutral(toks)
    ensures Run(st, toks) == Some(st)
  {
    hide Run;
  }
}
