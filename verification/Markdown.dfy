/**
 The Markdown block renderer (internal/markdown/markdown.go, Render).

 `Renderer` has the state Render keeps: the output, the stack of open lists, the quote flag and the
 paragraph being gathered. What a line looks like is decided by `Rules`, so everything proved holds
 for any line patterns; inline formatting is not modelled, a run of text is one token.
 */
module Markdown {
  import opened Text
  import opened Markup
  import opened MarkdownTable
  import opened TableRow
  import opened Options

  datatype Item = Item(indent: nat, text: string)

  /** The line patterns, in the source's regular expressions. */
  datatype Rules = Rules(
    fence: string -> Option<string>,
    delim: string -> bool,
    rule: string -> bool,
    heading: string -> Option<(nat, string)>,
    quote: string -> Option<string>,
    bullet: string -> Option<Item>,
    number: string -> Option<Item>)

  datatype ListLevel = ListLevel(indent: nat, ordered: bool)

  function TagOf(l: ListLevel): Tag { if l.ordered then OL else UL }

  function OpenTags(lists: seq<ListLevel>, inQuote: bool): seq<Tag> {
    (if inQuote then [BLOCKQUOTE] else []) + seq(|lists|, i requires 0 <= i < |lists| => TagOf(lists[i]))
  }

  predicate Increasing(lists: seq<ListLevel>) {
    forall i, j :: 0 <= i < j < |lists| ==> lists[i].indent < lists[j].indent
  }

  // ---- what the output has to say

  /** The lists left open when those indented further than `indent` are closed. */
  function Kept(lists: seq<ListLevel>, indent: nat): seq<ListLevel> {
    if lists != [] && lists[|lists| - 1].indent > indent then Kept(lists[..|lists| - 1], indent) else lists
  }

  /** The open lists an item stands in: a list of its own indent goes on, whatever its kind. */
  function ListsFor(lists: seq<ListLevel>, indent: nat, ordered: bool): seq<ListLevel> {
    var kept := Kept(lists, indent);
    if kept == [] || kept[|kept| - 1].indent < indent then kept + [ListLevel(indent, ordered)] else kept
  }

  function FenceEnd(r: Rules, lines: seq<string>, j: nat): (e: nat)
    requires j <= |lines|
    ensures j <= e <= |lines| && (e < |lines| ==> r.fence(lines[e]).Some?)
    ensures forall k :: j <= k < e ==> r.fence(lines[k]).None?
    decreases |lines| - j
  {
    if j < |lines| && r.fence(lines[j]).None? then FenceEnd(r, lines, j + 1) else j
  }

  /** What decides how a line is read, besides the line: the open lists, the quote, and whether a
      paragraph is being gathered. */
  datatype Mode = Mode(lists: seq<ListLevel>, inQuote: bool, inPara: bool)

  const TOP := Mode([], false, false)

  /** One block of lines: where the next begins, the mode after it, and what it says: the tags it
      opens, and its text with the tags that belong around it. */
  datatype Block = Block(next: nat, mode: Mode, said: seq<Said>)

  predicate Continues(line: string, m: Mode) { m.lists != [] && |line| >= 2 && line[..2] == "  " }

  function PlainBlock(line: string, i: nat, m: Mode): Block {
    if Continues(line, m) then Block(i + 1, m, [Said(TrimSpace(line), OpenTags(m.lists, m.inQuote))])
    else
      var path := OpenTags([], m.inQuote) + [P];
      Block(i + 1, Mode([], m.inQuote, true),
            (if m.inPara then [] else [Opened("", path)]) + [Said(TrimSpace(line), path)])
  }

  /** A list of that indent is open. */
  predicate Listed(lists: seq<ListLevel>, indent: nat) { exists l :: l in lists && l.indent == indent }

  function ItemBlock(item: Item, ordered: bool, i: nat, m: Mode): Block {
    var lists := ListsFor(m.lists, item.indent, ordered);
    var tags := OpenTags(lists, false);
    Block(i + 1, Mode(lists, false, false),
          (if Listed(m.lists, item.indent) then [] else [Opened("", tags)])
          + [Opened("", tags + [LI]), Said(item.text, tags + [LI])])
  }

  /** A heading one level down, as far as there are levels. */
  function Shifted(level: nat): nat { if level < 6 then level + 1 else level }

  lemma HeadingsStepDown(level: nat)
    requires 1 <= level <= 6
    ensures Shifted(level) == [2, 3, 4, 5, 6, 6][level - 1]
  {
  }

  function LineBlock(r: Rules, line: string, i: nat, m: Mode): Block {
    if r.rule(line) then Block(i + 1, TOP, [Ruled([])])
    else if r.heading(line).Some? then
      var h := r.heading(line).value;
      Block(i + 1, TOP, [Opened("", [Heading(Shifted(h.0))]), Said(h.1, [Heading(Shifted(h.0))])])
    else if r.quote(line).Some? then
      Block(i + 1, Mode([], true, false),
            (if m.inQuote then [] else [Opened("", [BLOCKQUOTE])])
            + [Opened("", [BLOCKQUOTE, P]), Said(r.quote(line).value, [BLOCKQUOTE, P])])
    else if r.bullet(line).Some? then ItemBlock(r.bullet(line).value, false, i, m)
    else if r.number(line).Some? then ItemBlock(r.number(line).value, true, i, m)
    else PlainBlock(line, i, m)
  }

  function BlockAt(r: Rules, lines: seq<string>, i: nat, m: Mode): (b: Block)
    requires i < |lines|
    ensures b.next > i
  {
    var line := lines[i];
    if r.fence(line).Some? then
      var end := FenceEnd(r, lines, i + 1);
      var lang := r.fence(line).value;
      Block(end + 1, TOP,
            [Opened("code-block" + (if lang == "" then "" else " lang-" + lang), [PRE]), Opened("", [PRE, CODE])]
            + SayAll(lines[i + 1..end], [PRE, CODE]))
    else if Blank(line) then Block(i + 1, TOP, [])
    else
      var n := TableLength(r.delim, lines, i);
      if n > 0 then Block(i + n, TOP, TableSaid(lines[i..i + n]))
      else LineBlock(r, line, i, m)
  }

  /** What the lines from i on call for, in order. */
  function SourceText(r: Rules, lines: seq<string>, i: nat, m: Mode): seq<Said>
    decreases |lines| - i
  {
    if i >= |lines| then []
    else
      var b := BlockAt(r, lines, i, m);
      b.said + SourceText(r, lines, b.next, b.mode)
  }

  // ---- the renderer

  function Pending(para: seq<string>, path: seq<Tag>): seq<Said> {
    if para == [] then [] else [Opened("", path)] + SayAll(para, path)
  }

  class Renderer {
    var out: seq<Token>
    var lists: seq<ListLevel>
    var inQuote: bool
    var para: seq<string>

    /** Open lists have strictly increasing indents, and stand in no quote and beside no pending
        paragraph; the tags open in the output are those of the quote and the lists. */
    ghost predicate Valid()
      reads this
    {
      && Increasing(lists)
      && (lists != [] ==> !inQuote && para == [])
      && Run([], out) == Some(OpenTags(lists, inQuote))
    }

    /** What the output says, with the pending paragraph. */
    ghost function Says(): seq<Said>
      reads this
    {
      Spoken([], out) + Pending(para, OpenTags([], inQuote) + [P])
    }

    ghost function Now(): Mode
      reads this
    {
      Mode(lists, inQuote, para != [])
    }

    constructor ()
      ensures Valid() && Now() == TOP && Says() == []
    {
      out, lists, inQuote, para := [], [], false, [];
      new;
      RunNone([]);
      SpokenNone([]);
      assert OpenTags([], false) == [];
    }

    /** Appends output that closes what it opens. */
    method Emit(toks: seq<Token>)
      requires Valid() && Neutral(toks)
      modifies `out
      ensures Valid() && out == old(out) + toks
      ensures Spoken([], out) == old(Spoken([], out)) + Spoken(OpenTags(lists, inQuote), toks)
    {
      hide Run, Spoken, OpenTags;
      RunConcat([], out, toks);
      NeutralRun(OpenTags(lists, inQuote), toks);
      SpokenConcat([], out, toks);
      out := out + toks;
    }

    method CloseLast()
      requires Valid() && lists != []
      modifies `out, `lists
      ensures Valid() && lists == old(lists[..|lists| - 1]) && Spoken([], out) == old(Spoken([], out))
    {
      hide Run, Spoken;
      var last := lists[|lists| - 1];
      ghost var open := OpenTags(lists, inQuote);
      ghost var toks := [Close(TagOf(last))];
      RunConcat([], out, toks);
      SpokenConcat([], out, toks);
      RunOne(open, Close(TagOf(last)));
      SpokenOne(open, Close(TagOf(last)));
      assert open[..|open| - 1] == OpenTags(lists[..|lists| - 1], inQuote);
      if last.ordered {
        out := out + [Close(OL)];
      } else {
        out := out + [Close(UL)];
      }
      lists := lists[..|lists| - 1];
    }

    /** Closes every list indented at least that far. Render only ever asks for all of them. */
    method CloseLists(toIndent: nat)
      requires Valid()
      modifies `out, `lists
      ensures Valid() && Spoken([], out) == old(Spoken([], out))
      ensures lists <= old(lists) && (lists != [] ==> lists[|lists| - 1].indent < toIndent)
      ensures forall i :: |lists| <= i < |old(lists)| ==> old(lists)[i].indent >= toIndent
    {
      hide Run, Spoken, OpenTags, Increasing;
      while lists != [] && lists[|lists| - 1].indent >= toIndent
        invariant Valid() && Spoken([], out) == old(Spoken([], out)) && lists <= old(lists)
        invariant forall i :: |lists| <= i < |old(lists)| ==> old(lists)[i].indent >= toIndent
        decreases |lists|
      {
        CloseLast();
      }
    }

    method FlushPara()
      requires Valid()
      modifies `out, `para
      ensures Valid() && para == [] && Says() == old(Says())
    {
      hide Run, Spoken;
      if |para| == 0 {
        return;
      }
      LeafSpoken(OpenTags(lists, inQuote), P, "", para);
      Emit(Element(P, "", [Text(para)]));
      para := [];
    }

    method CloseQuote()
      requires Valid() && para == []
      modifies `out, `inQuote
      ensures Valid() && !inQuote && Spoken([], out) == old(Spoken([], out))
    {
      hide Run, Spoken;
      if inQuote {
        RunConcat([], out, [Close(BLOCKQUOTE)]);
        SpokenConcat([], out, [Close(BLOCKQUOTE)]);
        RunOne([BLOCKQUOTE], Close(BLOCKQUOTE));
        SpokenOne([BLOCKQUOTE], Close(BLOCKQUOTE));
        assert OpenTags(lists, true) == [BLOCKQUOTE] && OpenTags(lists, false) == [];
        out := out + [Close(BLOCKQUOTE)];
        inQuote := false;
      }
    }

    method OpenQuote()
      requires Valid() && lists == [] && para == []
      modifies `out, `inQuote
      ensures Valid() && inQuote
      ensures Spoken([], out) == old(Spoken([], out)) + if old(inQuote) then [] else [Opened("", [BLOCKQUOTE])]
    {
      hide Run, Spoken;
      assert [] + [BLOCKQUOTE] == [BLOCKQUOTE];
      if !inQuote {
        RunConcat([], out, [Open(BLOCKQUOTE, "")]);
        SpokenConcat([], out, [Open(BLOCKQUOTE, "")]);
        RunOne([], Open(BLOCKQUOTE, ""));
        SpokenOne([], Open(BLOCKQUOTE, ""));
        assert OpenTags(lists, true) == [] + [BLOCKQUOTE] && OpenTags(lists, false) == [];
        out := out + [Open(BLOCKQUOTE, "")];
        inQuote := true;
      }
    }

    /** The three calls that end whatever is open. */
    method EndAll()
      requires Valid()
      modifies this
      ensures Valid() && Now() == TOP && para == [] && Spoken([], out) == old(Says())
    {
      hide Run, Spoken, OpenTags, Increasing;
      FlushPara();
      NoPara();
      CloseLists(0);
      CloseQuote();
    }

    lemma NoPara()
      requires para == []
      ensures Says() == Spoken([], out)
    {
      hide Spoken;
    }

    method OpenListItem(indent: nat, ordered: bool, text: string)
      requires Valid() && !inQuote && para == []
      modifies `out, `lists
      ensures Valid() && lists == ListsFor(old(lists), indent, ordered)
      ensures var tags := OpenTags(lists, false);
              Spoken([], out) == old(Spoken([], out)) + (if old(Listed(lists, indent)) then [] else [Opened("", tags)])
                                 + [Opened("", tags + [LI]), Said(text, tags + [LI])]
    {
      hide Run, Spoken, OpenTags, Increasing, Listed;
      ListedIff(lists, indent);
      while lists != [] && lists[|lists| - 1].indent > indent
        invariant Valid() && Spoken([], out) == old(Spoken([], out))
        invariant Kept(lists, indent) == old(Kept(lists, indent))
        decreases |lists|
      {
        CloseLast();
      }
      if |lists| == 0 || lists[|lists| - 1].indent < indent {
        OpenList(indent, ordered);
      }
      LeafSpoken(OpenTags(lists, inQuote), LI, "", [text]);
      Emit(Element(LI, "", [Text([text])]));
    }

    method OpenList(indent: nat, ordered: bool)
      requires Valid() && !inQuote && para == [] && (lists != [] ==> lists[|lists| - 1].indent < indent)
      modifies `out, `lists
      ensures Valid() && lists == old(lists) + [ListLevel(indent, ordered)]
      ensures Spoken([], out) == old(Spoken([], out)) + [Opened("", OpenTags(lists, false))]
    {
      hide Run, Spoken;
      ghost var level := ListLevel(indent, ordered);
      ghost var open := OpenTags(lists, inQuote);
      ghost var toks := [Open(TagOf(level), "")];
      RunConcat([], out, toks);
      SpokenConcat([], out, toks);
      RunOne(open, Open(TagOf(level), ""));
      SpokenOne(open, Open(TagOf(level), ""));
      assert open + [TagOf(level)] == OpenTags(lists + [level], inQuote);
      if ordered {
        out := out + [Open(OL, "")];
      } else {
        out := out + [Open(UL, "")];
      }
      lists := lists + [ListLevel(indent, ordered)];
    }

    // -- one method for each way a line can be read; `i` is its number

    method FencedBlock(r: Rules, lines: seq<string>, i: nat, lang: string) returns (next: nat)
      requires Valid() && i < |lines| && r.fence(lines[i]) == Some(lang)
      modifies this
      ensures Valid() && Follows(r, lines, i, old(Now()), next, old(Says()))
    {
      hide Run, Spoken, OpenTags, FenceEnd;
      EndAll();
      next := i + 1;
      while next < |lines| && r.fence(lines[next]).None?
        invariant i < next <= |lines| && FenceEnd(r, lines, i + 1) == FenceEnd(r, lines, next)
        decreases |lines| - next
        modifies {}
      {
        FenceOneOn(r, lines, next);
        next := next + 1;
      }
      FenceHere(r, lines, next);
      var body := lines[i + 1..next];
      var attr := "code-block";
      if lang != "" {
        attr := attr + (" lang-" + lang);
      }
      assert attr == "code-block" + if lang == "" then "" else " lang-" + lang;
      NothingOpen();
      CodeSpoken(attr, body);
      Emit(Element(PRE, attr, Element(CODE, "", [Text(body)])));
      NoPara();
      next := next + 1;
    }

    method TableBlock(r: Rules, lines: seq<string>, i: nat, n: nat) returns (next: nat)
      requires Valid() && i < |lines| && r.fence(lines[i]).None? && !Blank(lines[i])
      requires n == TableLength(r.delim, lines, i) > 0 && i + n <= |lines|
      modifies this
      ensures Valid() && Follows(r, lines, i, old(Now()), next, old(Says()))
    {
      hide Run, Spoken, OpenTags, TableSaid, TableTokens, RowCells;
      EndAll();
      NothingOpen();
      var block := lines[i..i + n];
      TableNeutral(block);
      TableSpoken(block);
      var toks := WriteTable(block);
      Emit(toks);
      NoPara();
      next := i + n;
    }

    /** A blank line or a horizontal rule: either ends the paragraph. */
    method BreakLine(isRule: bool)
      requires Valid()
      modifies this
      ensures Valid() && Now() == TOP && Says() == old(Says()) + if isRule then [Ruled([])] else []
    {
      hide Run, Spoken, OpenTags;
      EndAll();
      if isRule {
        TextNeutral([]);
        NothingOpen();
        SpokenOne([], Rule);
        Emit([Rule]);
      }
      NoPara();
    }

    method HeadingLine(level: nat, text: string)
      requires Valid()
      modifies this
      ensures Valid() && Now() == TOP
      ensures Says() == old(Says()) + [Opened("", [Heading(Shifted(level))]), Said(text, [Heading(Shifted(level))])]
    {
      hide Run, Spoken, OpenTags, Shifted;
      EndAll();
      NothingOpen();
      LeafSpoken([], Heading(Shifted(level)), "", [text]);
      assert [] + [Heading(Shifted(level))] == [Heading(Shifted(level))];
      Emit(Element(Heading(Shifted(level)), "", [Text([text])]));
      NoPara();
    }

    method QuoteLine(text: string)
      requires Valid()
      modifies this
      ensures Valid() && Now() == Mode([], true, false)
      ensures Says() == old(Says()) + (if old(inQuote) then [] else [Opened("", [BLOCKQUOTE])])
                        + [Opened("", [BLOCKQUOTE, P]), Said(text, [BLOCKQUOTE, P])]
    {
      hide Run, Spoken, OpenTags, Increasing;
      FlushPara();
      NoPara();
      CloseLists(0);
      OpenQuote();
      QuoteOpen();
      LeafSpoken([BLOCKQUOTE], P, "", [text]);
      assert [BLOCKQUOTE] + [P] == [BLOCKQUOTE, P];
      Emit(Element(P, "", [Text([text])]));
      NoPara();
    }

    method ItemLine(item: Item, ordered: bool)
      requires Valid()
      modifies this
      ensures Valid() && Now() == ItemBlock(item, ordered, 0, old(Now())).mode
      ensures Says() == old(Says()) + ItemBlock(item, ordered, 0, old(Now())).said
    {
      hide Run, Spoken, OpenTags, Increasing, ListsFor, Listed;
      FlushPara();
      NoPara();
      CloseQuote();
      OpenListItem(item.indent, ordered, item.text);
      NoPara();
    }

    /** A plain line goes on in the open list, or joins the paragraph. */
    method PlainLine(line: string)
      requires Valid()
      modifies this
      ensures Valid() && Now() == PlainBlock(line, 0, old(Now())).mode
      ensures Says() == old(Says()) + PlainBlock(line, 0, old(Now())).said
    {
      hide Run, Spoken, OpenTags, Increasing, TrimSpace;
      var text := TrimSpace(line);
      if |lists| > 0 && |line| >= 2 && line[..2] == "  " {
        NoPara();
        TextNeutral([text]);
        SpokenOne(OpenTags(lists, inQuote), Text([text]));
        Emit([Text([text])]);
        NoPara();
      } else {
        CloseLists(0);
        ghost var path := OpenTags([], inQuote) + [P];
        assert SayAll(para + [text], path) == SayAll(para, path) + [Said(text, path)];
        assert SayAll([], path) == [];
        para := para + [text];
      }
    }

    /** The mode and the text after the block at line i are what BlockAt says. */
    ghost predicate Follows(r: Rules, lines: seq<string>, i: nat, m: Mode, next: nat, said: seq<Said>)
      requires i < |lines|
      reads this
    {
      var b := BlockAt(r, lines, i, m);
      next == b.next && Now() == b.mode && Says() == said + b.said
    }

    /** The lines after fences, blanks and tables are ruled out. */
    method OtherLine(r: Rules, line: string, ghost i: nat)
      requires Valid()
      modifies this
      ensures Valid() && Now() == LineBlock(r, line, i, old(Now())).mode
      ensures Says() == old(Says()) + LineBlock(r, line, i, old(Now())).said
    {
      hide Run, Spoken, OpenTags, Valid, Says, ListsFor, Continues, Shifted;
      if r.rule(line) {
        BreakLine(true);
      } else if r.heading(line).Some? {
        HeadingLine(r.heading(line).value.0, r.heading(line).value.1);
      } else if r.quote(line).Some? {
        QuoteLine(r.quote(line).value);
      } else if r.bullet(line).Some? {
        ItemLine(r.bullet(line).value, false);
      } else if r.number(line).Some? {
        ItemLine(r.number(line).value, true);
      } else {
        PlainLine(line);
      }
    }

    method RenderBlock(r: Rules, lines: seq<string>, i: nat) returns (next: nat)
      requires Valid() && i < |lines|
      modifies this
      ensures Valid() && Follows(r, lines, i, old(Now()), next, old(Says()))
    {
      hide Run, Spoken, OpenTags, Valid, Says, LineBlock, TableLength, TableSaid, Blank;
      var line := lines[i];
      if r.fence(line).Some? {
        next := FencedBlock(r, lines, i, r.fence(line).value);
        return;
      }
      if Blank(line) {
        BreakLine(false);
        return i + 1;
      }
      var n := TableAt(r.delim, lines, i);
      if n > 0 {
        next := TableBlock(r, lines, i, n);
        return;
      }
      OtherLine(r, line, i);
      LineTakesOne(r, line, i, old(Now()));
      next := i + 1;
    }

    lemma NothingOpen()
      requires lists == [] && !inQuote
      ensures OpenTags(lists, inQuote) == []
    {
    }

    lemma QuoteOpen()
      requires lists == [] && inQuote
      ensures OpenTags(lists, inQuote) == [BLOCKQUOTE]
    {
    }
  }

  lemma FenceOneOn(r: Rules, lines: seq<string>, j: nat)
    requires j < |lines| && r.fence(lines[j]).None?
    ensures FenceEnd(r, lines, j) == FenceEnd(r, lines, j + 1)
  {
  }

  lemma FenceHere(r: Rules, lines: seq<string>, j: nat)
    requires j == |lines| || (j < |lines| && r.fence(lines[j]).Some?)
    ensures FenceEnd(r, lines, j) == j
  {
  }

  lemma CodeSpoken(attr: string, body: seq<string>)
    ensures Neutral(Element(PRE, attr, Element(CODE, "", [Text(body)])))
    ensures Spoken([], Element(PRE, attr, Element(CODE, "", [Text(body)])))
         == [Opened(attr, [PRE]), Opened("", [PRE, CODE])] + SayAll(body, [PRE, CODE])
  {
    hide Spoken, Run, Element, Neutral;
    LeafSpoken([PRE], CODE, "", body);
    ElementNeutral(PRE, attr, Element(CODE, "", [Text(body)]));
    ElementSpoken([], PRE, attr, Element(CODE, "", [Text(body)]));
    assert [] + [PRE] == [PRE] && [PRE] + [CODE] == [PRE, CODE];
  }

  lemma LineTakesOne(r: Rules, line: string, i: nat, m: Mode)
    ensures LineBlock(r, line, i, m).next == i + 1
  {
  }

  /** For every sequence of lines and whatever the patterns, the tags written are well nested and
      all closed, and the output says exactly what the lines call for: every tag opened with its
      attribute, every rule, and every piece of text inside its tags, in order. */
  method Render(r: Rules, lines: seq<string>) returns (out: seq<Token>)
    ensures WellNested(out)
    ensures Spoken([], out) == SourceText(r, lines, 0, TOP)
  {
    hide Run, Spoken, BlockAt, OpenTags, Pending, Increasing;
    var w := new Renderer();
    var i := 0;
    while i < |lines|
      invariant fresh(w) && w.Valid()
      invariant w.Says() + SourceText(r, lines, i, w.Now()) == SourceText(r, lines, 0, TOP)
      decreases |lines| - i
    {
      ghost var m, said := w.Now(), w.Says();
      ghost var b := BlockAt(r, lines, i, m);
      i := w.RenderBlock(r, lines, i);
      assert said + (b.said + SourceText(r, lines, i, w.Now())) == (said + b.said) + SourceText(r, lines, i, w.Now());
    }
    w.EndAll();
    w.NothingOpen();
    out := w.out;
  }

  // ---- the shape of lists

  lemma {:induction false} KeptIs(lists: seq<ListLevel>, indent: nat)
    requires Increasing(lists)
    ensures Kept(lists, indent) <= lists
    ensures forall l :: l in lists ==> (l in Kept(lists, indent) <==> l.indent <= indent)
    decreases |lists|
  {
    if lists != [] && lists[|lists| - 1].indent > indent {
      KeptIs(lists[..|lists| - 1], indent);
    }
  }

  /** An item opens a list just when the last list kept is not of its indent. */
  lemma ListedIff(lists: seq<ListLevel>, indent: nat)
    requires Increasing(lists)
    ensures var kept := Kept(lists, indent);
            Listed(lists, indent) <==> kept != [] && kept[|kept| - 1].indent >= indent
  {
    hide Kept, Increasing;
    KeptIs(lists, indent);
    var kept := Kept(lists, indent);
    PrefixIncreasing(kept, lists);
    if kept != [] {
      assert kept[|kept| - 1] in kept && kept[|kept| - 1] in lists;
    }
    if l :| l in lists && l.indent == indent {
      SameIndentIsLast(kept, l, indent);
    }
  }

  /** An item goes into the open list of its own indent, closing the deeper ones only, and opens one
      if there is none. So it stands in a list of its own kind just when no list of that indent and
      the other kind is open: "1." after "-" is one more bullet. */
  lemma ItemsJoinByIndent(lists: seq<ListLevel>, indent: nat, ordered: bool)
    requires Increasing(lists)
    ensures var after := ListsFor(lists, indent, ordered);
            && Increasing(after) && after != [] && after[|after| - 1].indent == indent
            && (forall l :: l in lists && l.indent < indent ==> l in after)
            && (after[|after| - 1].ordered == ordered <==> ListLevel(indent, !ordered) !in lists)
  {
    hide Kept, Increasing;
    KeptIs(lists, indent);
    var kept := Kept(lists, indent);
    PrefixIncreasing(kept, lists);
    assert forall l :: l in kept ==> l in lists;
    if l :| l in kept && l.indent == indent {
      SameIndentIsLast(kept, l, indent);
    } else {
      NoneOfIndent(kept, indent);
      OneMore(kept, ListLevel(indent, ordered));
    }
    assert ListLevel(indent, !ordered) in lists <==> ListLevel(indent, !ordered) in kept;
  }

  /** A numbered item under an open bullet list of its indent. */
  lemma NumberAfterBullet(indent: nat)
    ensures var bullets := [ListLevel(indent, false)];
            ListsFor(bullets, indent, true) == bullets && OpenTags(bullets, false) == [UL]
  {
  }

  lemma PrefixIncreasing(kept: seq<ListLevel>, lists: seq<ListLevel>)
    requires Increasing(lists) && kept <= lists
    ensures Increasing(kept)
  {
  }

  lemma OneMore(kept: seq<ListLevel>, l: ListLevel)
    requires Increasing(kept) && forall k :: k in kept ==> k.indent < l.indent
    ensures Increasing(kept + [l])
    ensures kept == [] || kept[|kept| - 1].indent < l.indent
  {
    if kept != [] {
      assert kept[|kept| - 1] in kept;
    }
  }

  lemma SameIndentIsLast(kept: seq<ListLevel>, l: ListLevel, indent: nat)
    requires Increasing(kept) && l in kept && l.indent == indent && forall k :: k in kept ==> k.indent <= indent
    ensures kept[|kept| - 1] == l && forall k :: k in kept && k.indent == indent ==> k == l
  {
    var i :| 0 <= i < |kept| && kept[i] == l;
    assert kept[|kept| - 1] in kept;
    forall k | k in kept && k.indent == indent ensures k == l {
      var j :| 0 <= j < |kept| && kept[j] == k;
    }
  }

  lemma NoneOfIndent(lists: seq<ListLevel>, indent: nat)
    requires forall l :: l in lists ==> l.indent != indent
    ensures ListLevel(indent, true) !in lists && ListLevel(indent, false) !in lists
  {
  }

  // ---- where a continuation line ends up

  datatype Place = Place(next: nat, mode: Mode, said: seq<Said>)

  /** Where reading the lines stands after n blocks. */
  function AfterBlocks(r: Rules, lines: seq<string>, n: nat): Place {
    if n == 0 then Place(0, TOP, [])
    else
      var p := AfterBlocks(r, lines, n - 1);
      if p.next >= |lines| then p
      else
        var b := BlockAt(r, lines, p.next, p.mode);
        Place(b.next, b.mode, p.said + b.said)
  }

  lemma {:induction false} BlocksSaid(r: Rules, lines: seq<string>, n: nat)
    ensures var p := AfterBlocks(r, lines, n);
            SourceText(r, lines, 0, TOP) == p.said + SourceText(r, lines, p.next, p.mode)
  {
    hide BlockAt;
    if n > 0 {
      BlocksSaid(r, lines, n - 1);
    }
  }

  /** The line is none of what Render looks for before list items. */
  predicate Unclaimed(r: Rules, lines: seq<string>, i: nat)
    requires i < |lines|
  {
    var line := lines[i];
    && r.fence(line).None? && !Blank(line) && TableLength(r.delim, lines, i) == 0
    && !r.rule(line) && r.heading(line).None? && r.quote(line).None?
  }

  predicate IsItem(r: Rules, lines: seq<string>, i: nat)
    requires i < |lines|
  {
    Unclaimed(r, lines, i) && (r.bullet(lines[i]).Some? || r.number(lines[i]).Some?)
  }

  predicate IsIndentedText(r: Rules, lines: seq<string>, i: nat)
    requires i < |lines|
  {
    && Unclaimed(r, lines, i) && r.bullet(lines[i]).None? && r.number(lines[i]).None?
    && |lines[i]| >= 2 && lines[i][..2] == "  "
  }

  function ItemAt(r: Rules, line: string): (Item, bool)
    requires r.bullet(line).Some? || r.number(line).Some?
  {
    if r.bullet(line).Some? then (r.bullet(line).value, false) else (r.number(line).value, true)
  }

  lemma ItemThenText(r: Rules, lines: seq<string>, i: nat, m: Mode)
    requires i + 1 < |lines| && IsItem(r, lines, i) && IsIndentedText(r, lines, i + 1)
    ensures var (item, ordered) := ItemAt(r, lines[i]);
            var tags := OpenTags(ListsFor(m.lists, item.indent, ordered), false);
            var said := SourceText(r, lines, i, m);
            var n := |BlockAt(r, lines, i, m).said|;
            && 0 < n < |said| && said[n - 1] == Said(item.text, tags + [LI])
            && said[n] == Said(TrimSpace(lines[i + 1]), tags)
  {
    hide TrimSpace, OpenTags, ListsFor, TableLength, Blank;
    var (item, ordered) := ItemAt(r, lines[i]);
    var b := BlockAt(r, lines, i, m);
    assert b == ItemBlock(item, ordered, i, m);
    SomeListOpen(m.lists, item.indent, ordered);
    assert BlockAt(r, lines, i + 1, b.mode) == PlainBlock(lines[i + 1], i + 1, b.mode);
  }

  lemma SomeListOpen(lists: seq<ListLevel>, indent: nat, ordered: bool)
    ensures ListsFor(lists, indent, ordered) != []
  {
  }

  /** An indented line under an item stands, in the output of Render, next to the item in its list and
      not inside it. `out` is what Render writes; the item is the block after the first n. */
  lemma ContinuationIsOutsideTheItem(r: Rules, lines: seq<string>, n: nat, out: seq<Token>)
    requires Spoken([], out) == SourceText(r, lines, 0, TOP)
    requires var p := AfterBlocks(r, lines, n);
             p.next + 1 < |lines| && IsItem(r, lines, p.next) && IsIndentedText(r, lines, p.next + 1)
    ensures var p, said := AfterBlocks(r, lines, n), Spoken([], out);
            var end := |AfterBlocks(r, lines, n + 1).said|;
            && 0 < end < |said|
            && said[end] == Said(TrimSpace(lines[p.next + 1]), said[end].path)
            && said[end - 1] == Said(ItemAt(r, lines[p.next]).0.text, said[end].path + [LI])
  {
    hide Spoken, BlockAt, TrimSpace, OpenTags, ListsFor, IsItem, IsIndentedText;
    var p := AfterBlocks(r, lines, n);
    BlocksSaid(r, lines, n);
    ItemThenText(r, lines, p.next, p.mode);
  }

  /** The path of list and quote tags alone. */
  lemma OpenTagsAreNoItems(lists: seq<ListLevel>, inQuote: bool)
    ensures LI !in OpenTags(lists, inQuote)
  {
  }

  lemma {:induction false} BodyIsNoItem(block: seq<string>, width: nat, n: nat)
    requires 2 <= n <= |block|
    ensures forall q :: q in BodySaid(block, width, n) ==> LI !in q.path
    decreases n
  {
    hide RowCells, RowSaid;
    if n > 2 {
      BodyIsNoItem(block, width, n - 1);
      RowIsNoItem(RowCells(block[n - 1]), RowCells(block[1]), width, [TABLE, TBODY, TR, TD]);
    }
  }

  lemma {:induction false} RowIsNoItem(cells: seq<string>, rules: seq<string>, n: nat, path: seq<Tag>)
    ensures forall q :: q in RowSaid(cells, rules, n, path) ==> q.path == path
    decreases n
  {
    hide AlignOf, CellAt;
    if n > 0 {
      RowIsNoItem(cells, rules, n - 1, path);
    }
  }

  /** The text of a block stands inside a list item exactly when the block is an item line. */
  lemma ItemIffItemLine(r: Rules, lines: seq<string>, i: nat, m: Mode)
    requires i < |lines|
    ensures forall q :: q in BlockAt(r, lines, i, m).said && q.Said? ==> (LI in q.path <==> IsItem(r, lines, i))
  {
    hide ListsFor, RowCells, TrimSpace, OpenTags, FenceEnd, LineBlock, TableSaid, Blank;
    var n := TableLength(r.delim, lines, i);
    if r.fence(lines[i]).None? && !Blank(lines[i]) {
      if n > 0 {
        TableIsNoItem(lines[i..i + n]);
      } else {
        LineIsItemIff(r, lines, i, m);
      }
    }
  }

  lemma TableIsNoItem(block: seq<string>)
    requires |block| >= 2
    ensures forall q :: q in TableSaid(block) ==> LI !in q.path
  {
    hide RowCells, BodySaid, RowSaid;
    var header := RowCells(block[0]);
    BodyIsNoItem(block, |header|, |block|);
    RowIsNoItem(header, RowCells(block[1]), |header|, [TABLE, THEAD, TR, TH]);
  }

  lemma LineIsItemIff(r: Rules, lines: seq<string>, i: nat, m: Mode)
    requires i < |lines| && r.fence(lines[i]).None? && !Blank(lines[i]) && TableLength(r.delim, lines, i) == 0
    ensures forall q :: q in LineBlock(r, lines[i], i, m).said && q.Said? ==> (LI in q.path <==> IsItem(r, lines, i))
  {
    hide ListsFor, TrimSpace, OpenTags, Blank, TableLength, Listed, Shifted;
    OpenTagsAreNoItems(m.lists, m.inQuote);
    OpenTagsAreNoItems([], m.inQuote);
  }

  /** In what Render writes, the text of any line, a fence or a table is inside a list item exactly when
      it is that of an item line: a line that goes on under an item, however far down, never is. `out`
      is the output; the block is the one after the first n. */
  lemma OnlyItemLinesAreInItems(r: Rules, lines: seq<string>, n: nat, out: seq<Token>)
    requires Spoken([], out) == SourceText(r, lines, 0, TOP)
    requires AfterBlocks(r, lines, n).next < |lines|
    ensures var p, said := AfterBlocks(r, lines, n), Spoken([], out);
            var b := BlockAt(r, lines, p.next, p.mode);
            && |p.said| + |b.said| <= |said| && said[|p.said|..|p.said| + |b.said|] == b.said
            && (forall k :: |p.said| <= k < |p.said| + |b.said| && said[k].Said? ==>
                  (LI in said[k].path <==> IsItem(r, lines, p.next)))
  {
    hide Spoken, BlockAt, IsItem, AfterBlocks;
    var p, said := AfterBlocks(r, lines, n), Spoken([], out);
    var b := BlockAt(r, lines, p.next, p.mode);
    BlocksSaid(r, lines, n);
    ItemIffItemLine(r, lines, p.next, p.mode);
    assert said == p.said + (b.said + SourceText(r, lines, b.next, b.mode));
    forall k | |p.said| <= k < |p.said| + |b.said| && said[k].Said?
      ensures LI in said[k].path <==> IsItem(r, lines, p.next)
    {
      assert said[k] == b.said[k - |p.said|] && b.said[k - |p.said|] in b.said;
    }
  }

  /** Render itself. */
  method RenderItems(r: Rules, lines: seq<string>, ghost n: nat) returns (out: seq<Token>)
    requires AfterBlocks(r, lines, n).next < |lines|
    ensures WellNested(out)
    ensures var p, said := AfterBlocks(r, lines, n), Spoken([], out);
            var b := BlockAt(r, lines, p.next, p.mode);
            && |p.said| + |b.said| <= |said| && said[|p.said|..|p.said| + |b.said|] == b.said
            && (forall k :: |p.said| <= k < |p.said| + |b.said| && said[k].Said? ==>
                  (LI in said[k].path <==> IsItem(r, lines, p.next)))
  {
    hide Spoken, AfterBlocks, SourceText, IsItem, BlockAt, WellNested;
    out := Render(r, lines);
    OnlyItemLinesAreInItems(r, lines, n, out);
  }

  /** Render itself, on a line right under an item. */
  method RenderContinuation(r: Rules, lines: seq<string>, ghost n: nat) returns (out: seq<Token>)
    requires var p := AfterBlocks(r, lines, n);
             p.next + 1 < |lines| && IsItem(r, lines, p.next) && IsIndentedText(r, lines, p.next + 1)
    ensures var p, said := AfterBlocks(r, lines, n), Spoken([], out);
            var end := |AfterBlocks(r, lines, n + 1).said|;
            && 0 < end < |said|
            && said[end] == Said(TrimSpace(lines[p.next + 1]), said[end].path)
            && said[end - 1] == Said(ItemAt(r, lines[p.next]).0.text, said[end].path + [LI])
  {
    hide Spoken, AfterBlocks, SourceText, IsItem, IsIndentedText;
    out := Render(r, lines);
    ContinuationIsOutsideTheItem(r, lines, n, out);
  }
}
