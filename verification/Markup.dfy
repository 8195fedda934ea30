/**
 Marked-up output as a sequence of tokens: what it means for tags to nest, and the text a piece of
 output carries.
 */
module Markup {
  import opened Options

  datatype Tag =
    | UL | OL | LI | P | PRE | CODE | BLOCKQUOTE | TABLE | THEAD | TBODY | TR | TH | TD
    | Heading(level: nat)

  /** `Text` holds the source pieces that one run of inline text was made from. */
  datatype Token = Open(tag: Tag, attr: string) | Close(tag: Tag) | Rule | Text(pieces: seq<string>)

  function Step(st: seq<Tag>, tok: Token): Option<seq<Tag>> {
    match tok
    case Open(tag, _) => Some(st + [tag])
    case Close(tag) => if st != [] && st[|st| - 1] == tag then Some(st[..|st| - 1]) else None
    case Rule => Some(st)
    case Text(_) => Some(st)
  }

  /** The tags open after `toks` when those of `st` were open before, or None if a tag is closed
      that is not the one opened last. */
  function Run(st: seq<Tag>, toks: seq<Token>): Option<seq<Tag>> {
    if toks == [] then Some(st)
    else
      var r := Run(st, toks[..|toks| - 1]);
      if r.None? then None else Step(r.value, toks[|toks| - 1])
  }

  predicate WellNested(toks: seq<Token>) { Run([], toks) == Some([]) }

  /** Output that closes what it opens, wherever it stands. */
  ghost predicate Neutral(toks: seq<Token>) { forall st :: Run(st, toks) == Some(st) }

  function Element(tag: Tag, attr: string, inner: seq<Token>): seq<Token> {
    [Open(tag, attr)] + inner + [Close(tag)]
  }

  lemma {:induction false} RunConcat(st: seq<Tag>, a: seq<Token>, b: seq<Token>)
    ensures Run(st, a + b) == if Run(st, a).None? then None else Run(Run(st, a).value, b)
    decreases |b|
  {
    hide Step;
    if b == [] {
      assert a + b == a;
    } else {
      assert (a + b)[..|a + b| - 1] == a + b[..|b| - 1];
      RunConcat(st, a, b[..|b| - 1]);
    }
  }

  lemma RunOne(st: seq<Tag>, tok: Token)
    ensures Run(st, [tok]) == Step(st, tok)
  {
    hide Step;
    assert [tok][..0] == [];
    assert Run(st, []) == Some(st);
  }

  lemma ElementNeutral(tag: Tag, attr: string, inner: seq<Token>)
    requires Neutral(inner)
    ensures Neutral(Element(tag, attr, inner))
  {
    hide Run;
    forall st ensures Run(st, Element(tag, attr, inner)) == Some(st) {
      RunOne(st, Open(tag, attr));
      RunConcat(st, [Open(tag, attr)], inner);
      RunOne(st + [tag], Close(tag));
      RunConcat(st, [Open(tag, attr)] + inner, [Close(tag)]);
      assert (st + [tag])[..|st|] == st;
    }
  }

  lemma ConcatNeutral(a: seq<Token>, b: seq<Token>)
    requires Neutral(a) && Neutral(b)
    ensures Neutral(a + b)
  {
    hide Run;
    forall st ensures Run(st, a + b) == Some(st) {
      RunConcat(st, a, b);
    }
  }

  lemma TextNeutral(pieces: seq<string>)
    ensures Neutral([Text(pieces)]) && Neutral([Rule]) && Neutral([])
  {
    hide Run;
    forall st ensures Run(st, [Text(pieces)]) == Some(st) && Run(st, [Rule]) == Some(st) {
      RunOne(st, Text(pieces));
      RunOne(st, Rule);
    }
    forall st ensures Run(st, []) == Some(st) {
      RunNone(st);
    }
  }

  lemma RunNone(st: seq<Tag>)
    ensures Run(st, []) == Some(st)
  {
  }

  // ---- what a piece of output says

  /** A piece of text and the tags open around it, a tag opened with its attribute (the path ends in
      it), or a horizontal rule. */
  datatype Said = Said(piece: string, path: seq<Tag>) | Opened(attr: string, path: seq<Tag>) | Ruled(path: seq<Tag>)

  function SayAll(pieces: seq<string>, path: seq<Tag>): seq<Said> {
    seq(|pieces|, i requires 0 <= i < |pieces| => Said(pieces[i], path))
  }

  function SaidBy(st: seq<Tag>, tok: Token): seq<Said> {
    match tok
    case Open(tag, attr) => [Opened(attr, st + [tag])]
    case Close(_) => []
    case Rule => [Ruled(st)]
    case Text(pieces) => SayAll(pieces, st)
  }

  /** What some output says, in order, when the tags of `st` are open before it. */
  function Spoken(st: seq<Tag>, toks: seq<Token>): seq<Said> {
    if toks == [] then []
    else
      var before, last := toks[..|toks| - 1], toks[|toks| - 1];
      Spoken(st, before) + if Run(st, before).Some? then SaidBy(Run(st, before).value, last) else []
  }

  lemma {:induction false} SpokenConcat(st: seq<Tag>, a: seq<Token>, b: seq<Token>)
    requires Run(st, a).Some?
    ensures Spoken(st, a + b) == Spoken(st, a) + Spoken(Run(st, a).value, b)
    decreases |b|
  {
    hide Run, SaidBy;
    if b == [] {
      assert a + b == a;
    } else {
      assert (a + b)[..|a + b| - 1] == a + b[..|b| - 1];
      SpokenConcat(st, a, b[..|b| - 1]);
      RunConcat(st, a, b[..|b| - 1]);
    }
  }

  lemma SpokenOne(st: seq<Tag>, tok: Token)
    ensures Spoken(st, [tok]) == SaidBy(st, tok)
  {
    hide SaidBy;
    assert [tok][..0] == [];
    assert Spoken(st, []) == [] && Run(st, []) == Some(st);
  }

  /** An element says that its tag is opened, and then what is in it with the tag around it. */
  lemma ElementSpoken(st: seq<Tag>, tag: Tag, attr: string, inner: seq<Token>)
    requires Neutral(inner)
    ensures Spoken(st, Element(tag, attr, inner)) == [Opened(attr, st + [tag])] + Spoken(st + [tag], inner)
  {
    hide Spoken, Run;
    RunOne(st, Open(tag, attr));
    RunConcat(st, [Open(tag, attr)], inner);
    SpokenConcat(st, [Open(tag, attr)], inner);
    SpokenConcat(st, [Open(tag, attr)] + inner, [Close(tag)]);
    SpokenOne(st, Open(tag, attr));
    SpokenOne(st + [tag], Close(tag));
  }

  lemma LeafSpoken(st: seq<Tag>, tag: Tag, attr: string, pieces: seq<string>)
    ensures Neutral(Element(tag, attr, [Text(pieces)]))
    ensures Spoken(st, Element(tag, attr, [Text(pieces)])) == [Opened(attr, st + [tag])] + SayAll(pieces, st + [tag])
  {
    hide Spoken, Run, Element, Neutral;
    TextNeutral(pieces);
    ElementNeutral(tag, attr, [Text(pieces)]);
    ElementSpoken(st, tag, attr, [Text(pieces)]);
    SpokenOne(st + [tag], Text(pieces));
  }
}
