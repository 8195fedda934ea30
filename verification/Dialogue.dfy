/**
 Whole dialogues: how far the decoder stays in step with a server it only observes.

 Every server packet of a well-formed exchange is fed to `OnResponse`; `Misread` is the
 position of the first packet whose event is not the one the packet truly is.
 */
module Dialogue {
  import opened Bytes
  import opened WireReader
  import opened BinaryRow
  import opened Decoder
  import opened Frames

  // ---- feeding packets

  function Packets(frames: seq<Frame>): (p: seq<bytes>)
    ensures |p| == |frames|
  {
    seq(|frames|, i requires 0 <= i < |frames| => frames[i].packet)
  }

  function After(dep: bool, s: State, frames: seq<Frame>): State
    decreases |frames|
  {
    if frames == [] then s else After(dep, OnResponse(dep, s, frames[0].packet).0, frames[1..])
  }

  /** How many leading packets become exactly the event they are. */
  function Misread(dep: bool, s: State, frames: seq<Frame>): (n: nat)
    ensures n <= |frames|
    decreases |frames|
  {
    if frames == [] then 0
    else
      var (s1, e) := OnResponse(dep, s, frames[0].packet);
      if e != frames[0].event then 0 else 1 + Misread(dep, s1, frames[1..])
  }

  /** Every packet is read as what it is, and the decoder ends in state t. */
  ghost predicate Reads(dep: bool, s: State, frames: seq<Frame>, t: State) {
    Misread(dep, s, frames) == |frames| && After(dep, s, frames) == t
  }

  lemma {:induction false} MisreadConcat(dep: bool, s: State, f: seq<Frame>, g: seq<Frame>, t: State)
    requires Reads(dep, s, f, t)
    ensures Misread(dep, s, f + g) == |f| + Misread(dep, t, g)
    ensures After(dep, s, f + g) == After(dep, t, g)
    decreases |f|
  {
    if f == [] {
      assert f + g == g;
    } else {
      assert (f + g)[1..] == f[1..] + g;
      MisreadConcat(dep, OnResponse(dep, s, f[0].packet).0, f[1..], g, t);
    }
  }

  lemma ReadsOne(dep: bool, s: State, f: Frame)
    requires OnResponse(dep, s, f.packet).1 == f.event
    ensures Reads(dep, s, [f], OnResponse(dep, s, f.packet).0)
  {
    var t := OnResponse(dep, s, f.packet).0;
    assert [f][1..] == [];
    assert Misread(dep, t, []) == 0 && After(dep, t, []) == t;
  }

  /** Reading frames[i..] is reading frames[i] and then the rest. */
  lemma ReadsFrom(dep: bool, s: State, frames: seq<Frame>, i: nat, next: State, u: State)
    requires i < |frames| && OnResponse(dep, s, frames[i].packet) == (next, frames[i].event)
    requires Reads(dep, next, frames[i + 1..], u)
    ensures Reads(dep, s, frames[i..], u)
  {
    assert frames[i..][0] == frames[i] && frames[i..][1..] == frames[i + 1..];
  }

  lemma ReadsThen(dep: bool, s: State, f: seq<Frame>, t: State, g: seq<Frame>, u: State)
    requires Reads(dep, s, f, t) && Reads(dep, t, g, u)
    ensures Reads(dep, s, f + g, u)
  {
    MisreadConcat(dep, s, f, g, t);
  }

  /** An ERR packet is read as one in every state, and ends the response. */
  lemma ErrAlwaysEnds(dep: bool, s: State, e: ErrInfo)
    requires e.Fits()
    ensures Reads(dep, s, [ErrFrame(e)], ResetResult(s))
  {
    ErrRoundTrip(e);
    ReadsOne(dep, s, ErrFrame(e));
  }

  /** Cutting a response short with an ERR packet is read right exactly up to the point
      where the uncut response would be misread. */
  lemma {:induction false} CutByErr(dep: bool, s: State, frames: seq<Frame>, k: nat, e: ErrInfo)
    requires k <= |frames| && e.Fits()
    ensures Misread(dep, s, frames[..k] + [ErrFrame(e)]) == k + 1 <==> k <= Misread(dep, s, frames)
    ensures After(dep, s, frames[..k] + [ErrFrame(e)]).phase == RespNone
    decreases k
  {
    var sent := frames[..k] + [ErrFrame(e)];
    if k == 0 {
      assert sent == [ErrFrame(e)];
      ErrAlwaysEnds(dep, s, e);
    } else {
      assert sent[1..] == frames[1..][..k - 1] + [ErrFrame(e)];
      CutByErr(dep, OnResponse(dep, s, frames[0].packet).0, frames[1..], k - 1, e);
    }
  }

  // ---- metadata blocks

  /** The state after i column definitions of a result set. */
  function InDefs(dep: bool, s: State, defs: seq<ColumnDef>, i: nat): State
    requires i <= |defs|
  {
    s.(phase := if dep && i == |defs| then RespRows else RespColumnDefs,
       columnsWanted := |defs|, columnsSeen := i, columns := defs[..i], rowCount := 0, awaitColumnEOF := !dep)
  }

  lemma DefEvent(dep: bool, s: State, c: ColumnSpec)
    requires c.Fits() && s.phase in {RespPrepareParams, RespPrepareColumns, RespColumnDefs}
    ensures OnResponse(dep, s, DefFrame(c).packet) == (AfterDefinition(dep, s, c.Def()), DefFrame(c).event)
  {
    ColumnStartsWithDef(c);
    ColumnRoundTrip(c);
  }

  lemma InDefsStep(dep: bool, s: State, defs: seq<ColumnDef>, i: nat)
    requires i < |defs|
    ensures AfterDefinition(dep, InDefs(dep, s, defs, i), defs[i]) == InDefs(dep, s, defs, i + 1)
  {
    assert defs[..i] + [defs[i]] == defs[..i + 1];
  }

  lemma {:induction false} DefsRead(dep: bool, s: State, cols: seq<ColumnSpec>, i: nat)
    requires AllFit(cols) && i <= |cols| && 0 < |cols|
    ensures Reads(dep, InDefs(dep, s, Defs(cols), i), DefFrames(cols)[i..], InDefs(dep, s, Defs(cols), |cols|))
    decreases |cols| - i
  {
    var defs, f := Defs(cols), DefFrames(cols);
    if i < |cols| {
      DefEvent(dep, InDefs(dep, s, defs, i), cols[i]);
      InDefsStep(dep, s, defs, i);
      DefsRead(dep, s, cols, i + 1);
      ReadsFrom(dep, InDefs(dep, s, defs, i), f, i, InDefs(dep, s, defs, i + 1), InDefs(dep, s, defs, |cols|));
    } else {
      assert f[i..] == [];
    }
  }

  // ---- result sets

  /** The state after the heading and i rows. */
  function InRows(s: State, defs: seq<ColumnDef>, i: nat): State {
    s.(phase := RespRows, columnsWanted := |defs|, columnsSeen := |defs|, columns := defs, rowCount := i,
       awaitColumnEOF := false)
  }

  lemma HeaderRead(dep: bool, s: State, defs: seq<ColumnDef>)
    requires s.phase == RespFirst && s.lastCommand != COM_STMT_PREPARE
    requires 0 < |defs| < 0x8000_0000_0000_0000
    ensures Reads(dep, s, [HeaderFrame(|defs|)], InDefs(dep, s, defs, 0))
  {
    var p := LenEncInt(|defs|);
    assert p[0..] == p + [];
    LenEncIntHead(p, 0, |defs|, []);
    ReadsOne(dep, s, HeaderFrame(|defs|));
  }

  lemma HeadingRead(dep: bool, s: State, rs: ResultSet)
    requires s.phase == RespFirst && s.lastCommand != COM_STMT_PREPARE
    requires 0 < |rs.columns| < 0x8000_0000_0000_0000 && AllFit(rs.columns)
    ensures Reads(dep, s, Heading(dep, rs), InRows(s, Defs(rs.columns), 0))
  {
    var defs := Defs(rs.columns);
    var full := InDefs(dep, s, defs, |defs|);
    HeaderRead(dep, s, defs);
    DefsRead(dep, s, rs.columns, 0);
    assert DefFrames(rs.columns)[0..] == DefFrames(rs.columns);
    assert defs[..|defs|] == defs;
    if dep {
      assert DefFrames(rs.columns) + [] == DefFrames(rs.columns);
    } else {
      ReadsOne(dep, full, BlockEnd(rs.defsEnd));
      ReadsThen(dep, InDefs(dep, s, defs, 0), DefFrames(rs.columns), full, [BlockEnd(rs.defsEnd)], InRows(s, defs, 0));
    }
    ReadsThen(dep, s, [HeaderFrame(|defs|)], InDefs(dep, s, defs, 0),
              DefFrames(rs.columns) + if dep then [] else [BlockEnd(rs.defsEnd)], InRows(s, defs, 0));
  }

  lemma TextOptionsRoundTrip(cells: seq<Cell>)
    requires forall i :: 0 <= i < |cells| ==> TextCellFits(cells[i])
    ensures TextCells(TextOptions(cells)) == cells && TextRowOk(TextOptions(cells))
  {
  }

  lemma RowRead(dep: bool, s: State, defs: seq<ColumnDef>, cells: seq<Cell>, i: nat)
    requires defs != [] && CellsFit(s.lastCommand == COM_STMT_EXECUTE, defs, cells)
    ensures var f := RowFrame(s.lastCommand == COM_STMT_EXECUTE, defs, cells, i + 1);
            OnResponse(dep, InRows(s, defs, i), f.packet) == (InRows(s, defs, i + 1), f.event)
  {
    var p := RowBytes(s.lastCommand == COM_STMT_EXECUTE, defs, cells);
    if s.lastCommand == COM_STMT_EXECUTE {
      BinaryRowRoundTrip(defs, cells);
    } else {
      TextOptionsRoundTrip(cells);
      assert p[0..] == p;
      TextRowRoundTrip(p, 0, TextOptions(cells));
    }
  }

  lemma {:induction false} RowsRead(dep: bool, s: State, defs: seq<ColumnDef>, rows: seq<seq<Cell>>, i: nat)
    requires defs != [] && i <= |rows|
    requires forall j :: 0 <= j < |rows| ==> CellsFit(s.lastCommand == COM_STMT_EXECUTE, defs, rows[j])
    ensures Reads(dep, InRows(s, defs, i), RowFrames(s.lastCommand == COM_STMT_EXECUTE, defs, rows)[i..],
                  InRows(s, defs, |rows|))
    decreases |rows| - i
  {
    var frames := RowFrames(s.lastCommand == COM_STMT_EXECUTE, defs, rows);
    if i < |rows| {
      RowRead(dep, s, defs, rows[i], i);
      RowsRead(dep, s, defs, rows, i + 1);
      ReadsFrom(dep, InRows(s, defs, i), frames, i, InRows(s, defs, i + 1), InRows(s, defs, |rows|));
    } else {
      assert frames[i..] == [];
    }
  }

  /** The decoder's terminator test: an OK packet is recognised under the EOF header only
      when it is shorter than nine bytes. */
  predicate ShortEnd(dep: bool, rs: ResultSet)
    requires rs.end.Fits()
  {
    dep ==> |EncodeOk(0xFE, rs.end)| < 9
  }

  function AfterResultSet(dep: bool, s: State, rs: ResultSet): State {
    var t := InRows(s, Defs(rs.columns), |rs.rows|);
    if dep then AfterOk(t, rs.end.status) else t.(phase := RespNone)
  }

  lemma EndRead(dep: bool, s: State, rs: ResultSet)
    requires rs.end.Fits()
    ensures var t := InRows(s, Defs(rs.columns), |rs.rows|);
            if ShortEnd(dep, rs) then Reads(dep, t, [EndFrame(dep, rs)], AfterResultSet(dep, s, rs))
            else Misread(dep, t, [EndFrame(dep, rs)]) == 0
  {
    hide OkEvent, EofEvent, EncodeOk;
    var t := InRows(s, Defs(rs.columns), |rs.rows|);
    if dep { OkRoundTrip(0xFE, rs.end); } else { EofRoundTrip(rs.end.warnings, rs.end.status); }
    if ShortEnd(dep, rs) { ReadsOne(dep, t, EndFrame(dep, rs)); }
  }

  /** A result set is read packet by packet, up to and including a short terminator. */
  lemma ResultSetRead(dep: bool, s: State, rs: ResultSet)
    requires s.phase == RespFirst && s.lastCommand != COM_STMT_PREPARE
    requires ResultSetFits(s.lastCommand == COM_STMT_EXECUTE, rs)
    ensures var f := ResultSetFrames(dep, s.lastCommand == COM_STMT_EXECUTE, rs);
            if ShortEnd(dep, rs) then Reads(dep, s, f, AfterResultSet(dep, s, rs))
            else Misread(dep, s, f) == |f| - 1
  {
    var defs := Defs(rs.columns);
    var rows := RowFrames(s.lastCommand == COM_STMT_EXECUTE, defs, rs.rows);
    HeadingRead(dep, s, rs);
    RowsRead(dep, s, defs, rs.rows, 0);
    assert rows[0..] == rows;
    EndRead(dep, s, rs);
    MisreadConcat(dep, InRows(s, defs, 0), rows, [EndFrame(dep, rs)], InRows(s, defs, |rs.rows|));
    MisreadConcat(dep, s, Heading(dep, rs), rows + [EndFrame(dep, rs)], InRows(s, defs, 0));
  }

  // ---- chains of results

  datatype Element = Done(ok: OkInfo) | Rows(rs: ResultSet) {
    function End(): OkInfo { if Done? then ok else rs.end }

    predicate Fits(binary: bool) { if Done? then ok.Fits() else ResultSetFits(binary, rs) }
  }

  /** Each result announces the next one in its status, and only the last does not. */
  predicate ChainFits(binary: bool, elems: seq<Element>) {
    forall i :: 0 <= i < |elems| ==>
      elems[i].Fits(binary) && (Announces(elems[i].End().status) <==> i < |elems| - 1)
  }

  function ElementFrames(dep: bool, binary: bool, e: Element): (f: seq<Frame>)
    requires e.Fits(binary)
    ensures f != []
  {
    if e.Done? then [OkFrame(e.ok)] else ResultSetFrames(dep, binary, e.rs)
  }

  function ChainFrames(dep: bool, binary: bool, elems: seq<Element>): (f: seq<Frame>)
    requires ChainFits(binary, elems)
    ensures elems != [] ==> f != []
    decreases |elems|
  {
    if elems == [] then []
    else ElementFrames(dep, binary, elems[0]) + ChainFrames(dep, binary, elems[1..])
  }

  /** Where the first misread packet of a chain is: a long terminator is taken for a row,
      and without DEPRECATE_EOF whatever follows a result set is taken as unsolicited. */
  function ChainSafe(dep: bool, binary: bool, elems: seq<Element>): (n: nat)
    requires ChainFits(binary, elems)
    decreases |elems|
  {
    if elems == [] then 0
    else
      var n := |ElementFrames(dep, binary, elems[0])|;
      if elems[0].Rows? && !ShortEnd(dep, elems[0].rs) then n - 1
      else if elems[0].Rows? && !dep then n
      else n + ChainSafe(dep, binary, elems[1..])
  }

  lemma NobodyAsked(dep: bool, s: State, binary: bool, elems: seq<Element>)
    requires s.phase == RespNone && elems != [] && ChainFits(binary, elems)
    ensures Misread(dep, s, ChainFrames(dep, binary, elems)) == 0
  {
    var f := ElementFrames(dep, binary, elems[0])[0];
    assert f == if elems[0].Done? then OkFrame(elems[0].ok) else HeaderFrame(|elems[0].rs.columns|);
    assert OnResponse(dep, s, f.packet).1 == Plain(Unsolicited);
    assert ChainFrames(dep, binary, elems)[0] == f;
  }

  predicate EndsShort(dep: bool, binary: bool, e: Element)
    requires e.Fits(binary)
  {
    e.Rows? ==> ShortEnd(dep, e.rs)
  }

  function AfterElement(dep: bool, s: State, e: Element): State {
    if e.Done? then AfterOk(s, e.ok.status) else AfterResultSet(dep, s, e.rs)
  }

  lemma ElementRead(dep: bool, s: State, e: Element)
    requires s.phase == RespFirst && s.lastCommand != COM_STMT_PREPARE
    requires e.Fits(s.lastCommand == COM_STMT_EXECUTE)
    ensures var f := ElementFrames(dep, s.lastCommand == COM_STMT_EXECUTE, e);
            if EndsShort(dep, s.lastCommand == COM_STMT_EXECUTE, e) then Reads(dep, s, f, AfterElement(dep, s, e))
            else Misread(dep, s, f) == |f| - 1
  {
    if e.Done? {
      OkRoundTrip(0x00, e.ok);
      ReadsOne(dep, s, OkFrame(e.ok));
    } else {
      ResultSetRead(dep, s, e.rs);
    }
  }

  lemma ElementThen(dep: bool, s: State, binary: bool, e: Element, rest: seq<Frame>)
    requires s.phase == RespFirst && s.lastCommand != COM_STMT_PREPARE
    requires binary == (s.lastCommand == COM_STMT_EXECUTE) && e.Fits(binary)
    ensures var f := ElementFrames(dep, binary, e);
            if EndsShort(dep, binary, e) then
              && Misread(dep, s, f + rest) == |f| + Misread(dep, AfterElement(dep, s, e), rest)
              && After(dep, s, f + rest) == After(dep, AfterElement(dep, s, e), rest)
            else Misread(dep, s, f + rest) == |f| - 1
  {
    var f := ElementFrames(dep, binary, e);
    ElementRead(dep, s, e);
    if EndsShort(dep, binary, e) {
      MisreadConcat(dep, s, f, rest, AfterElement(dep, s, e));
    } else {
      MisreadPrefix(dep, s, f, rest);
    }
  }

  lemma {:induction false} ChainRead(dep: bool, s: State, binary: bool, elems: seq<Element>)
    requires s.phase == RespFirst && s.lastCommand != COM_STMT_PREPARE && elems != []
    requires binary == (s.lastCommand == COM_STMT_EXECUTE) && ChainFits(binary, elems)
    ensures var f := ChainFrames(dep, binary, elems);
            && Misread(dep, s, f) == ChainSafe(dep, binary, elems)
            && (Misread(dep, s, f) == |f| ==> After(dep, s, f).phase == RespNone)
    decreases |elems|
  {
    hide OnResponse, ElementFrames, EncodeOk;
    var tail := elems[1..];
    var rest := ChainFrames(dep, binary, tail);
    var t := AfterElement(dep, s, elems[0]);
    ElementThen(dep, s, binary, elems[0], rest);
    if EndsShort(dep, binary, elems[0]) && tail != [] {
      if elems[0].Done? || dep {
        ChainRead(dep, t, binary, tail);
      } else {
        NobodyAsked(dep, t, binary, tail);
      }
    }
  }

  /** Once misread, no continuation helps. */
  lemma {:induction false} MisreadPrefix(dep: bool, s: State, f: seq<Frame>, g: seq<Frame>)
    requires Misread(dep, s, f) < |f|
    ensures Misread(dep, s, f + g) == Misread(dep, s, f)
    decreases |f|
  {
    assert (f + g)[1..] == f[1..] + g;
    var (s1, e) := OnResponse(dep, s, f[0].packet);
    if e == f[0].event { MisreadPrefix(dep, s1, f[1..], g); }
  }

  predicate ElementTrackable(dep: bool, e: Element, last: bool) {
    e.Rows? ==> e.rs.end.Fits() && if dep then |EncodeOk(0xFE, e.rs.end)| < 9 else last
  }

  /** When a chain is read to its end: with DEPRECATE_EOF, every result set's terminator is
      under nine bytes; without, only the last result may be a result set. */
  ghost predicate ChainTrackable(dep: bool, elems: seq<Element>) {
    forall i :: 0 <= i < |elems| ==> ElementTrackable(dep, elems[i], i == |elems| - 1)
  }

  lemma TrackableTail(dep: bool, elems: seq<Element>)
    requires elems != []
    ensures ChainTrackable(dep, elems)
       <==> ElementTrackable(dep, elems[0], |elems| == 1) && ChainTrackable(dep, elems[1..])
  {
    var tail := elems[1..];
    assert forall i :: 0 <= i < |tail| ==> tail[i] == elems[i + 1];
    if ChainTrackable(dep, tail) && ElementTrackable(dep, elems[0], |elems| == 1) {
      forall i | 0 <= i < |elems| ensures ElementTrackable(dep, elems[i], i == |elems| - 1) {
        if i > 0 { assert ElementTrackable(dep, tail[i - 1], i - 1 == |tail| - 1); }
      }
    }
  }

  lemma {:induction false} ChainSafeIff(dep: bool, binary: bool, elems: seq<Element>)
    requires ChainFits(binary, elems)
    ensures ChainSafe(dep, binary, elems) <= |ChainFrames(dep, binary, elems)|
    ensures ChainSafe(dep, binary, elems) == |ChainFrames(dep, binary, elems)| <==> ChainTrackable(dep, elems)
    decreases |elems|
  {
    hide ElementFrames, EncodeOk;
    if elems != [] {
      ChainSafeIff(dep, binary, elems[1..]);
      TrackableTail(dep, elems);
    }
  }

  // ---- prepare responses

  function InBlock(s: State, i: nat): State {
    if s.phase == RespPrepareParams then s.(paramsSeen := i) else s.(columnsSeen := i)
  }

  predicate BlockOf(s: State, n: nat) {
    if s.phase == RespPrepareParams then s.paramsWanted == n
    else s.phase == RespPrepareColumns && s.columnsWanted == n
  }

  /** The state once i of the n definitions of a block are in, before any EOF. */
  function BlockDefs(dep: bool, s: State, i: nat, n: nat): State {
    if dep && i == n then AfterDefinitionEof(InBlock(s, i)) else InBlock(s, i)
  }

  lemma BlockStep(dep: bool, s: State, i: nat, n: nat, def: ColumnDef)
    requires BlockOf(s, n) && i < n
    ensures AfterDefinition(dep, InBlock(s, i), def) == BlockDefs(dep, s, i + 1, n)
  {
  }

  lemma {:induction false} BlockDefsRead(dep: bool, s: State, cols: seq<ColumnSpec>, i: nat)
    requires AllFit(cols) && i <= |cols| && BlockOf(s, |cols|)
    ensures Reads(dep, BlockDefs(dep, s, i, |cols|), DefFrames(cols)[i..], BlockDefs(dep, s, |cols|, |cols|))
    decreases |cols| - i
  {
    var n, f := |cols|, DefFrames(cols);
    if i < n {
      DefEvent(dep, InBlock(s, i), cols[i]);
      BlockStep(dep, s, i, n, cols[i].Def());
      BlockDefsRead(dep, s, cols, i + 1);
      ReadsFrom(dep, BlockDefs(dep, s, i, n), f, i, BlockDefs(dep, s, i + 1, n), BlockDefs(dep, s, n, n));
    } else {
      assert f[i..] == [];
    }
  }

  function AfterBlock(s: State, n: nat): State { AfterDefinitionEof(InBlock(s, n)) }

  lemma BlockRead(dep: bool, s: State, cols: seq<ColumnSpec>, eof: EofInfo)
    requires AllFit(cols) && cols != [] && BlockOf(s, |cols|) && InBlock(s, 0) == s
    ensures Reads(dep, s, Block(dep, cols, eof), AfterBlock(s, |cols|))
  {
    BlockDefsRead(dep, s, cols, 0);
    assert DefFrames(cols)[0..] == DefFrames(cols);
    if dep {
      assert DefFrames(cols) + [] == DefFrames(cols);
    } else {
      var t := InBlock(s, |cols|);
      ReadsOne(dep, t, BlockEnd(eof));
      ReadsThen(dep, s, DefFrames(cols), t, [BlockEnd(eof)], AfterBlock(s, |cols|));
    }
  }

  /** A block may be absent altogether. */
  lemma BlockReadOrAbsent(dep: bool, s: State, cols: seq<ColumnSpec>, eof: EofInfo, t: State)
    requires AllFit(cols)
    requires cols != [] ==> BlockOf(s, |cols|) && InBlock(s, 0) == s
    requires t == if cols == [] then s else AfterBlock(s, |cols|)
    ensures Reads(dep, s, Block(dep, cols, eof), t)
  {
    if cols == [] {
      assert Block(dep, cols, eof) == [];
    } else {
      BlockRead(dep, s, cols, eof);
    }
  }

  /** A prepare response: two blocks of definitions, each ended by an EOF packet unless the
      connection deprecates them. */
  datatype Prepared = Prepared(id: nat, params: seq<ColumnSpec>, paramsEnd: EofInfo,
                               columns: seq<ColumnSpec>, columnsEnd: EofInfo, warnings: nat)
  {
    predicate Fits() {
      && id < 0x1_0000_0000 && warnings < 0x1_0000
      && |params| < 0x1_0000 && |columns| < 0x1_0000
      && AllFit(params) && AllFit(columns) && paramsEnd.Fits() && columnsEnd.Fits()
    }
  }

  function PrepareFrames(dep: bool, sql: bytes, r: Prepared): seq<Frame>
    requires r.Fits()
  {
    [PrepareOkFrame(r.id, sql, |r.params|, |r.columns|, r.warnings)]
    + (Block(dep, r.params, r.paramsEnd) + Block(dep, r.columns, r.columnsEnd))
  }

  function AfterPrepareOk(s: State, r: Prepared): State {
    s.(stmts := s.stmts[r.id := s.pendingPrep], pendingPrep := [],
       paramsWanted := |r.params|, paramsSeen := 0, columnsWanted := |r.columns|, columnsSeen := 0, columns := [],
       phase := if |r.params| > 0 then RespPrepareParams else if |r.columns| > 0 then RespPrepareColumns else RespNone)
  }

  lemma PrepareOkRead(dep: bool, s: State, r: Prepared)
    requires s.phase == RespFirst && s.lastCommand == COM_STMT_PREPARE && r.Fits()
    ensures Reads(dep, s, [PrepareOkFrame(r.id, s.pendingPrep, |r.params|, |r.columns|, r.warnings)],
                  AfterPrepareOk(s, r))
  {
    Widths();
    var f := PrepareOkFrame(r.id, s.pendingPrep, |r.params|, |r.columns|, r.warnings);
    var p := f.packet;
    var w := ToLE(r.warnings, 2);
    var e4 := [0x00] + w;
    var e3 := ToLE(|r.params|, 2) + e4;
    var e2 := ToLE(|r.columns|, 2) + e3;
    ByteHead(p, 0, 0x00, ToLE(r.id, 4) + e2);
    UintHead(p, 1, r.id, 4, e2);
    UintHead(p, 5, |r.columns|, 2, e3);
    UintHead(p, 7, |r.params|, 2, e4);
    FixedHead(p, 9, [0x00], w);
    assert w == w + [];
    UintHead(p, 10, r.warnings, 2, []);
    assert OnPrepareOk(s, p) == (AfterPrepareOk(s, r), f.event);
    ReadsOne(dep, s, f);
  }

  /** A whole prepare response is read right, and leaves the statement under its id. */
  lemma PrepareRead(dep: bool, s: State, r: Prepared)
    requires s.phase == RespFirst && s.lastCommand == COM_STMT_PREPARE && r.Fits()
    ensures var f := PrepareFrames(dep, s.pendingPrep, r);
            && Misread(dep, s, f) == |f|
            && After(dep, s, f).phase == RespNone
  {
    hide OnResponse, PrepareOkFrame, Block;
    var s1 := AfterPrepareOk(s, r);
    var s2 := if r.params == [] then s1 else AfterBlock(s1, |r.params|);
    var s3 := if r.columns == [] then s2 else AfterBlock(s2, |r.columns|);
    PrepareOkRead(dep, s, r);
    BlockReadOrAbsent(dep, s1, r.params, r.paramsEnd, s2);
    BlockReadOrAbsent(dep, s2, r.columns, r.columnsEnd, s3);
    ReadsThen(dep, s1, Block(dep, r.params, r.paramsEnd), s2, Block(dep, r.columns, r.columnsEnd), s3);
    ReadsThen(dep, s, [PrepareOkFrame(r.id, s.pendingPrep, |r.params|, |r.columns|, r.warnings)], s1,
              Block(dep, r.params, r.paramsEnd) + Block(dep, r.columns, r.columnsEnd), s3);
  }
}
