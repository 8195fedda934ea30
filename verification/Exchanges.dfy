/**
 Whole exchanges: a command, its response, and an ERR packet that may cut the response
 short at any point. The main results say for exactly which exchanges every packet is
 read as what it is, and that the statement map follows the dialogue.
 */
module Exchanges {
  import opened Bytes
  import opened WireReader
  import opened Decoder
  import opened Frames
  import opened Dialogue
  import opened Options

  datatype Request =
    | Query(sql: bytes)
    | Prepare(sql: bytes)
    | Execute(id: nat, args: bytes)
    | Close(id: nat)
    | Reset(id: nat)
    | InitDb(name: bytes)
    | Quit
    | Ping
    | ResetConnection

  /** The protocol's command codes. */
  function Code(q: Request): byte {
    match q
    case Quit => 0x01
    case InitDb(_) => 0x02
    case Query(_) => 0x03
    case Ping => 0x0e
    case Prepare(_) => 0x16
    case Execute(_, _) => 0x17
    case Close(_) => 0x19
    case Reset(_) => 0x1a
    case ResetConnection => 0x1f
  }

  function Body(q: Request): bytes {
    match q
    case Query(sql) => sql
    case Prepare(sql) => sql
    case Execute(id, args) => ToLE(id, 4) + args
    case Close(id) => ToLE(id, 4)
    case Reset(id) => ToLE(id, 4)
    case InitDb(name) => name
    case _ => []
  }

  function RequestBytes(q: Request): bytes { [Code(q)] + Body(q) }

  predicate RequestFits(q: Request) {
    (q.Execute? || q.Close? || q.Reset?) ==> q.id < 0x1_0000_0000
  }

  function RequestEvent(q: Request, stmts: map<nat, bytes>): Event {
    var e := Plain(Command(Code(q)));
    match q
    case Query(sql) => e.(query := sql)
    case Prepare(sql) => e.(query := sql)
    case Execute(id, _) => e.(query := if id in stmts then stmts[id] else [], stmtId := id)
    case Close(id) => e.(stmtId := id)
    case Reset(id) => e.(stmtId := id)
    case InitDb(name) => e.(info := name)
    case _ => e
  }

  function AfterRequest(s: State, q: Request): State {
    var s0 := s.(lastCommand := Code(q), phase := if q.Close? || q.Quit? then RespNone else RespFirst);
    match q
    case Prepare(sql) => s0.(pendingPrep := sql)
    case Close(id) => s0.(stmts := s.stmts - {id})
    case _ => s0
  }

  lemma RequestRead(s: State, q: Request)
    requires RequestFits(q)
    ensures OnCommand(s, 0, RequestBytes(q)) == (AfterRequest(s, q), RequestEvent(q, s.stmts))
  {
    hide TakeUint, ToLE;
    var p := RequestBytes(q);
    assert p[1..] == Body(q);
    if q.Execute? || q.Close? || q.Reset? {
      Widths();
      var rest := if q.Execute? then q.args else [];
      assert p[1..] == ToLE(q.id, 4) + rest;
      UintHead(p, 1, q.id, 4, rest);
    }
  }

  // ---- responses

  datatype Reply =
    | NoReply
    | Single(ok: OkInfo)
    | Chain(elems: seq<Element>)
    | Infile(name: bytes, ok: OkInfo)
    | PrepareReply(r: Prepared)

  datatype Cut = Cut(at: nat, err: ErrInfo)

  datatype Exchange = Exchange(request: Request, reply: Reply, cut: Option<Cut>)

  predicate LastOk(ok: OkInfo) { ok.Fits() && !Announces(ok.status) }

  /** Which responses the protocol allows to which command. */
  ghost predicate ReplyFits(q: Request, reply: Reply) {
    match q
    case Query(_) =>
      || (reply.Chain? && reply.elems != [] && ChainFits(false, reply.elems))
      || (reply.Infile? && LastOk(reply.ok))
    case Execute(_, _) => reply.Chain? && reply.elems != [] && ChainFits(true, reply.elems)
    case Prepare(_) => reply.PrepareReply? && reply.r.Fits()
    case Close(_) => reply.NoReply?
    case Quit => reply.NoReply?
    case _ => reply.Single? && LastOk(reply.ok)
  }

  /** The response when no ERR packet cuts it short. The final OK of a LOAD DATA LOCAL INFILE
      follows the file, which the client sends without a command of its own. */
  ghost function ReplyFrames(dep: bool, q: Request, reply: Reply): seq<Frame>
    requires ReplyFits(q, reply)
  {
    match reply
    case NoReply => []
    case Single(ok) => [OkFrame(ok)]
    case Chain(elems) => ChainFrames(dep, q.Execute?, elems)
    case Infile(name, ok) => [Frame([0xFB] + name, Plain(LocalInfile)), OkFrame(ok)]
    case PrepareReply(r) => PrepareFrames(dep, q.sql, r)
  }

  /** How much of the response is read right. */
  ghost function SafeLength(dep: bool, q: Request, reply: Reply): nat
    requires ReplyFits(q, reply)
  {
    match reply
    case Chain(elems) => ChainSafe(dep, q.Execute?, elems)
    case Infile(_, _) => 1
    case _ => |ReplyFrames(dep, q, reply)|
  }

  ghost predicate ExchangeFits(dep: bool, x: Exchange) {
    && RequestFits(x.request)
    && ReplyFits(x.request, x.reply)
    && (x.cut.Some? ==> x.cut.value.err.Fits() && x.cut.value.at < |ReplyFrames(dep, x.request, x.reply)|)
  }

  ghost function Sent(dep: bool, x: Exchange): seq<Frame>
    requires ExchangeFits(dep, x)
  {
    var full := ReplyFrames(dep, x.request, x.reply);
    if x.cut.None? then full else full[..x.cut.value.at] + [ErrFrame(x.cut.value.err)]
  }

  /** Exactly which exchanges the decoder stays in step with. An uncut LOAD DATA LOCAL INFILE
      is not among them: its final OK arrives when nothing is expected. */
  ghost predicate Trackable(dep: bool, x: Exchange)
    requires ExchangeFits(dep, x)
  {
    if x.cut.Some? then x.cut.value.at <= SafeLength(dep, x.request, x.reply)
    else if x.reply.Chain? then ChainTrackable(dep, x.reply.elems)
    else !x.reply.Infile?
  }

  lemma InfileRead(dep: bool, s: State, name: bytes, ok: OkInfo)
    requires s.phase == RespFirst && ok.Fits()
    ensures Misread(dep, s, [Frame([0xFB] + name, Plain(LocalInfile)), OkFrame(ok)]) == 1
  {
    hide TakeLenEncInt, OkEvent;
    var f := [Frame([0xFB] + name, Plain(LocalInfile)), OkFrame(ok)];
    var s1 := OnResponse(dep, s, f[0].packet).0;
    assert s1 == s.(phase := RespNone);
    assert f[1..] == [OkFrame(ok)];
    assert OnResponse(dep, s1, OkFrame(ok).packet).1 == Plain(Unsolicited);
    assert Misread(dep, s1, f[1..]) == 0;
  }

  lemma ReplyRead(dep: bool, s: State, q: Request, reply: Reply)
    requires RequestFits(q) && ReplyFits(q, reply)
    ensures var f := ReplyFrames(dep, q, reply);
            && Misread(dep, AfterRequest(s, q), f) == SafeLength(dep, q, reply)
            && (Misread(dep, AfterRequest(s, q), f) == |f| ==> After(dep, AfterRequest(s, q), f).phase == RespNone)
  {
    hide OnResponse, ChainFits, ChainFrames, ChainSafe, PrepareFrames, OkFrame;
    var s1 := AfterRequest(s, q);
    match reply
    case NoReply =>
    case Single(ok) => OkReplyRead(dep, s1, ok);
    case Chain(elems) => ChainRead(dep, s1, q.Execute?, elems);
    case Infile(name, ok) => InfileRead(dep, s1, name, ok);
    case PrepareReply(r) => PrepareRead(dep, s1, r);
  }

  lemma OkReplyRead(dep: bool, s: State, ok: OkInfo)
    requires s.phase == RespFirst && s.lastCommand != COM_STMT_PREPARE && LastOk(ok)
    ensures Misread(dep, s, [OkFrame(ok)]) == 1 && After(dep, s, [OkFrame(ok)]).phase == RespNone
  {
    ElementRead(dep, s, Done(ok));
  }

  /** For every state, every well-formed exchange, with or without DEPRECATE_EOF and with an
      error allowed at any point: all packets become the events they truly are (roles, row
      values, row totals, error fields) if and only if the exchange is trackable, and then
      nothing is awaited any more. */
  lemma ExchangeTracked(dep: bool, s: State, x: Exchange)
    requires ExchangeFits(dep, x)
    ensures OnCommand(s, 0, RequestBytes(x.request)) == (AfterRequest(s, x.request), RequestEvent(x.request, s.stmts))
    ensures var s1 := AfterRequest(s, x.request);
            && (Misread(dep, s1, Sent(dep, x)) == |Sent(dep, x)| <==> Trackable(dep, x))
            && (Trackable(dep, x) ==> After(dep, s1, Sent(dep, x)).phase == RespNone)
  {
    hide OnResponse, OnCommand, ChainFrames, ChainSafe, ChainTrackable, ChainFits, PrepareFrames, OkFrame, ErrFrame;
    RequestRead(s, x.request);
    ReplyRead(dep, s, x.request, x.reply);
    if x.cut.Some? {
      CutByErr(dep, AfterRequest(s, x.request), ReplyFrames(dep, x.request, x.reply), x.cut.value.at, x.cut.value.err);
    } else if x.reply.Chain? {
      ChainSafeIff(dep, x.request.Execute?, x.reply.elems);
    }
  }

  /** A LOAD DATA LOCAL INFILE that succeeds: its OK is reported as unsolicited. */
  lemma InfileOkIsUnsolicited(dep: bool, s: State)
    ensures var x := Exchange(Query([0x4c]), Infile([0x66], OkInfo(1, 0, 2, 0, [])), None);
            && ExchangeFits(dep, x) && !Trackable(dep, x)
            && OnResponse(dep, After(dep, AfterRequest(s, x.request), Sent(dep, x)[..1]), Sent(dep, x)[1].packet).1
               == Plain(Unsolicited)
  {
    hide OkEvent, TakeLenEncInt;
    var x := Exchange(Query([0x4c]), Infile([0x66], OkInfo(1, 0, 2, 0, [])), None);
    var s1 := AfterRequest(s, x.request);
    assert Sent(dep, x)[..1] == [Sent(dep, x)[0]];
    ReadsOne(dep, s1, Sent(dep, x)[0]);
  }

  /** The column the two result sets below have, and a one-column set with no rows. */
  const COLUMN := ColumnSpec([], [], [], [0x61], [], 63, 11, 3, 0, 0)

  function NoRows(end: OkInfo): ResultSet { ResultSet([COLUMN], EofInfo(0, 2), [], end) }

  lemma NoRowsFit(end: OkInfo)
    requires end.Fits()
    ensures ResultSetFits(false, NoRows(end))
  {
  }

  /** A terminator of nine bytes, an OK packet with two characters of text: it is read as a row. */
  lemma LongEndIsReadAsARow(s: State)
    ensures var x := Exchange(Query([0x71]), Chain([Rows(NoRows(OkInfo(0, 0, 2, 0, [0x6f, 0x6b])))]), None);
            && ExchangeFits(true, x) && !Trackable(true, x)
            && var sent, s1 := Sent(true, x), AfterRequest(s, x.request);
               && |sent| == 3 && |sent[2].packet| == 9
               && OnResponse(true, After(true, s1, sent[..2]), sent[2].packet).1.kind == Row
  {
    hide OnResponse, Heading;
    var end := OkInfo(0, 0, 2, 0, [0x6f, 0x6b]);
    var x := Exchange(Query([0x71]), Chain([Rows(NoRows(end))]), None);
    var s1, rs := AfterRequest(s, x.request), NoRows(end);
    NineBytes();
    NoRowsFit(end);
    OneResult(true, rs);
    NoRowsSent(true, rs);
    HeadingRead(true, s1, rs);
    LongEndKind(InRows(s1, Defs(rs.columns), 0), rs);
  }

  lemma NineBytes()
    ensures |EncodeOk(0xFE, OkInfo(0, 0, 2, 0, [0x6f, 0x6b]))| == 9 && !Announces(2)
  {
    assert LenEncInt(0) == [0];
  }

  lemma LongEndKind(t: State, rs: ResultSet)
    requires t.phase == RespRows && rs.end.Fits() && |EncodeOk(0xFE, rs.end)| >= 9
    ensures OnResponse(true, t, EndFrame(true, rs).packet).1.kind == Row
  {
    hide RowValues, OkEvent;
  }

  lemma OneResult(dep: bool, rs: ResultSet)
    requires ResultSetFits(false, rs)
    ensures [Rows(rs)][1..] == []
    ensures !Announces(rs.end.status) ==>
              ChainFits(false, [Rows(rs)]) && ChainFrames(dep, false, [Rows(rs)]) == ResultSetFrames(dep, false, rs)
    ensures ChainTrackable(dep, [Rows(rs)]) ==> ElementTrackable(dep, Rows(rs), true)
  {
    hide ResultSetFits, ResultSetFrames, ElementTrackable;
    var one := [Rows(rs)];
    if !Announces(rs.end.status) {
      assert ChainFrames(dep, false, one) == ElementFrames(dep, false, one[0]) + ChainFrames(dep, false, one[1..]);
    }
    if ChainTrackable(dep, one) { assert ElementTrackable(dep, one[0], 0 == |one| - 1); }
  }

  lemma NoRowsSent(dep: bool, rs: ResultSet)
    requires ResultSetFits(false, rs) && rs.rows == [] && |rs.columns| == 1
    ensures ResultSetFrames(dep, false, rs) == Heading(dep, rs) + [EndFrame(dep, rs)]
    ensures |Heading(dep, rs)| == if dep then 2 else 3
  {
    hide EndFrame, BlockEnd, HeaderFrame, DefFrame;
    assert RowFrames(false, Defs(rs.columns), rs.rows) == [];
  }

  /** Without DEPRECATE_EOF, a result set that announces another result, an OK: the OK is reported as
      unsolicited. */
  lemma ResultAfterRowsIsUnsolicited(s: State)
    ensures var elems := [Rows(NoRows(OkInfo(0, 0, 10, 0, []))), Done(OkInfo(0, 0, 2, 0, []))];
            var x := Exchange(Query([0x71]), Chain(elems), None);
            && ExchangeFits(false, x) && !Trackable(false, x)
            && var sent, s1 := Sent(false, x), AfterRequest(s, x.request);
               && |sent| == 5
               && OnResponse(false, After(false, s1, sent[..4]), sent[4].packet).1 == Plain(Unsolicited)
  {
    hide OnResponse, Heading, ElementTrackable;
    var end, ok := OkInfo(0, 0, 10, 0, []), OkInfo(0, 0, 2, 0, []);
    var rs := NoRows(end);
    var elems := [Rows(rs), Done(ok)];
    var x := Exchange(Query([0x71]), Chain(elems), None);
    var s1 := AfterRequest(s, x.request);
    NoRowsFit(end);
    TwoResults(rs, ok);
    NoRowsSent(false, rs);
    ResultSetRead(false, s1, rs);
    OkKind(AfterResultSet(false, s1, rs), ok);
  }

  lemma OkKind(t: State, ok: OkInfo)
    requires t.phase == RespNone && ok.Fits()
    ensures OnResponse(false, t, OkFrame(ok).packet).1 == Plain(Unsolicited)
  {
    hide EncodeOk;
  }

  lemma TwoResults(rs: ResultSet, ok: OkInfo)
    requires ResultSetFits(false, rs) && Announces(rs.end.status) && LastOk(ok)
    ensures var elems := [Rows(rs), Done(ok)];
            && ChainFits(false, elems) && !ChainTrackable(false, elems)
            && ChainFrames(false, false, elems) == ResultSetFrames(false, false, rs) + [OkFrame(ok)]
  {
    hide ResultSetFits, ResultSetFrames, OkFrame;
    var elems := [Rows(rs), Done(ok)];
    assert elems[1..] == [Done(ok)] && elems[1..][1..] == [];
    assert forall i :: 0 <= i < |elems[1..]| ==> elems[1..][i] == elems[i + 1];
    assert ChainFrames(false, false, elems[1..])
        == ElementFrames(false, false, Done(ok)) + ChainFrames(false, false, []);
    assert !ElementTrackable(false, elems[0], 0 == |elems| - 1);
  }

  // ---- whole dialogues

  ghost function AfterExchange(dep: bool, s: State, x: Exchange): State
    requires ExchangeFits(dep, x)
  {
    After(dep, AfterRequest(s, x.request), Sent(dep, x))
  }

  ghost predicate DialogueFits(dep: bool, xs: seq<Exchange>) {
    forall i :: 0 <= i < |xs| ==> ExchangeFits(dep, xs[i])
  }

  ghost function AfterAll(dep: bool, s: State, xs: seq<Exchange>): State
    requires DialogueFits(dep, xs)
    decreases |xs|
  {
    if xs == [] then s
    else AfterExchange(dep, AfterAll(dep, s, xs[..|xs| - 1]), xs[|xs| - 1])
  }

  /** The i-th exchange of a dialogue, read in the state its predecessors left. */
  ghost predicate ReadAt(dep: bool, s: State, xs: seq<Exchange>, i: nat)
    requires DialogueFits(dep, xs) && i < |xs|
  {
    var t := AfterRequest(AfterAll(dep, s, xs[..i]), xs[i].request);
    Misread(dep, t, Sent(dep, xs[i])) == |Sent(dep, xs[i])|
  }

  /** A dialogue is read right throughout exactly when each exchange is trackable; one that is
      not does not put the decoder out of step with the next. */
  lemma DialogueTracked(dep: bool, s: State, xs: seq<Exchange>, i: nat)
    requires DialogueFits(dep, xs) && i < |xs|
    ensures ReadAt(dep, s, xs, i) <==> Trackable(dep, xs[i])
    ensures Trackable(dep, xs[i]) ==> AfterAll(dep, s, xs[..i + 1]).phase == RespNone
  {
    hide OnCommand, OnResponse, Sent, Trackable, ExchangeFits;
    ExchangeTracked(dep, AfterAll(dep, s, xs[..i]), xs[i]);
    assert xs[..i + 1][..i] == xs[..i];
  }

  // ---- the statement map

  lemma OtherRepliesKeepStatements(dep: bool, s: State, p: bytes)
    requires s.lastCommand != COM_STMT_PREPARE
    ensures OnResponse(dep, s, p).0.stmts == s.stmts && OnResponse(dep, s, p).0.lastCommand == s.lastCommand
  {
    hide OkEvent, TakeColumnDef, RowValues, TakeLenEncInt, EofEvent, ErrEvent;
  }

  lemma {:induction false} OtherResponsesKeepStatements(dep: bool, s: State, f: seq<Frame>)
    requires s.lastCommand != COM_STMT_PREPARE
    ensures After(dep, s, f).stmts == s.stmts
    decreases |f|
  {
    hide OnResponse;
    if f != [] {
      OtherRepliesKeepStatements(dep, s, f[0].packet);
      OtherResponsesKeepStatements(dep, OnResponse(dep, s, f[0].packet).0, f[1..]);
    }
  }

  predicate InMetadata(s: State) { s.phase in {RespNone, RespPrepareParams, RespPrepareColumns} }

  lemma MetadataKeepsStatements(dep: bool, s: State, p: bytes)
    requires InMetadata(s)
    ensures OnResponse(dep, s, p).0.stmts == s.stmts && InMetadata(OnResponse(dep, s, p).0)
  {
    hide OnFirst, OnRow, TakeColumnDef, ErrEvent;
  }

  lemma {:induction false} MetadataKeepsStatementsThroughout(dep: bool, s: State, f: seq<Frame>)
    requires InMetadata(s)
    ensures After(dep, s, f).stmts == s.stmts
    decreases |f|
  {
    hide OnResponse;
    if f != [] {
      MetadataKeepsStatements(dep, s, f[0].packet);
      MetadataKeepsStatementsThroughout(dep, OnResponse(dep, s, f[0].packet).0, f[1..]);
    }
  }

  /** The exchange prepared statement `id` from `sql`: its PrepareOK was sent. */
  ghost predicate Prepares(x: Exchange, id: nat, sql: bytes) {
    && x.request.Prepare? && x.request.sql == sql
    && x.reply.PrepareReply? && x.reply.r.id == id
    && (x.cut.Some? ==> x.cut.value.at > 0)
  }

  /** The exchange gives `id` a new meaning or takes it away. */
  ghost predicate Touches(x: Exchange, id: nat) {
    (x.request.Prepare? && Prepares(x, id, x.request.sql)) || x.request == Close(id)
  }

  lemma PrepareExchangeStatements(dep: bool, s: State, x: Exchange)
    requires ExchangeFits(dep, x) && x.request.Prepare?
    ensures AfterExchange(dep, s, x).stmts
         == if x.cut.Some? && x.cut.value.at == 0 then s.stmts else s.stmts[x.reply.r.id := x.request.sql]
  {
    hide OnResponse, Block, PrepareOkFrame, ErrFrame;
    var s1, r := AfterRequest(s, x.request), x.reply.r;
    var sent := Sent(dep, x);
    if x.cut.Some? && x.cut.value.at == 0 {
      assert sent == [ErrFrame(x.cut.value.err)];
      ErrAlwaysEnds(dep, s1, x.cut.value.err);
    } else {
      var first := PrepareOkFrame(r.id, s1.pendingPrep, |r.params|, |r.columns|, r.warnings);
      assert sent[0] == first;
      PrepareOkRead(dep, s1, r);
      assert [first][0] == first && [first][1..] == [];
      assert OnResponse(dep, s1, first.packet).0 == AfterPrepareOk(s1, r) by {
        assert After(dep, s1, [first]) == After(dep, OnResponse(dep, s1, first.packet).0, []);
      }
      MetadataKeepsStatementsThroughout(dep, AfterPrepareOk(s1, r), sent[1..]);
    }
  }

  /** What one exchange does to the statement map, trackable or not. */
  lemma ExchangeStatements(dep: bool, s: State, x: Exchange, id: nat)
    requires ExchangeFits(dep, x)
    ensures var after := AfterExchange(dep, s, x).stmts;
            if x.request == Close(id) then id !in after
            else if x.request.Prepare? && Prepares(x, id, x.request.sql) then id in after && after[id] == x.request.sql
            else (id in after <==> id in s.stmts) && (id in after ==> after[id] == s.stmts[id])
  {
    hide OnResponse, ReplyFrames, ReplyFits;
    if x.request.Prepare? {
      PrepareExchangeStatements(dep, s, x);
      assert x.reply.PrepareReply? by { PrepareReplies(dep, x); }
    } else {
      OtherResponsesKeepStatements(dep, AfterRequest(s, x.request), Sent(dep, x));
    }
  }

  lemma PrepareReplies(dep: bool, x: Exchange)
    requires ExchangeFits(dep, x) && x.request.Prepare?
    ensures x.reply.PrepareReply?
  {
  }

  /** `id` is open with `sql`: some exchange prepared it and none since has touched it. */
  ghost predicate OpenAs(xs: seq<Exchange>, id: nat, sql: bytes) {
    exists j :: 0 <= j < |xs| && Prepares(xs[j], id, sql) && forall k :: j < k < |xs| ==> !Touches(xs[k], id)
  }

  lemma OpenAsStep(xs: seq<Exchange>, id: nat, sql: bytes)
    requires xs != []
    ensures var last := xs[|xs| - 1];
            OpenAs(xs, id, sql) <==> Prepares(last, id, sql) || (!Touches(last, id) && OpenAs(xs[..|xs| - 1], id, sql))
  {
    var n := |xs| - 1;
    var front := xs[..n];
    if OpenAs(xs, id, sql) && !Prepares(xs[n], id, sql) {
      var j :| 0 <= j < |xs| && Prepares(xs[j], id, sql) && forall k :: j < k < |xs| ==> !Touches(xs[k], id);
      assert front[j] == xs[j];
      assert forall k :: j < k < n ==> front[k] == xs[k];
    }
    if !Touches(xs[n], id) && OpenAs(front, id, sql) {
      var j :| 0 <= j < |front| && Prepares(front[j], id, sql)
               && forall k :: j < k < |front| ==> !Touches(front[k], id);
      assert xs[j] == front[j];
      assert forall k :: j < k < n ==> xs[k] == front[k];
    }
  }

  /** Through any well-formed dialogue, `stmts` holds exactly the statements prepared and not
      closed since, each with the SQL that prepared it. */
  lemma {:induction false} StatementsAreTheOpenOnes(dep: bool, s: State, xs: seq<Exchange>, id: nat, sql: bytes)
    requires DialogueFits(dep, xs) && s.stmts == map[]
    ensures var stmts := AfterAll(dep, s, xs).stmts;
            (id in stmts && stmts[id] == sql) <==> OpenAs(xs, id, sql)
    decreases |xs|
  {
    hide ExchangeFits, AfterExchange, Prepares;
    if xs != [] {
      var n := |xs| - 1;
      StatementsAreTheOpenOnes(dep, s, xs[..n], id, sql);
      ExchangeStatements(dep, AfterAll(dep, s, xs[..n]), xs[n], id);
      PreparesOneSql(xs[n], id, sql);
      OpenAsStep(xs, id, sql);
    }
  }

  lemma PreparesOneSql(x: Exchange, id: nat, sql: bytes)
    ensures Prepares(x, id, sql) <==> x.request.Prepare? && Prepares(x, id, x.request.sql) && x.request.sql == sql
  {
  }

  /** Every execute of an open statement is shown with the SQL that prepared it. */
  lemma ExecuteShowsItsSql(dep: bool, s: State, xs: seq<Exchange>, id: nat, sql: bytes, args: bytes)
    requires DialogueFits(dep, xs) && s.stmts == map[] && id < 0x1_0000_0000 && OpenAs(xs, id, sql)
    ensures OnCommand(AfterAll(dep, s, xs), 0, RequestBytes(Execute(id, args))).1.query == sql
  {
    hide OnCommand, ExchangeFits;
    StatementsAreTheOpenOnes(dep, s, xs, id, sql);
    RequestRead(AfterAll(dep, s, xs), Execute(id, args));
  }

  // ---- the class, driven through an exchange

  /** `ConnDecoder` fed with an exchange ends where the specification says, and reports exactly
      the true events when the exchange is trackable. */
  method Follow(d: ConnDecoder, ghost x: Exchange, request: bytes, packets: seq<bytes>)
    returns (command: Event, events: seq<Event>)
    requires ExchangeFits(d.deprecateEOF, x)
    requires request == RequestBytes(x.request) && packets == Packets(Sent(d.deprecateEOF, x))
    modifies d
    ensures d.Now() == AfterExchange(d.deprecateEOF, old(d.Now()), x)
    ensures command == RequestEvent(x.request, old(d.stmts))
    ensures |events| == |packets|
    ensures (forall i :: 0 <= i < |events| ==> events[i] == Sent(d.deprecateEOF, x)[i].event)
       <==> Trackable(d.deprecateEOF, x)
  {
    hide OnCommand, OnResponse, ExchangeFits, Sent, Trackable;
    ghost var dep, frames := d.deprecateEOF, Sent(d.deprecateEOF, x);
    ExchangeTracked(dep, d.Now(), x);
    command := d.DecodeCommand(0, request);
    ghost var s1 := d.Now();
    events := [];
    for i := 0 to |packets|
      invariant |events| == i
      invariant After(dep, s1, frames) == After(dep, d.Now(), frames[i..])
      invariant Misread(dep, s1, frames) == |frames|
           <==> (forall j :: 0 <= j < i ==> events[j] == frames[j].event)
                && Misread(dep, d.Now(), frames[i..]) == |frames| - i
    {
      assert frames[i..][0] == frames[i] && frames[i..][1..] == frames[i + 1..];
      var e := d.DecodeResponse(packets[i]);
      events := events + [e];
    }
    assert frames[|packets|..] == [];
  }
}
