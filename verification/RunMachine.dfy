/**
 One run of a scenario (internal/engine/run.go, internal/engine/console.go).

 Submitting a step, classifying it after the settle window, its completion in the
 background, the same three for a console statement, opening and closing sessions, the
 end of setup and the closing flag are each one critical section under the run's mutex,
 and they interleave freely. Each is one `Action` here; `Apply` says what it does. An
 action whose goroutine does not exist leaves the state alone, so every sequence of
 actions is a run and nothing is assumed about their order.
 */
module RunMachine {
  import opened Options

  datatype StepStatus = Pending | Running | Blocked | Done | Failed {
    predicate InFlight() { Running? || Blocked? }
    predicate Ended() { Done? || Failed? }
  }

  datatype Expectation = AnyOutcome | Succeeds | Blocks | Errors | Deadlocks | TimesOut

  datatype ErrKind = KindDeadlock | KindTimeout | KindOther

  datatype Verdict = NoVerdict | Match | Mismatch

  datatype RunStatus = Preparing | Ready | InProgress | Finished | SetupFailed | ClosedStatus

  datatype StepResult = StepResult(
    actor: string, want: Expectation, status: StepStatus, error: Option<ErrKind>,
    wasBlocked: bool, actual: Expectation, verdict: Verdict)

  datatype Entry = Entry(session: ConnId, status: StepStatus, error: Option<ErrKind>, wasBlocked: bool)

  /** A session is an actor of the scenario or a standalone console connection. */
  datatype ConnId = Actor(name: string) | Session(n: nat)

  /** One connection: `stepIndex` and `consoleId` are 1-based, 0 meaning none. */
  datatype Conn = Conn(busy: bool, stepIndex: nat, consoleId: nat, connected: bool)

  /** A statement handed to a background goroutine. */
  datatype Task = StepTask(index: nat) | EntryTask(index: nat)

  /** `inFlight` are the statements still executing, `settling` the calls of Step and Console
      that have not taken their second critical section, `dialing` the sessions being opened.
      `conns` keeps a closed session's connection: its goroutine still holds it. */
  datatype State = State(
    status: RunStatus, closed: bool, setupDone: bool, boxReady: bool,
    cursor: nat, steps: seq<StepResult>,
    conns: map<ConnId, Conn>, consoles: seq<nat>, consoleSeq: nat, entries: seq<Entry>,
    inFlight: set<Task>, settling: set<Task>, dialing: set<nat>)

  const MAX_SESSIONS := 8

  // ---- verdicts

  function Classify(st: StepResult): Expectation {
    match st.status
    case Blocked | Running => Blocks
    case Done => Succeeds
    case Failed =>
      if st.error == Some(KindDeadlock) then Deadlocks
      else if st.error == Some(KindTimeout) then TimesOut
      else Errors
    case Pending => AnyOutcome
  }

  predicate MatchesExpectation(want: Expectation, got: Expectation) {
    want == got || (want == Errors && (got == Deadlocks || got == TimesOut))
  }

  function Evaluate(st: StepResult): StepResult {
    var actual := Classify(st);
    st.(actual := actual,
        verdict :=
          if st.want == AnyOutcome then NoVerdict
          else if MatchesExpectation(st.want, actual) then Match
          else if st.want == Blocks && st.wasBlocked then Match
          else Mismatch)
  }

  /** The verdict as the scenario's author reads it, from four facts and nothing else. */
  function VerdictOf(want: Expectation, status: StepStatus, error: Option<ErrKind>, wasBlocked: bool): Verdict {
    if want == AnyOutcome then NoVerdict
    else if
      match want
      case Succeeds => status == Done
      case Blocks => wasBlocked
      case Errors => status == Failed
      case Deadlocks => status == Failed && error == Some(KindDeadlock)
      case TimesOut => status == Failed && error == Some(KindTimeout)
    then Match else Mismatch
  }

  /** `evaluateLocked` reaches that verdict for every step that is blocked or has ended. */
  lemma EvaluateMeaning(st: StepResult)
    requires st.status.Ended() || (st.status == Blocked && st.wasBlocked)
    ensures Evaluate(st).verdict == VerdictOf(st.want, st.status, st.error, st.wasBlocked)
    ensures st.want == Blocks ==> (Evaluate(st).verdict == Match <==> st.wasBlocked)
  {
  }

  // ---- the critical sections

  datatype Reply =
    | Accepted(task: Task)
    | RunClosed
    | NotUsable(status: RunStatus)
    | NoMoreSteps
    | UnknownSession
    | NotConnected
    | Busy(stepIndex: nat)

  function Submitted(st: StepResult): StepResult {
    st.(status := Running, error := None, verdict := NoVerdict, actual := AnyOutcome)
  }

  /** The first section of Step. */
  function SubmitStep(s: State): (State, Reply) {
    if s.closed then (s, RunClosed)
    else if s.status == Preparing || s.status == SetupFailed then (s, NotUsable(s.status))
    else if s.cursor >= |s.steps| then (s, NoMoreSteps)
    else
      var i := s.cursor;
      var a := Actor(s.steps[i].actor);
      if a !in s.conns then (s, UnknownSession)
      else if s.conns[a].busy then (s, Busy(s.conns[a].stepIndex))
      else
        (s.(cursor := i + 1, status := InProgress,
            steps := s.steps[i := Submitted(s.steps[i])],
            conns := s.conns[a := s.conns[a].(busy := true, stepIndex := i + 1)],
            inFlight := s.inFlight + {StepTask(i)}, settling := s.settling + {StepTask(i)}),
         Accepted(StepTask(i)))
  }

  function AsBlocked(st: StepResult): StepResult { Evaluate(st.(status := Blocked, wasBlocked := true)) }

  /** The second section of Step, after the settle window. */
  function SettleStep(s: State, i: nat): State {
    if StepTask(i) !in s.settling || i >= |s.steps| then s
    else
      var s1 := s.(settling := s.settling - {StepTask(i)});
      if s.steps[i].status == Running then s1.(steps := s.steps[i := AsBlocked(s.steps[i])]) else s1
  }

  function WithOutcome(st: StepResult, err: Option<ErrKind>): StepResult {
    Evaluate(if err.Some? then st.(status := Failed, error := err) else st.(status := Done))
  }

  ghost predicate AnyBusy(conns: map<ConnId, Conn>) {
    exists id :: id in conns && id.Actor? && conns[id].busy
  }

  /** The section of execute that records the outcome. */
  ghost function CompleteStep(s: State, i: nat, err: Option<ErrKind>): State {
    if StepTask(i) !in s.inFlight || i >= |s.steps| || Actor(s.steps[i].actor) !in s.conns then s
    else
      var a := Actor(s.steps[i].actor);
      var conns := s.conns[a := s.conns[a].(busy := false)];
      var finished := s.cursor >= |s.steps| && !AnyBusy(conns);
      s.(steps := s.steps[i := WithOutcome(s.steps[i], err)], conns := conns,
         inFlight := s.inFlight - {StepTask(i)},
         status := if finished && s.status == InProgress then Finished else s.status)
  }

  predicate Listed(s: State, id: ConnId) {
    id in s.conns && (id.Session? ==> id.n in s.consoles)
  }

  /** The first section of Console. */
  function SubmitConsole(s: State, id: ConnId): (State, Reply) {
    if s.closed then (s, RunClosed)
    else if s.status == Preparing then (s, NotUsable(s.status))
    else if !Listed(s, id) then (s, UnknownSession)
    else if !s.conns[id].connected then (s, NotConnected)
    else if s.conns[id].busy then (s, Busy(s.conns[id].stepIndex))
    else
      var i := |s.entries|;
      (s.(entries := s.entries + [Entry(id, Running, None, false)],
          conns := s.conns[id := s.conns[id].(busy := true, consoleId := i + 1)],
          inFlight := s.inFlight + {EntryTask(i)}, settling := s.settling + {EntryTask(i)}),
       Accepted(EntryTask(i)))
  }

  function SettleConsole(s: State, i: nat): State {
    if EntryTask(i) !in s.settling || i >= |s.entries| then s
    else
      var s1 := s.(settling := s.settling - {EntryTask(i)});
      if s.entries[i].status == Running
      then s1.(entries := s.entries[i := s.entries[i].(status := Blocked, wasBlocked := true)]) else s1
  }

  /** The section of executeConsole: unlike a step's, it never finishes the run. */
  function CompleteConsole(s: State, i: nat, err: Option<ErrKind>): State {
    if EntryTask(i) !in s.inFlight || i >= |s.entries| || s.entries[i].session !in s.conns then s
    else
      var e := s.entries[i];
      var e' := if err.Some? then e.(status := Failed, error := err) else e.(status := Done);
      s.(entries := s.entries[i := e'],
         conns := s.conns[e.session := s.conns[e.session].(busy := false, consoleId := 0)],
         inFlight := s.inFlight - {EntryTask(i)})
  }

  /** The first section of OpenSession: the cap is checked before dialing. */
  function BeginOpen(s: State): State {
    if s.closed || !s.boxReady || |s.consoles| >= MAX_SESSIONS then s
    else s.(consoleSeq := s.consoleSeq + 1, dialing := s.dialing + {s.consoleSeq + 1})
  }

  /** Its second section, once the connection is up. */
  function RegisterSession(s: State, n: nat): State {
    if n !in s.dialing then s
    else s.(dialing := s.dialing - {n}, consoles := s.consoles + [n],
            conns := s.conns[Session(n) := Conn(false, 0, 0, true)])
  }

  function Without(q: seq<nat>, n: nat): seq<nat> {
    if q == [] then [] else if q[0] == n then q[1..] else [q[0]] + Without(q[1..], n)
  }

  function CloseSession(s: State, n: nat): State {
    if n !in s.consoles then s else s.(consoles := Without(s.consoles, n))
  }

  function CloseRun(s: State): State {
    if s.closed then s else s.(closed := true, status := ClosedStatus)
  }

  /** The section that ends setup. It does not look at the closed flag. */
  function FinishSetup(s: State, ok: bool): State {
    if s.setupDone then s else s.(setupDone := true, status := if ok then Ready else SetupFailed)
  }

  datatype Action =
    | DoSubmitStep
    | DoSettleStep(i: nat)
    | DoCompleteStep(i: nat, err: Option<ErrKind>)
    | DoSubmitConsole(id: ConnId)
    | DoSettleConsole(i: nat)
    | DoCompleteConsole(i: nat, err: Option<ErrKind>)
    | DoBeginOpen
    | DoRegister(n: nat)
    | DoDialFails(n: nat)
    | DoCloseSession(n: nat)
    | DoClose
    | DoBoxReady
    | DoDialActor(name: string)
    | DoFinishSetup(ok: bool)

  ghost function Apply(s: State, a: Action): State {
    match a
    case DoSubmitStep => SubmitStep(s).0
    case DoSettleStep(i) => SettleStep(s, i)
    case DoCompleteStep(i, err) => CompleteStep(s, i, err)
    case DoSubmitConsole(id) => SubmitConsole(s, id).0
    case DoSettleConsole(i) => SettleConsole(s, i)
    case DoCompleteConsole(i, err) => CompleteConsole(s, i, err)
    case DoBeginOpen => BeginOpen(s)
    case DoRegister(n) => RegisterSession(s, n)
    case DoDialFails(n) => s.(dialing := s.dialing - {n})
    case DoCloseSession(n) => CloseSession(s, n)
    case DoClose => CloseRun(s)
    case DoBoxReady => s.(boxReady := true)
    case DoDialActor(name) =>
      if Actor(name) in s.conns then s.(conns := s.conns[Actor(name) := s.conns[Actor(name)].(connected := true)])
      else s
    case DoFinishSetup(ok) => FinishSetup(s, ok)
  }

  ghost function Play(s: State, acts: seq<Action>): State
    decreases |acts|
  {
    if acts == [] then s else Apply(Play(s, acts[..|acts| - 1]), acts[|acts| - 1])
  }

  /** A run as New lays it out. */
  ghost predicate Initial(s: State) {
    && s.status == Preparing && !s.closed && !s.setupDone && s.cursor == 0
    && (forall i :: 0 <= i < |s.steps| ==> Untouched(s.steps[i]))
    && (forall id :: id in s.conns ==> id.Actor? && s.conns[id] == Conn(false, 0, 0, false))
    && s.consoles == [] && s.entries == [] && s.inFlight == {} && s.settling == {} && s.dialing == {}
  }

  predicate Untouched(st: StepResult) {
    st.status == Pending && st.error == None && !st.wasBlocked && st.actual == AnyOutcome && st.verdict == NoVerdict
  }

  // ---- what every reachable state satisfies

  /** Steps before the cursor have been submitted; the rest are pending and untouched. */
  ghost predicate CursorSplits(s: State) {
    && s.cursor <= |s.steps|
    && (forall i :: 0 <= i < s.cursor ==> s.steps[i].status != Pending)
    && (forall i :: s.cursor <= i < |s.steps| ==> Untouched(s.steps[i]))
  }

  /** Exactly the running and blocked statements have a goroutine. */
  ghost predicate FlightIsStatus(s: State) {
    && (forall i: nat :: StepTask(i) in s.inFlight <==> i < |s.steps| && s.steps[i].status.InFlight())
    && (forall i: nat :: EntryTask(i) in s.inFlight <==> i < |s.entries| && s.entries[i].status.InFlight())
    && (forall i :: 0 <= i < |s.entries| ==> s.entries[i].status != Pending)
  }

  function ConnOf(s: State, t: Task): ConnId
    requires if t.StepTask? then t.index < |s.steps| else t.index < |s.entries|
  {
    if t.StepTask? then Actor(s.steps[t.index].actor) else s.entries[t.index].session
  }

  predicate Exists(s: State, t: Task) { if t.StepTask? then t.index < |s.steps| else t.index < |s.entries| }

  /** The statement a busy connection is busy with. */
  function Occupant(c: Conn): Option<Task> {
    if c.consoleId > 0 then Some(EntryTask(c.consoleId - 1))
    else if c.stepIndex > 0 then Some(StepTask(c.stepIndex - 1))
    else None
  }

  predicate Occupies(s: State, t: Task, id: ConnId) {
    Exists(s, t) && ConnOf(s, t) == id && id in s.conns && s.conns[id].busy && Occupant(s.conns[id]) == Some(t)
  }

  /** Every statement in flight occupies its connection, which is then busy. */
  ghost predicate FlightsOccupy(s: State) {
    forall t :: t in s.inFlight ==> Exists(s, t) && Occupies(s, t, ConnOf(s, t))
  }

  /** A busy connection has its one statement in flight, an idle one no console statement. */
  ghost predicate BusyHasFlight(s: State) {
    forall id :: id in s.conns ==>
      if s.conns[id].busy
      then Occupant(s.conns[id]).Some? && Occupant(s.conns[id]).value in s.inFlight
           && Occupies(s, Occupant(s.conns[id]).value, id)
      else s.conns[id].consoleId == 0
  }

  /** An actor's step index is past every step it has been given. */
  ghost predicate LatestStep(s: State) {
    forall i :: 0 <= i < s.cursor <= |s.steps| ==>
      Actor(s.steps[i].actor) in s.conns && i < s.conns[Actor(s.steps[i].actor)].stepIndex
  }

  /** The run's status against what has happened. */
  ghost predicate StatusFits(s: State) {
    && (!s.setupDone ==> s.status == Preparing || s.status == ClosedStatus)
    && (s.setupDone ==> s.status != Preparing)
    && (s.status == ClosedStatus ==> s.closed)
    && (s.cursor > 0 ==> s.status == InProgress || s.status == Finished || s.status == ClosedStatus)
    && (s.cursor > 0 ==> s.setupDone)
    && (s.status == Finished ==> s.cursor == |s.steps| && forall i :: 0 <= i < |s.steps| ==> s.steps[i].status.Ended())
  }

  /** A running step has no verdict yet; a blocked or ended one has the verdict of its facts. */
  predicate Judged(st: StepResult) {
    match st.status
    case Pending => true
    case Running => st.verdict == NoVerdict && !st.wasBlocked && st.error == None
    case Blocked =>
      && st.wasBlocked && st.error == None
      && st.verdict == VerdictOf(st.want, Blocked, None, true)
    case _ => st.verdict == VerdictOf(st.want, st.status, st.error, st.wasBlocked) && st.actual == Classify(st)
  }

  ghost predicate AllJudged(s: State) {
    forall i :: 0 <= i < |s.steps| ==> Judged(s.steps[i])
  }

  ghost predicate Sessions(s: State) {
    && (forall n :: n in s.consoles ==> n <= s.consoleSeq && n !in s.dialing)
    && (forall n :: n in s.dialing ==> n <= s.consoleSeq && Session(n) !in s.conns)
    && (forall id :: id in s.conns && id.Session? ==> id.n <= s.consoleSeq)
    && (forall t :: t in s.settling ==> Exists(s, t))
  }

  /** What the steps and entries record. */
  ghost predicate Ledger(s: State) { CursorSplits(s) && FlightIsStatus(s) && AllJudged(s) }

  /** Which connection is busy with what. */
  ghost predicate Occupancy(s: State) { FlightsOccupy(s) && BusyHasFlight(s) }

  ghost predicate Inv(s: State) {
    Ledger(s) && Occupancy(s) && LatestStep(s) && StatusFits(s) && Sessions(s)
  }

  lemma InitialInv(s: State)
    requires Initial(s)
    ensures Inv(s)
  {
  }

  // ---- frames: what the groups depend on

  predicate SameActors(s: State, s': State) {
    |s'.steps| == |s.steps| && forall i :: 0 <= i < |s.steps| ==> s'.steps[i].actor == s.steps[i].actor
  }

  lemma LatestStepFrame(s: State, s': State)
    requires LatestStep(s) && SameActors(s, s') && s'.cursor == s.cursor
    requires forall id :: id in s.conns && id.Actor? ==>
               id in s'.conns && s.conns[id].stepIndex == s'.conns[id].stepIndex
    ensures LatestStep(s')
  {
  }

  lemma OccupancyFrame(s: State, s': State)
    requires Occupancy(s) && SameActors(s, s') && s'.conns == s.conns && s'.inFlight == s.inFlight
    requires |s'.entries| == |s.entries|
    requires forall i :: 0 <= i < |s.entries| ==> s'.entries[i].session == s.entries[i].session
    ensures Occupancy(s')
  {
    assert forall t :: Exists(s, t) ==> Exists(s', t) && ConnOf(s', t) == ConnOf(s, t);
    assert forall t, id :: Occupies(s, t, id) ==> Occupies(s', t, id);
  }

  lemma StatusFrame(s: State, s': State)
    requires StatusFits(s) && s'.status == s.status && s'.closed == s.closed && s'.setupDone == s.setupDone
    requires s'.steps == s.steps && s'.cursor == s.cursor
    ensures StatusFits(s')
  {
  }

  lemma SessionsFrame(s: State, s': State)
    requires Sessions(s) && s'.consoles == s.consoles && s'.consoleSeq == s.consoleSeq && s'.dialing == s.dialing
    requires s'.conns.Keys == s.conns.Keys && s'.settling <= s.settling
    requires |s'.steps| == |s.steps| && |s'.entries| == |s.entries|
    ensures Sessions(s')
  {
    assert forall t :: Exists(s, t) ==> Exists(s', t);
  }

  // ---- submitting a step

  lemma SubmitStepLedger(s: State)
    requires Ledger(s)
    ensures Ledger(SubmitStep(s).0)
  {
  }

  lemma SubmitStepOccupancy(s: State)
    requires CursorSplits(s) && FlightIsStatus(s) && Occupancy(s)
    ensures Occupancy(SubmitStep(s).0)
  {
  }

  lemma SubmitStepLatest(s: State)
    requires LatestStep(s)
    ensures LatestStep(SubmitStep(s).0)
  {
    var s' := SubmitStep(s).0;
    if s' != s {
      var i := s.cursor;
      SubmittedKeepsActor(s.steps[i]);
      LatestStepAdvances(s, s', Actor(s.steps[i].actor));
    }
  }

  lemma LatestStepAdvances(s: State, s': State, a: ConnId)
    requires LatestStep(s) && SameActors(s, s') && s.cursor < |s.steps| && s'.cursor == s.cursor + 1
    requires a == Actor(s.steps[s.cursor].actor) && a in s.conns
    requires s'.conns == s.conns[a := s.conns[a].(busy := true, stepIndex := s.cursor + 1)]
    ensures LatestStep(s')
  {
  }

  lemma SubmittedKeepsActor(st: StepResult)
    ensures Submitted(st).actor == st.actor && Submitted(st).status == Running
  {
  }

  lemma SubmitStepRest(s: State)
    requires StatusFits(s) && Sessions(s)
    ensures StatusFits(SubmitStep(s).0) && Sessions(SubmitStep(s).0)
  {
    hide Submitted;
  }

  lemma SubmitStepKeeps(s: State)
    requires Inv(s)
    ensures Inv(SubmitStep(s).0)
  {
    hide Occupancy, LatestStep, StatusFits, Sessions, FlightIsStatus, AllJudged, SubmitStep, CursorSplits;
    SubmitStepLedger(s);
    SubmitStepOccupancy(s);
    SubmitStepLatest(s);
    SubmitStepRest(s);
  }

  // ---- the settle window of a step

  lemma BlockedIsJudged(st: StepResult)
    requires st.status == Running && Judged(st)
    ensures var st' := AsBlocked(st);
            st'.status == Blocked && st'.wasBlocked && Judged(st') && st'.actor == st.actor && st'.want == st.want
  {
  }

  lemma SettleStepLedger(s: State, i: nat)
    requires Ledger(s)
    ensures Ledger(SettleStep(s, i))
  {
    hide AsBlocked;
    if i < |s.steps| && s.steps[i].status == Running { BlockedIsJudged(s.steps[i]); }
  }

  lemma SettleStepStatus(s: State, i: nat)
    requires StatusFits(s)
    ensures StatusFits(SettleStep(s, i))
  {
    hide AsBlocked;
  }

  lemma SettleStepKeeps(s: State, i: nat)
    requires Inv(s)
    ensures Inv(SettleStep(s, i))
  {
    hide CursorSplits, FlightIsStatus, AllJudged, Occupancy, LatestStep, StatusFits, Sessions,
      Classify, MatchesExpectation;
    SettleStepLedger(s, i);
    SettleStepStatus(s, i);
    OccupancyFrame(s, SettleStep(s, i));
    SessionsFrame(s, SettleStep(s, i));
    LatestStepFrame(s, SettleStep(s, i));
  }

  // ---- the completion of a step

  lemma CompleteStepLedger(s: State, i: nat, err: Option<ErrKind>)
    requires Ledger(s)
    ensures Ledger(CompleteStep(s, i, err))
  {
    hide AnyBusy;
  }

  lemma CompleteStepOccupancy(s: State, i: nat, err: Option<ErrKind>)
    requires Occupancy(s)
    ensures Occupancy(CompleteStep(s, i, err))
  {
    hide AnyBusy, Evaluate;
  }

  /** With every step submitted, either some actor is busy or every other step has ended. */
  lemma NobodyBusyAllEnded(s: State, conns: map<ConnId, Conn>, i: nat)
    requires CursorSplits(s) && FlightIsStatus(s) && FlightsOccupy(s)
    requires s.cursor >= |s.steps| && i < |s.steps| && StepTask(i) in s.inFlight
    requires var a := Actor(s.steps[i].actor); a in s.conns && conns == s.conns[a := s.conns[a].(busy := false)]
    ensures AnyBusy(conns) || forall k :: 0 <= k < |s.steps| && k != i ==> s.steps[k].status.Ended()
  {
    assert Occupies(s, StepTask(i), Actor(s.steps[i].actor));
    if !(forall k :: 0 <= k < |s.steps| && k != i ==> s.steps[k].status.Ended()) {
      var k: nat :| k < |s.steps| && k != i && !s.steps[k].status.Ended();
      assert StepTask(k) in s.inFlight;
      assert conns[Actor(s.steps[k].actor)].busy;
    }
  }

  lemma CompleteStepStatus(s: State, i: nat, err: Option<ErrKind>)
    requires CursorSplits(s) && FlightIsStatus(s) && FlightsOccupy(s) && StatusFits(s)
    ensures StatusFits(CompleteStep(s, i, err))
  {
    hide Evaluate, AnyBusy, FlightsOccupy;
    var s' := CompleteStep(s, i, err);
    if s'.status == Finished && s.status != Finished {
      NobodyBusyAllEnded(s, s'.conns, i);
      OutcomeEnds(s.steps[i], err);
    }
  }

  lemma OutcomeEnds(st: StepResult, err: Option<ErrKind>)
    ensures var st' := WithOutcome(st, err);
            st'.status.Ended() && st'.actor == st.actor && st'.want == st.want && st'.wasBlocked == st.wasBlocked
  {
  }

  lemma CompleteStepKeeps(s: State, i: nat, err: Option<ErrKind>)
    requires Inv(s)
    ensures Inv(CompleteStep(s, i, err))
  {
    hide CursorSplits, FlightIsStatus, AllJudged, FlightsOccupy, BusyHasFlight, LatestStep, StatusFits,
      AnyBusy, WithOutcome, Sessions;
    CompleteStepLedger(s, i, err);
    CompleteStepOccupancy(s, i, err);
    CompleteStepStatus(s, i, err);
    if i < |s.steps| { OutcomeEnds(s.steps[i], err); }
    SessionsFrame(s, CompleteStep(s, i, err));
    LatestStepFrame(s, CompleteStep(s, i, err));
  }

  // ---- console statements

  lemma SubmitConsoleLedger(s: State, id: ConnId)
    requires Ledger(s)
    ensures Ledger(SubmitConsole(s, id).0)
  {
  }

  lemma SubmitConsoleOccupancy(s: State, id: ConnId)
    requires FlightIsStatus(s) && Occupancy(s)
    ensures Occupancy(SubmitConsole(s, id).0)
  {
  }

  lemma SubmitConsoleKeeps(s: State, id: ConnId)
    requires Inv(s)
    ensures Inv(SubmitConsole(s, id).0)
  {
    hide CursorSplits, AllJudged, FlightIsStatus, Occupancy, LatestStep, StatusFits;
    SubmitConsoleLedger(s, id);
    SubmitConsoleOccupancy(s, id);
    StatusFrame(s, SubmitConsole(s, id).0);
    LatestStepFrame(s, SubmitConsole(s, id).0);
  }

  lemma SettleConsoleLedger(s: State, i: nat)
    requires Ledger(s)
    ensures Ledger(SettleConsole(s, i))
  {
  }

  lemma SettleConsoleKeeps(s: State, i: nat)
    requires Inv(s)
    ensures Inv(SettleConsole(s, i))
  {
    hide Ledger, Occupancy, LatestStep, StatusFits, Sessions;
    SettleConsoleLedger(s, i);
    OccupancyFrame(s, SettleConsole(s, i));
    StatusFrame(s, SettleConsole(s, i));
    SessionsFrame(s, SettleConsole(s, i));
    LatestStepFrame(s, SettleConsole(s, i));
  }

  lemma CompleteConsoleLedger(s: State, i: nat, err: Option<ErrKind>)
    requires Ledger(s)
    ensures Ledger(CompleteConsole(s, i, err))
  {
  }

  lemma CompleteConsoleOccupancy(s: State, i: nat, err: Option<ErrKind>)
    requires Occupancy(s)
    ensures Occupancy(CompleteConsole(s, i, err))
  {
  }

  lemma CompleteConsoleKeeps(s: State, i: nat, err: Option<ErrKind>)
    requires Inv(s)
    ensures Inv(CompleteConsole(s, i, err))
  {
    hide Ledger, Occupancy, LatestStep, StatusFits, Sessions;
    CompleteConsoleLedger(s, i, err);
    CompleteConsoleOccupancy(s, i, err);
    StatusFrame(s, CompleteConsole(s, i, err));
    SessionsFrame(s, CompleteConsole(s, i, err));
    LatestStepFrame(s, CompleteConsole(s, i, err));
  }

  // ---- sessions, setup and close

  lemma {:induction false} WithoutIsPart(q: seq<nat>, n: nat)
    ensures forall m :: m in Without(q, n) ==> m in q
  {
    if q != [] && q[0] != n { WithoutIsPart(q[1..], n); }
  }

  lemma LedgerFrame(s: State, s': State)
    requires Ledger(s) && s'.steps == s.steps && s'.cursor == s.cursor
           && s'.entries == s.entries && s'.inFlight == s.inFlight
    ensures Ledger(s')
  {
  }

  lemma RegisterKeeps(s: State, n: nat)
    requires Inv(s)
    ensures Inv(RegisterSession(s, n))
  {
    hide Ledger, Occupancy, LatestStep, StatusFits;
    LedgerFrame(s, RegisterSession(s, n));
    RegisterOccupancy(s, n);
    StatusFrame(s, RegisterSession(s, n));
    LatestStepFrame(s, RegisterSession(s, n));
  }

  lemma RegisterOccupancy(s: State, n: nat)
    requires Occupancy(s) && Sessions(s)
    ensures Occupancy(RegisterSession(s, n))
  {
  }

  lemma DialActorKeeps(s: State, name: string)
    requires Inv(s)
    ensures Inv(Apply(s, DoDialActor(name)))
  {
    hide Ledger, Occupancy, LatestStep, StatusFits, Sessions;
    LedgerFrame(s, Apply(s, DoDialActor(name)));
    DialActorOccupancy(s, name);
    StatusFrame(s, Apply(s, DoDialActor(name)));
    SessionsFrame(s, Apply(s, DoDialActor(name)));
    LatestStepFrame(s, Apply(s, DoDialActor(name)));
  }

  lemma DialActorOccupancy(s: State, name: string)
    requires Occupancy(s)
    ensures Occupancy(Apply(s, DoDialActor(name)))
  {
  }

  lemma OtherActionsSessions(s: State, a: Action)
    requires Sessions(s) && StatusFits(s)
    requires a.DoBeginOpen? || a.DoDialFails? || a.DoCloseSession? || a.DoClose? || a.DoBoxReady? || a.DoFinishSetup?
    ensures Sessions(Apply(s, a)) && StatusFits(Apply(s, a))
  {
    hide Without;
    if a.DoCloseSession? { WithoutIsPart(s.consoles, a.n); }
  }

  lemma OtherActionsKeep(s: State, a: Action)
    requires Inv(s)
    requires a.DoBeginOpen? || a.DoDialFails? || a.DoCloseSession? || a.DoClose? || a.DoBoxReady? || a.DoFinishSetup?
    ensures Inv(Apply(s, a))
  {
    hide Ledger, Occupancy, LatestStep, Sessions, StatusFits;
    var s' := Apply(s, a);
    LedgerFrame(s, s');
    OccupancyFrame(s, s');
    LatestStepFrame(s, s');
    OtherActionsSessions(s, a);
  }

  lemma ActionsKeep(s: State, a: Action)
    requires Inv(s)
    ensures Inv(Apply(s, a))
  {
    hide Inv;
    match a
    case DoSubmitStep => SubmitStepKeeps(s);
    case DoSettleStep(i) => SettleStepKeeps(s, i);
    case DoCompleteStep(i, err) => CompleteStepKeeps(s, i, err);
    case DoSubmitConsole(id) => SubmitConsoleKeeps(s, id);
    case DoSettleConsole(i) => SettleConsoleKeeps(s, i);
    case DoCompleteConsole(i, err) => CompleteConsoleKeeps(s, i, err);
    case DoRegister(n) => RegisterKeeps(s, n);
    case DoDialActor(name) => DialActorKeeps(s, name);
    case _ => OtherActionsKeep(s, a);
  }

  /** Every state any interleaving can reach satisfies the invariant. */
  lemma {:induction false} ReachableInv(s: State, acts: seq<Action>)
    requires Initial(s)
    ensures Inv(Play(s, acts))
    decreases |acts|
  {
    hide Inv, Apply;
    if acts == [] {
      InitialInv(s);
    } else {
      ReachableInv(s, acts[..|acts| - 1]);
      ActionsKeep(Play(s, acts[..|acts| - 1]), acts[|acts| - 1]);
    }
  }
}
