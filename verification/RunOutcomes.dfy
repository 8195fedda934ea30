/**
 What each critical section does to a run, said from the action alone: the outcome that comes back is
 the outcome recorded, a refusal has its reason, and what was closed stays closed.
 */
module RunOutcomes {
  import opened Options
  import opened RunMachine
  import opened RunProperties

  /** The status a statement ends with. */
  function EndOf(err: Option<ErrKind>): StepStatus { if err.Some? then Failed else Done }

  // ---- steps

  /** When a step's statement comes back, what it came back with is what is recorded, and its verdict is
      the one that goes with it; its actor is idle and every other step is as it was. */
  lemma StepOutcomeIsRecorded(s: State, acts: seq<Action>, i: nat, err: Option<ErrKind>)
    requires Initial(s) && StepTask(i) in Play(s, acts).inFlight
    ensures var t, u := Play(s, acts), Play(s, acts + [DoCompleteStep(i, err)]);
            && i < |t.steps| == |u.steps|
            && u.steps[i].error == err && u.steps[i].status == EndOf(err)
            && u.steps[i].wasBlocked == t.steps[i].wasBlocked && u.steps[i].want == t.steps[i].want
            && u.steps[i].verdict == VerdictOf(t.steps[i].want, EndOf(err), err, t.steps[i].wasBlocked)
            && (forall k :: 0 <= k < |t.steps| && k != i ==> u.steps[k] == t.steps[k])
            && u.inFlight == t.inFlight - {StepTask(i)}
            && Actor(t.steps[i].actor) in u.conns && !u.conns[Actor(t.steps[i].actor)].busy
  {
    hide Play, Inv, AnyBusy, WithOutcome, Initial;
    var t := Play(s, acts);
    ReachableInv(s, acts);
    PlaySnoc(s, acts, DoCompleteStep(i, err));
    InFlightStep(t, i);
    OutcomeOf(t.steps[i], err);
  }

  lemma InFlightStep(t: State, i: nat)
    requires Inv(t) && StepTask(i) in t.inFlight
    ensures i < |t.steps| && Actor(t.steps[i].actor) in t.conns
    ensures t.steps[i].error == None && t.steps[i].status.InFlight()
  {
    hide BusyHasFlight, LatestStep, StatusFits, Sessions;
    assert Occupies(t, StepTask(i), ConnOf(t, StepTask(i)));
    assert Judged(t.steps[i]);
  }

  lemma OutcomeOf(st: StepResult, err: Option<ErrKind>)
    requires st.error == None
    ensures var st' := WithOutcome(st, err);
            && st'.error == err && st'.status == EndOf(err) && st'.wasBlocked == st.wasBlocked && st'.want == st.want
            && st'.verdict == VerdictOf(st.want, EndOf(err), err, st.wasBlocked)
  {
    var ended := if err.Some? then st.(status := Failed, error := err) else st.(status := Done);
    EvaluateMeaning(ended);
  }

  /** After the settle window a step that is still running is blocked, and judged as blocked; one that
      has ended is left alone. */
  lemma SettledIsBlocked(s: State, acts: seq<Action>, i: nat)
    requires Initial(s) && StepTask(i) in Play(s, acts).settling && i < |Play(s, acts).steps|
    ensures var t, u := Play(s, acts).steps[i], Play(s, acts + [DoSettleStep(i)]);
            && i < |u.steps|
            && (t.status != Running ==> u.steps[i] == t)
            && (t.status == Running ==>
                  && u.steps[i].status == Blocked && u.steps[i].wasBlocked && u.steps[i].actual == Blocks
                  && u.steps[i].verdict == VerdictOf(t.want, Blocked, None, true))
  {
    hide Play, Inv, AsBlocked, Initial;
    var t := Play(s, acts);
    ReachableInv(s, acts);
    PlaySnoc(s, acts, DoSettleStep(i));
    if t.steps[i].status == Running { BlockedAs(t, i); }
  }

  lemma BlockedAs(t: State, i: nat)
    requires Inv(t) && i < |t.steps| && t.steps[i].status == Running
    ensures var st := AsBlocked(t.steps[i]);
            && st.status == Blocked && st.wasBlocked && st.actual == Blocks
            && st.verdict == VerdictOf(t.steps[i].want, Blocked, None, true)
  {
    hide Occupancy, LatestStep, StatusFits, Sessions, CursorSplits, FlightIsStatus;
    assert Judged(t.steps[i]);
  }

  // ---- console statements

  /** A console statement in flight has no error yet. */
  ghost predicate EntriesClean(s: State) {
    forall i :: 0 <= i < |s.entries| && s.entries[i].status.InFlight() ==> s.entries[i].error == None
  }

  lemma {:induction false} ReachableClean(s: State, acts: seq<Action>)
    requires Initial(s)
    ensures EntriesClean(Play(s, acts))
    decreases |acts|
  {
    hide Apply, EntriesClean;
    if acts == [] {
      NoEntries(s);
    } else {
      ReachableClean(s, acts[..|acts| - 1]);
      CleanStep(Play(s, acts[..|acts| - 1]), acts[|acts| - 1]);
    }
  }

  lemma NoEntries(s: State)
    requires Initial(s)
    ensures EntriesClean(s)
  {
  }

  lemma CleanStep(s: State, a: Action)
    requires EntriesClean(s)
    ensures EntriesClean(Apply(s, a))
  {
    hide Submitted, AsBlocked, WithOutcome, AnyBusy, Without;
  }

  /** A console statement's outcome is recorded as it came back, and its session is idle again. */
  lemma ConsoleOutcomeIsRecorded(s: State, acts: seq<Action>, i: nat, err: Option<ErrKind>)
    requires Initial(s) && EntryTask(i) in Play(s, acts).inFlight
    ensures var t, u := Play(s, acts), Play(s, acts + [DoCompleteConsole(i, err)]);
            && i < |t.entries| == |u.entries|
            && u.entries[i] == Entry(t.entries[i].session, EndOf(err), err, t.entries[i].wasBlocked)
            && (forall k :: 0 <= k < |t.entries| && k != i ==> u.entries[k] == t.entries[k])
            && u.inFlight == t.inFlight - {EntryTask(i)} && u.status == t.status && u.steps == t.steps
            && t.entries[i].session in u.conns && !u.conns[t.entries[i].session].busy
  {
    hide Play, Inv, Initial;
    var t := Play(s, acts);
    ReachableInv(s, acts);
    ReachableClean(s, acts);
    PlaySnoc(s, acts, DoCompleteConsole(i, err));
    InFlightEntry(t, i);
  }

  lemma InFlightEntry(t: State, i: nat)
    requires Inv(t) && EntryTask(i) in t.inFlight
    ensures i < |t.entries| && t.entries[i].session in t.conns && t.entries[i].status.InFlight()
  {
    hide BusyHasFlight, LatestStep, StatusFits, Sessions, AllJudged;
    assert Occupies(t, EntryTask(i), ConnOf(t, EntryTask(i)));
  }

  /** After its settle window a console statement that is still running is blocked; one that has ended
      is left alone. */
  lemma SettledEntryIsBlocked(s: State, acts: seq<Action>, i: nat)
    requires EntryTask(i) in Play(s, acts).settling && i < |Play(s, acts).entries|
    ensures var t, u := Play(s, acts).entries[i], Play(s, acts + [DoSettleConsole(i)]);
            && i < |u.entries|
            && u.entries[i] == if t.status == Running then Entry(t.session, Blocked, t.error, true) else t
  {
    hide Play;
    PlaySnoc(s, acts, DoSettleConsole(i));
  }

  // ---- what is accepted

  /** Why a step may be refused, the first that applies. */
  lemma StepIsAcceptedIff(t: State)
    ensures SubmitStep(t).1 == RunClosed <==> t.closed
    ensures SubmitStep(t).1.NotUsable? <==> !t.closed && t.status in {Preparing, SetupFailed}
    ensures SubmitStep(t).1 == NoMoreSteps <==>
              !t.closed && t.status !in {Preparing, SetupFailed} && t.cursor >= |t.steps|
    ensures !SubmitStep(t).1.Accepted? ==> SubmitStep(t).0 == t
    ensures SubmitStep(t).1.Accepted? <==>
              && !t.closed && t.status !in {Preparing, SetupFailed} && t.cursor < |t.steps|
              && var a := Actor(t.steps[t.cursor].actor); a in t.conns && !t.conns[a].busy
    ensures SubmitStep(t).1.Accepted? ==>
              && SubmitStep(t).1 == Accepted(StepTask(t.cursor)) && SubmitStep(t).0.cursor == t.cursor + 1
              && SubmitStep(t).0.steps[t.cursor].status == Running && SubmitStep(t).0.status == InProgress
  {
  }

  /** A console statement is accepted for an idle, connected session that is an actor's or one not
      closed, in a run that is neither closed nor being prepared; it becomes the newest entry. */
  lemma ConsoleIsAcceptedIff(t: State, id: ConnId)
    ensures SubmitConsole(t, id).1.Accepted? <==>
              && !t.closed && t.status != Preparing
              && id in t.conns && (id.Session? ==> id.n in t.consoles) && t.conns[id].connected && !t.conns[id].busy
    ensures !SubmitConsole(t, id).1.Accepted? ==> SubmitConsole(t, id).0 == t
    ensures SubmitConsole(t, id).1.Accepted? ==>
              && SubmitConsole(t, id).1 == Accepted(EntryTask(|t.entries|))
              && SubmitConsole(t, id).0.entries == t.entries + [Entry(id, Running, None, false)]
    ensures SubmitConsole(t, id).1 == NotConnected <==>
              && !t.closed && t.status != Preparing
              && id in t.conns && (id.Session? ==> id.n in t.consoles) && !t.conns[id].connected
    ensures SubmitConsole(t, id).1.Busy? <==>
              && !t.closed && t.status != Preparing
              && id in t.conns && (id.Session? ==> id.n in t.consoles) && t.conns[id].connected && t.conns[id].busy
    ensures SubmitConsole(t, id).1.Busy? ==> SubmitConsole(t, id).1.stepIndex == t.conns[id].stepIndex
  {
  }

  /** Setup ends in ready or failed as it went. */
  lemma SetupEndsAsItWent(t: State, ok: bool)
    requires !t.setupDone
    ensures FinishSetup(t, ok).status == if ok then Ready else SetupFailed
  {
  }

  /** A session whose connection is up is listed last, and takes statements if the run does. */
  lemma OpenedSessionIsUsable(s: State, acts: seq<Action>, n: nat)
    requires n in Play(s, acts).dialing
    ensures var t, u := Play(s, acts), Play(s, acts + [DoRegister(n)]);
            && u.consoles == t.consoles + [n] && n !in u.dialing
            && (SubmitConsole(u, Session(n)).1.Accepted? <==> !t.closed && t.status != Preparing)
            && forall id :: id in t.conns && id != Session(n) ==> id in u.conns && u.conns[id] == t.conns[id]
  {
    hide Play;
    PlaySnoc(s, acts, DoRegister(n));
    ConsoleIsAcceptedIff(Play(s, acts + [DoRegister(n)]), Session(n));
  }

  // ---- what stays closed

  /** Closing a run closes it, says so, and touches nothing else. */
  lemma ClosingIs(s: State, acts: seq<Action>)
    requires !Play(s, acts).closed
    ensures Play(s, acts + [DoClose]) == Play(s, acts).(closed := true, status := ClosedStatus)
  {
    hide Play;
    PlaySnoc(s, acts, DoClose);
  }

  /** A closed run accepts nothing, however it goes on. */
  lemma ClosedRefusesAll(s: State, acts: seq<Action>, more: seq<Action>, id: ConnId)
    requires Initial(s) && Play(s, acts).closed
    ensures var t := Play(s, acts + more);
            SubmitStep(t).1 == RunClosed && SubmitConsole(t, id).1 == RunClosed && BeginOpen(t) == t
  {
    hide Play, StepGrows, EntryGrows, Initial;
    NothingIsTakenBack(s, acts, more);
  }

  /** No session is listed twice. */
  predicate Distinct(q: seq<nat>) { forall i, j :: 0 <= i < j < |q| ==> q[i] != q[j] }

  lemma {:induction false} WithoutDistinct(q: seq<nat>, n: nat)
    requires Distinct(q)
    ensures Distinct(Without(q, n)) && forall m :: m in Without(q, n) <==> m in q && m != n
    decreases |q|
  {
    if q != [] {
      var tail := q[1..];
      assert q == [q[0]] + tail;
      assert forall i :: 0 <= i < |tail| ==> tail[i] == q[i + 1];
      assert q[0] !in tail;
      WithoutDistinct(tail, n);
      var w := Without(tail, n);
      assert Without(q, n) == if q[0] == n then tail else [q[0]] + w;
      assert q[0] !in w && forall m :: m in [q[0]] + w <==> m == q[0] || m in w;
    }
  }

  lemma {:induction false} ReachableDistinct(s: State, acts: seq<Action>)
    requires Initial(s)
    ensures Distinct(Play(s, acts).consoles)
    decreases |acts|
  {
    hide Apply, Distinct, Inv, Initial;
    if acts == [] {
      NoSessions(s);
    } else {
      var t, a := Play(s, acts[..|acts| - 1]), acts[|acts| - 1];
      ReachableDistinct(s, acts[..|acts| - 1]);
      ReachableSessions(s, acts[..|acts| - 1]);
      DistinctStep(t, a);
    }
  }

  lemma NoSessions(s: State)
    requires Initial(s)
    ensures Distinct(s.consoles)
  {
  }

  lemma DistinctStep(t: State, a: Action)
    requires Sessions(t) && Distinct(t.consoles)
    ensures Distinct(Apply(t, a).consoles)
  {
    hide Submitted, AsBlocked, WithOutcome, AnyBusy, Without, SubmitStep, SubmitConsole, CompleteStep;
    if a.DoCloseSession? { WithoutDistinct(t.consoles, a.n); }
    if a.DoSubmitStep? || a.DoSubmitConsole? || a.DoCompleteStep? { SameSessions(t, a); }
  }

  /** The number was given out, and its session is neither open nor being opened. */
  predicate Gone(t: State, n: nat) { n <= t.consoleSeq && n !in t.consoles && n !in t.dialing }

  lemma GoneStep(t: State, a: Action, n: nat)
    requires Sessions(t) && Gone(t, n)
    ensures Gone(Apply(t, a), n)
  {
    hide Submitted, AsBlocked, WithOutcome, AnyBusy, Without;
    if a.DoCloseSession? { WithoutIsPart(t.consoles, a.n); }
  }

  lemma {:induction false} GoneStays(s: State, acts: seq<Action>, more: seq<Action>, n: nat)
    requires Initial(s) && Gone(Play(s, acts), n)
    ensures Gone(Play(s, acts + more), n)
    decreases |more|
  {
    hide Play, Apply, Gone, Initial;
    if more == [] {
      assert acts + more == acts;
    } else {
      var k := |more| - 1;
      GoneStays(s, acts, more[..k], n);
      ReachableSessions(s, acts + more[..k]);
      assert acts + more == (acts + more[..k]) + [more[k]];
      PlaySnoc(s, acts + more[..k], more[k]);
      GoneStep(Play(s, acts + more[..k]), more[k], n);
    }
  }

  /** A console session that is closed is never listed again and no statement is accepted for it; the
      other sessions are as they were. */
  lemma ClosedSessionIsGone(s: State, acts: seq<Action>, more: seq<Action>, n: nat)
    requires Initial(s) && n in Play(s, acts).consoles
    ensures var t, u := Play(s, acts), Play(s, acts + [DoCloseSession(n)]);
            forall m :: m in u.consoles <==> m in t.consoles && m != n
    ensures var v := Play(s, acts + [DoCloseSession(n)] + more);
            n !in v.consoles && !SubmitConsole(v, Session(n)).1.Accepted?
  {
    hide Play, Initial, Without, Distinct;
    var t := Play(s, acts);
    ReachableDistinct(s, acts);
    ReachableSessions(s, acts);
    PlaySnoc(s, acts, DoCloseSession(n));
    WithoutDistinct(t.consoles, n);
    GoneStays(s, acts + [DoCloseSession(n)], more, n);
  }
}
