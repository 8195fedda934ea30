/**
 What holds of every run of the machine in RunMachine.dfy, whatever the interleaving,
 and four things that one might expect and that do not hold, each with a concrete run.
 */
module RunProperties {
  import opened Options
  import opened RunMachine

  // ---- over all reachable states

  /** A session is busy exactly while one statement is in flight on it, and never two. */
  lemma OneStatementPerSession(s: State, acts: seq<Action>, id: ConnId)
    requires Initial(s) && id in Play(s, acts).conns
    ensures var t := Play(s, acts);
            && (t.conns[id].busy <==> exists task :: task in t.inFlight && Exists(t, task) && ConnOf(t, task) == id)
            && forall t1, t2 | t1 in t.inFlight && t2 in t.inFlight && Exists(t, t1) && Exists(t, t2) ::
                 (ConnOf(t, t1) == id && ConnOf(t, t2) == id ==> t1 == t2)
  {
    hide Play, Ledger, LatestStep, StatusFits, Sessions;
    ReachableInv(s, acts);
    var t := Play(s, acts);
    if t.conns[id].busy {
      assert Occupies(t, Occupant(t.conns[id]).value, id);
    }
  }

  /** Steps before the cursor were submitted and the rest are pending; a running or blocked
      step has its goroutine and is the latest step its actor was given. */
  lemma StepsFollowTheCursor(s: State, acts: seq<Action>, k: nat)
    requires Initial(s) && k < |Play(s, acts).steps|
    ensures var t := Play(s, acts);
            && t.cursor <= |t.steps|
            && (k < t.cursor <==> t.steps[k].status != Pending)
            && (t.steps[k].status.InFlight() <==> StepTask(k) in t.inFlight)
            && (t.steps[k].status.InFlight() ==> forall j :: k < j < t.cursor ==> t.steps[j].actor != t.steps[k].actor)
  {
    hide Play, StatusFits, Sessions, AllJudged, BusyHasFlight;
    ReachableInv(s, acts);
    var t := Play(s, acts);
    if StepTask(k) in t.inFlight {
      assert Occupies(t, StepTask(k), Actor(t.steps[k].actor));
      assert t.conns[Actor(t.steps[k].actor)].stepIndex == k + 1;
    }
  }

  /** A run is only ever called finished when every step has ended. */
  lemma FinishedMeansEnded(s: State, acts: seq<Action>, k: nat)
    requires Initial(s) && Play(s, acts).status == Finished && k < |Play(s, acts).steps|
    ensures Play(s, acts).steps[k].status.Ended()
  {
    hide Play, Ledger, Occupancy, LatestStep, Sessions;
    ReachableInv(s, acts);
  }

  /** An ended step's verdict is a function of four facts, so no interleaving and no other step
      can change it. */
  lemma VerdictIsOfTheFacts(s: State, acts: seq<Action>, i: nat, s': State, acts': seq<Action>, j: nat)
    requires Initial(s) && Initial(s') && i < |Play(s, acts).steps| && j < |Play(s', acts').steps|
    requires var a, b := Play(s, acts).steps[i], Play(s', acts').steps[j];
             a.status.Ended() && a.want == b.want && a.status == b.status
             && a.error == b.error && a.wasBlocked == b.wasBlocked
    ensures Play(s, acts).steps[i].verdict == Play(s', acts').steps[j].verdict
    ensures var a := Play(s, acts).steps[i]; a.verdict == VerdictOf(a.want, a.status, a.error, a.wasBlocked)
    ensures var a := Play(s, acts).steps[i]; a.want == Blocks ==> (a.verdict == Match <==> a.wasBlocked)
  {
    hide Play, Occupancy, LatestStep, StatusFits, Sessions, CursorSplits, FlightIsStatus;
    ReachableInv(s, acts);
    ReachableInv(s', acts');
    assert Judged(Play(s, acts).steps[i]) && Judged(Play(s', acts').steps[j]);
  }

  // ---- nothing is taken back

  /** What can still happen to a step. */
  predicate StepGrows(a: StepResult, b: StepResult) {
    && b.actor == a.actor && b.want == a.want
    && (a.status.Ended() ==> b == a)
    && (a.status != Pending ==> b.status != Pending)
    && (a.wasBlocked ==> b.wasBlocked)
    && (a.want == Blocks && a.verdict == Match ==> b.verdict == Match)
  }

  predicate EntryGrows(a: Entry, b: Entry) {
    b.session == a.session && (a.status.Ended() ==> b == a) && (a.wasBlocked ==> b.wasBlocked)
  }

  ghost predicate Grows(s: State, t: State) {
    && |t.steps| == |s.steps| && (forall i :: 0 <= i < |s.steps| ==> StepGrows(s.steps[i], t.steps[i]))
    && |t.entries| >= |s.entries| && (forall i :: 0 <= i < |s.entries| ==> EntryGrows(s.entries[i], t.entries[i]))
    && (s.closed ==> t.closed) && s.cursor <= t.cursor
    && (s.setupDone ==> t.setupDone && (s.status == ClosedStatus ==> t.status == ClosedStatus))
  }

  lemma BlockedGrows(st: StepResult)
    requires st.status == Running && Judged(st)
    ensures StepGrows(st, AsBlocked(st))
  {
  }

  lemma OutcomeGrows(st: StepResult, err: Option<ErrKind>)
    requires st.status.InFlight() && Judged(st)
    ensures StepGrows(st, WithOutcome(st, err))
  {
  }

  lemma StepActionsGrow(s: State, a: Action)
    requires Inv(s) && (a.DoSubmitStep? || a.DoSettleStep? || a.DoCompleteStep?)
    ensures Grows(s, Apply(s, a))
  {
    hide Occupancy, LatestStep, Sessions, AsBlocked, WithOutcome, StepGrows, AnyBusy, Untouched;
    forall st: StepResult ensures StepGrows(st, st) { SameGrows(st); }
    match a
    case DoSubmitStep =>
      if s.cursor < |s.steps| {
        assert Untouched(s.steps[s.cursor]);
        SubmittedGrows(s.steps[s.cursor]);
      }
    case DoSettleStep(i) =>
      if i < |s.steps| && s.steps[i].status == Running { BlockedGrows(s.steps[i]); }
    case DoCompleteStep(i, err) =>
      if StepTask(i) in s.inFlight { OutcomeGrows(s.steps[i], err); }
    case _ =>
  }

  lemma SameGrows(st: StepResult)
    ensures StepGrows(st, st)
  {
  }

  lemma SubmittedGrows(st: StepResult)
    requires Untouched(st)
    ensures StepGrows(st, Submitted(st))
  {
  }

  lemma OtherActionsGrow(s: State, a: Action)
    requires Inv(s) && !a.DoSubmitStep? && !a.DoSettleStep? && !a.DoCompleteStep?
    ensures Grows(s, Apply(s, a))
  {
    hide Occupancy, LatestStep, Sessions, StepGrows, CursorSplits, AllJudged, Without,
      SubmitStep, SettleStep, CompleteStep;
    forall i | 0 <= i < |s.steps| ensures StepGrows(s.steps[i], s.steps[i]) { SameGrows(s.steps[i]); }
  }

  lemma GrowsTransitive(s: State, t: State, u: State)
    requires Grows(s, t) && Grows(t, u)
    ensures Grows(s, u)
  {
    forall i | 0 <= i < |s.steps| ensures StepGrows(s.steps[i], u.steps[i]) {
      assert StepGrows(s.steps[i], t.steps[i]) && StepGrows(t.steps[i], u.steps[i]);
    }
    forall i | 0 <= i < |s.entries| ensures EntryGrows(s.entries[i], u.entries[i]) {
      assert EntryGrows(s.entries[i], t.entries[i]) && EntryGrows(t.entries[i], u.entries[i]);
    }
  }

  /** From any reachable state on: done and error are never left and keep their whole record, a
      wait once observed stays observed, a `blocks` match is never withdrawn, the closed flag
      stays set, and after setup the closed status stays too. */
  lemma {:induction false} NothingIsTakenBack(s: State, acts: seq<Action>, more: seq<Action>)
    requires Initial(s)
    ensures Grows(Play(s, acts), Play(s, acts + more))
    decreases |more|
  {
    hide Grows, Inv, Apply, Initial;
    var t := Play(s, acts);
    if more == [] {
      assert acts + more == acts;
      GrowsReflexive(t);
    } else {
      var n := |more| - 1;
      var u := Play(s, acts + more[..n]);
      NothingIsTakenBack(s, acts, more[..n]);
      ReachableInv(s, acts + more[..n]);
      if more[n].DoSubmitStep? || more[n].DoSettleStep? || more[n].DoCompleteStep? {
        StepActionsGrow(u, more[n]);
      } else {
        OtherActionsGrow(u, more[n]);
      }
      PlaySnoc(s, acts + more[..n], more[n]);
      assert (acts + more[..n]) + [more[n]] == acts + more;
      GrowsTransitive(t, u, Play(s, acts + more));
    }
  }

  lemma GrowsReflexive(s: State)
    ensures Grows(s, s)
  {
  }

  lemma PlaySnoc(s: State, acts: seq<Action>, a: Action)
    ensures Play(s, acts + [a]) == Apply(Play(s, acts), a)
  {
    assert (acts + [a])[..|acts|] == acts;
  }

  // ---- expectations that fail

  lemma PlayOne(s: State, a: Action)
    ensures Play(s, [a]) == Apply(s, a)
  {
    assert [a][..0] == [];
    assert Play(s, []) == s;
  }

  /** Setup that ends after Close puts the status back to ready, although the run stays closed. */
  lemma ClosedStatusCanBeOverwritten(s: State)
    requires Initial(s)
    ensures var t := Play(s, [DoClose, DoFinishSetup(true)]); t.closed && t.status == Ready
  {
    PlayOne(s, DoClose);
    PlaySnoc(s, [DoClose], DoFinishSetup(true));
    assert [DoClose] + [DoFinishSetup(true)] == [DoClose, DoFinishSetup(true)];
  }

  /** A closed status is final exactly when setup had ended by then. */
  lemma ClosedIsFinalIff(s: State, acts: seq<Action>)
    requires Initial(s) && Play(s, acts).status == ClosedStatus
    ensures (forall more :: Play(s, acts + more).status == ClosedStatus) <==> Play(s, acts).setupDone
  {
    hide Play, Inv, Initial;
    if Play(s, acts).setupDone {
      forall more ensures Play(s, acts + more).status == ClosedStatus { NothingIsTakenBack(s, acts, more); }
    } else {
      PlaySnoc(s, acts, DoFinishSetup(true));
      assert Play(s, acts + [DoFinishSetup(true)]).status == Ready;
    }
  }

  /** A run whose last step ends while a console statement holds another actor is never called
      finished, even once everything is quiet. */
  lemma QuietRunMayNeverFinish(s: State)
    requires Initial(s) && |s.steps| == 1 && s.steps[0].actor == "a"
    requires Actor("a") in s.conns && Actor("b") in s.conns && s.conns.Keys == {Actor("a"), Actor("b")}
    ensures exists acts :: var t := Play(s, acts);
              && t.status == InProgress && t.cursor == |t.steps| == 1 && t.steps[0].status == Done
              && forall id :: id in t.conns ==> !t.conns[id].busy
  {
    hide Play, AnyBusy, CompleteStep, CompleteConsole, SubmitStep;
    QuietHead(s);
    var a2: seq<Action> := [DoFinishSetup(true), DoDialActor("b")];
    var a3 := a2 + [DoSubmitStep];
    PlaySnoc(s, a2, DoSubmitStep);
    StepIsTaken(Play(s, a2));
    var a4 := a3 + [DoSubmitConsole(Actor("b"))];
    PlaySnoc(s, a3, DoSubmitConsole(Actor("b")));
    QuietTail(s, a4);
  }

  lemma QuietHead(s: State)
    requires !s.setupDone
    ensures var t := Play(s, [DoFinishSetup(true), DoDialActor("b")]);
            t == Apply(s.(status := Ready, setupDone := true), DoDialActor("b"))
  {
    hide Play, SubmitStep, SubmitConsole, CompleteStep, SettleStep, SettleConsole, CompleteConsole;
    PlayOne(s, DoFinishSetup(true));
    PlaySnoc(s, [DoFinishSetup(true)], DoDialActor("b"));
    assert [DoFinishSetup(true)] + [DoDialActor("b")] == [DoFinishSetup(true), DoDialActor("b")];
  }

  lemma StepIsTaken(t: State)
    requires !t.closed && t.status == Ready && t.cursor == 0 && |t.steps| == 1 && t.steps[0].actor == "a"
    requires Actor("a") in t.conns && Actor("b") in t.conns && !t.conns[Actor("a")].busy
    ensures var u := SubmitStep(t).0;
            && u.status == InProgress && u.cursor == 1 && |u.steps| == 1 && u.steps[0].actor == "a" && !u.closed
            && u.inFlight == t.inFlight + {StepTask(0)} && u.conns.Keys == t.conns.Keys
            && u.conns[Actor("b")] == t.conns[Actor("b")] && u.entries == t.entries
  {
  }

  lemma QuietTail(s: State, a4: seq<Action>)
    requires var t := Play(s, a4);
             && t.status == InProgress && t.cursor == |t.steps| == 1 && t.steps[0].actor == "a"
             && t.conns.Keys == {Actor("a"), Actor("b")} && t.conns[Actor("b")].busy
             && t.inFlight == {StepTask(0), EntryTask(0)}
             && |t.entries| == 1 && t.entries[0].session == Actor("b")
    ensures exists acts :: var t := Play(s, acts);
              && t.status == InProgress && t.cursor == |t.steps| == 1 && t.steps[0].status == Done
              && forall id :: id in t.conns ==> !t.conns[id].busy
  {
    hide Play;
    var a5 := a4 + [DoCompleteStep(0, None)];
    PlaySnoc(s, a4, DoCompleteStep(0, None));
    var t5 := Play(s, a5);
    assert t5.conns[Actor("b")].busy && AnyBusy(t5.conns);
    var a6 := a5 + [DoCompleteConsole(0, None)];
    PlaySnoc(s, a5, DoCompleteConsole(0, None));
    assert Play(s, a6).status == InProgress;
  }

  /** No statement is typed at an actor's own connection. */
  ghost predicate ActorsKeptForSteps(acts: seq<Action>) {
    forall i :: 0 <= i < |acts| && acts[i].DoSubmitConsole? ==> acts[i].id.Session?
  }

  ghost predicate FullyPlayed(s: State) {
    s.cursor == |s.steps| && s.cursor > 0 && forall i :: 0 <= i < |s.steps| ==> s.steps[i].status.Ended()
  }

  ghost predicate EntriesOnSessions(s: State) { forall i :: 0 <= i < |s.entries| ==> s.entries[i].session.Session? }

  lemma NoActorBusy(s: State)
    requires FlightIsStatus(s) && BusyHasFlight(s) && EntriesOnSessions(s) && FullyPlayed(s)
    ensures !AnyBusy(s.conns)
  {
    if id :| id in s.conns && id.Actor? && s.conns[id].busy {
      var k := BusyActorHasStep(s, id);
    }
  }

  lemma BusyActorHasStep(s: State, id: ConnId) returns (k: nat)
    requires FlightIsStatus(s) && BusyHasFlight(s) && EntriesOnSessions(s)
    requires id in s.conns && id.Actor? && s.conns[id].busy
    ensures k < |s.steps| && s.steps[k].status.InFlight()
  {
    var task := Occupant(s.conns[id]).value;
    assert Occupies(s, task, id);
    k := task.index;
  }

  /** Without such statements the run is finished as soon as it is fully played: then its status
      is finished or closed. */
  lemma {:induction false} FullyPlayedIsFinished(s: State, acts: seq<Action>)
    requires Initial(s) && ActorsKeptForSteps(acts)
    ensures EntriesOnSessions(Play(s, acts))
    ensures FullyPlayed(Play(s, acts)) ==> Play(s, acts).status == Finished || Play(s, acts).status == ClosedStatus
    decreases |acts|
  {
    hide Inv, Apply, FullyPlayed, EntriesOnSessions;
    if acts == [] {
      NothingPlayed(s);
    } else {
      var n := |acts| - 1;
      FullyPlayedIsFinished(s, acts[..n]);
      ReachableInv(s, acts[..n]);
      ReachableInv(s, acts);
      FinishStep(Play(s, acts[..n]), acts[n]);
    }
  }

  lemma NothingPlayed(s: State)
    requires Initial(s)
    ensures !FullyPlayed(s) && EntriesOnSessions(s)
  {
  }

  lemma FinishStep(s: State, a: Action)
    requires Inv(s) && Inv(Apply(s, a)) && EntriesOnSessions(s) && (a.DoSubmitConsole? ==> a.id.Session?)
    requires FullyPlayed(s) ==> s.status == Finished || s.status == ClosedStatus
    ensures EntriesOnSessions(Apply(s, a))
    ensures FullyPlayed(Apply(s, a)) ==> Apply(s, a).status == Finished || Apply(s, a).status == ClosedStatus
  {
    hide CursorSplits, AllJudged, LatestStep, Sessions, FlightsOccupy, FullyPlayed, BusyHasFlight,
      FlightIsStatus, AnyBusy, Evaluate, Without;
    var s' := Apply(s, a);
    assert EntriesOnSessions(s');
    if a.DoCompleteStep? {
      if FullyPlayed(s') { NoActorBusy(s'); FullyPlayedCursor(s'); }
    } else {
      FinishStepElsewhere(s, a);
    }
  }

  lemma FullyPlayedCursor(s: State)
    requires FullyPlayed(s)
    ensures s.cursor == |s.steps| > 0
  {
  }

  lemma SubmittingUnplays(s: State)
    ensures SubmitStep(s).0 == s || !FullyPlayed(SubmitStep(s).0)
  {
    var s' := SubmitStep(s).0;
    if s' != s { assert s'.steps[s.cursor].status == Running; }
  }

  lemma SettlingUnplays(s: State, i: nat)
    ensures SettleStep(s, i).steps == s.steps || !FullyPlayed(SettleStep(s, i))
  {
    hide Classify, MatchesExpectation;
    var s' := SettleStep(s, i);
    if s'.steps != s.steps { assert s'.steps[i].status == Blocked; }
  }

  lemma FinishStepElsewhere(s: State, a: Action)
    requires StatusFits(s) && !a.DoCompleteStep?
    requires FullyPlayed(s) ==> s.status == Finished || s.status == ClosedStatus
    ensures FullyPlayed(Apply(s, a)) ==> Apply(s, a).status == Finished || Apply(s, a).status == ClosedStatus
  {
    hide AsBlocked, Submitted, Without, SubmitStep;
    if a.DoSubmitStep? { SubmittingUnplays(s); }
    if a.DoSettleStep? { SettlingUnplays(s, a.i); }
  }

  /** The k-th action was the completion that played the run out, and no actor was busy after it. */
  ghost predicate PlayedOutQuietly(s: State, acts: seq<Action>, k: nat)
    requires k < |acts|
  {
    var t := Play(s, acts[..k + 1]);
    !FullyPlayed(Play(s, acts[..k])) && FullyPlayed(t) && !AnyBusy(t.conns)
  }

  /** Exactly when a run that is fully played, and not closed, is called finished: when the
      completion of its last step left no actor busy with a console statement. */
  lemma {:induction false} FinishedIff(s: State, acts: seq<Action>)
    requires Initial(s) && FullyPlayed(Play(s, acts)) && Play(s, acts).status != ClosedStatus
    ensures Play(s, acts).status == Finished <==> exists k: nat :: k < |acts| && PlayedOutQuietly(s, acts, k)
    decreases |acts|
  {
    hide Inv, Apply, FullyPlayed, AnyBusy, PlayedOutQuietly, Initial;
    if acts == [] {
      NothingPlayed(s);
      assert false;
    }
    var n := |acts| - 1;
    var before, a := acts[..n], acts[n];
    var t := Play(s, before);
    ReachableInv(s, before);
    assert acts == before + [a] && Play(s, acts) == Apply(t, a);
    if FullyPlayed(t) {
      PlayedStays(t, a);
      FinishedIff(s, before);
      QuietlyEarlier(s, before, a);
    } else {
      PlayedOut(t, a);
      QuietlyNow(s, before, a);
    }
  }

  /** Once the run is played out, only closing it changes its status. */
  lemma PlayedStays(t: State, a: Action)
    requires Inv(t) && FullyPlayed(t) && Apply(t, a).status != ClosedStatus
    ensures t.status != ClosedStatus && Apply(t, a).status == t.status
  {
    hide CursorSplits, AllJudged, LatestStep, Sessions, Occupancy, Without, AnyBusy, Evaluate, AsBlocked;
  }

  /** The action that plays it out is a completion, and it finishes the run if no actor is busy. */
  lemma PlayedOut(t: State, a: Action)
    requires Inv(t) && !FullyPlayed(t) && FullyPlayed(Apply(t, a)) && Apply(t, a).status != ClosedStatus
    ensures Apply(t, a).status == Finished <==> !AnyBusy(Apply(t, a).conns)
  {
    hide CursorSplits, AllJudged, LatestStep, Sessions, Occupancy, Without, AnyBusy, Evaluate,
      AsBlocked, FlightIsStatus;
    if a.DoCompleteStep? {
      FullyPlayedCursor(Apply(t, a));
    } else {
      OnlyCompletionEnds(t, a);
    }
  }

  lemma OnlyCompletionEnds(t: State, a: Action)
    requires !a.DoCompleteStep? && FullyPlayed(Apply(t, a))
    ensures FullyPlayed(t)
  {
    hide AsBlocked, Submitted, Without, SubmitStep, FullyPlayed;
    if a.DoSubmitStep? { SubmittingUnplays(t); }
    if a.DoSettleStep? { SettlingUnplays(t, a.i); }
    PlayedFrame(t, Apply(t, a));
  }

  lemma QuietlyEarlier(s: State, before: seq<Action>, a: Action)
    requires FullyPlayed(Play(s, before))
    ensures (exists k: nat :: k < |before| && PlayedOutQuietly(s, before, k))
       <==> (exists k: nat :: k < |before + [a]| && PlayedOutQuietly(s, before + [a], k))
  {
    hide FullyPlayed, AnyBusy, Play;
    var acts := before + [a];
    assert acts[..|before|] == before;
    forall k: nat | k < |before| ensures PlayedOutQuietly(s, before, k) == PlayedOutQuietly(s, acts, k) {
      assert acts[..k] == before[..k] && acts[..k + 1] == before[..k + 1];
    }
    if k: nat :| k < |acts| && PlayedOutQuietly(s, acts, k) {
      assert k < |before| && PlayedOutQuietly(s, before, k);
    }
  }

  lemma QuietlyNow(s: State, before: seq<Action>, a: Action)
    requires Initial(s) && !FullyPlayed(Play(s, before)) && FullyPlayed(Play(s, before + [a]))
    ensures !AnyBusy(Play(s, before + [a]).conns)
       <==> exists k: nat :: k < |before + [a]| && PlayedOutQuietly(s, before + [a], k)
  {
    hide FullyPlayed, AnyBusy, Play, Initial;
    var acts := before + [a];
    assert acts[..|before|] == before && acts[..|acts|] == acts;
    if k: nat :| k < |acts| && PlayedOutQuietly(s, acts, k) {
      if k < |before| {
        assert acts[..k + 1] == before[..k + 1];
        PlayedPersists(s, before, k + 1);
      }
    }
    if !AnyBusy(Play(s, acts).conns) {
      assert PlayedOutQuietly(s, acts, |before|);
    }
  }

  lemma {:induction false} PlayedPersists(s: State, acts: seq<Action>, k: nat)
    requires Initial(s) && k <= |acts| && FullyPlayed(Play(s, acts[..k]))
    ensures FullyPlayed(Play(s, acts))
    decreases |acts|
  {
    hide FullyPlayed, Apply, Initial, Inv;
    if k == |acts| {
      assert acts[..k] == acts;
    } else {
      var n := |acts| - 1;
      assert acts[..n][..k] == acts[..k];
      PlayedPersists(s, acts[..n], k);
      ReachableInv(s, acts[..n]);
      PlayedOnce(Play(s, acts[..n]), acts[n]);
    }
  }

  lemma PlayedOnce(t: State, a: Action)
    requires Inv(t) && FullyPlayed(t)
    ensures FullyPlayed(Apply(t, a))
  {
    hide CursorSplits, AllJudged, LatestStep, Sessions, Occupancy, Without, AnyBusy, Evaluate, AsBlocked, StatusFits;
  }

  lemma PlayedFrame(t: State, u: State)
    ensures t.steps == u.steps && t.cursor == u.cursor ==> (FullyPlayed(t) <==> FullyPlayed(u))
  {
  }

  // ---- the cap on console sessions

  function Opens(n: nat): (a: seq<Action>)
    ensures |a| == n + 1
  {
    if n == 0 then [DoBoxReady] else Opens(n - 1) + [DoBeginOpen]
  }

  function Registers(n: nat, k: nat): (a: seq<Action>)
    ensures |a| == n + 1 + k
  {
    if k == 0 then Opens(n) else Registers(n, k - 1) + [DoRegister(k)]
  }

  function UpTo(n: nat): (r: set<nat>)
    ensures forall i: nat :: i in r <==> 1 <= i <= n
  {
    if n == 0 then {} else UpTo(n - 1) + {n}
  }

  lemma {:induction false} OpensPileUp(s: State, n: nat)
    requires Initial(s) && s.consoleSeq == 0
    ensures Play(s, Opens(n)) == s.(boxReady := true, consoleSeq := n, dialing := UpTo(n))
  {
    hide Play;
    if n == 0 {
      PlayOne(s, DoBoxReady);
    } else {
      OpensPileUp(s, n - 1);
      PlaySnoc(s, Opens(n - 1), DoBeginOpen);
    }
  }

  lemma {:induction false} RegistersAll(s: State, n: nat, k: nat)
    requires Initial(s) && s.consoleSeq == 0 && k <= n
    ensures var t := Play(s, Registers(n, k));
            |t.consoles| == k && forall i :: k < i <= n ==> i in t.dialing
  {
    hide Play;
    if k == 0 {
      OpensPileUp(s, n);
    } else {
      RegistersAll(s, n, k - 1);
      PlaySnoc(s, Registers(n, k - 1), DoRegister(k));
    }
  }

  /** The cap is checked before dialing and not again, so concurrent opens reach any number of
      sessions. */
  lemma SessionCapCanBeOverrun(s: State, n: nat)
    requires Initial(s) && s.consoleSeq == 0
    ensures |Play(s, Registers(n, n)).consoles| == n
  {
    RegistersAll(s, n, n);
  }

  lemma {:induction false} WithoutShortens(q: seq<nat>, n: nat)
    ensures |Without(q, n)| <= |q|
  {
    if q != [] && q[0] != n { WithoutShortens(q[1..], n); }
  }

  /** Sessions that are open or being opened. */
  function Seats(s: State): nat { |s.consoles| + |s.dialing| }

  /** What OpenSession checks: it counts the open ones only. */
  predicate Admits(s: State) { !s.closed && s.boxReady && |s.consoles| < MAX_SESSIONS }

  /** Only an open that is let in takes a seat. */
  lemma SeatStep(s: State, a: Action)
    requires Sessions(s)
    ensures if a == DoBeginOpen && Admits(s) then Seats(Apply(s, a)) == Seats(s) + 1 else Seats(Apply(s, a)) <= Seats(s)
  {
    hide SubmitStep, SubmitConsole, CompleteStep, SettleStep, SettleConsole, CompleteConsole, Without;
    match a
    case DoSubmitStep => SameSessions(s, a);
    case DoSettleStep(_) => SameSessions(s, a);
    case DoCompleteStep(_, _) => SameSessions(s, a);
    case DoSubmitConsole(_) => SameSessions(s, a);
    case DoSettleConsole(_) => SameSessions(s, a);
    case DoCompleteConsole(_, _) => SameSessions(s, a);
    case DoCloseSession(n) => WithoutShortens(s.consoles, n);
    case DoRegister(n) => OneFewer(s.dialing, n);
    case DoDialFails(n) => OneFewer(s.dialing, n);
    case DoBeginOpen => assert s.consoleSeq + 1 !in s.dialing;
    case DoClose =>
    case DoBoxReady =>
    case DoDialActor(_) =>
    case DoFinishSetup(_) =>
  }

  lemma OneFewer(q: set<nat>, n: nat)
    ensures |q - {n}| == |q| - if n in q then 1 else 0
  {
    if n in q {
      assert q == (q - {n}) + {n};
    } else {
      assert q - {n} == q;
    }
  }

  /** An open that fails gives its seat back and leaves no session. */
  lemma FailedOpenFreesItsSeat(s: State, acts: seq<Action>, n: nat)
    requires n in Play(s, acts).dialing
    ensures var t, u := Play(s, acts), Play(s, acts + [DoDialFails(n)]);
            Seats(u) == Seats(t) - 1 && n !in u.dialing && u.consoles == t.consoles && u.conns == t.conns
  {
    hide Play, SubmitStep, SubmitConsole, CompleteStep, SettleStep, SettleConsole, CompleteConsole, Without;
    PlaySnoc(s, acts, DoDialFails(n));
    OneFewer(Play(s, acts).dialing, n);
  }

  lemma SameSessions(s: State, a: Action)
    requires a.DoSubmitStep? || a.DoSettleStep? || a.DoCompleteStep?
           || a.DoSubmitConsole? || a.DoSettleConsole? || a.DoCompleteConsole?
    ensures Apply(s, a).consoles == s.consoles && Apply(s, a).dialing == s.dialing
  {
    hide Evaluate, AnyBusy;
  }

  /** Every open that is let in finds a seat when those being opened are counted as well. */
  ghost predicate OpensFindSeats(s: State, acts: seq<Action>) {
    forall i :: 0 <= i < |acts| && acts[i] == DoBeginOpen && Admits(Play(s, acts[..i])) ==>
      Seats(Play(s, acts[..i])) < 8
  }

  ghost predicate NeverOverfull(s: State, acts: seq<Action>) {
    forall i :: 0 <= i <= |acts| ==> Seats(Play(s, acts[..i])) <= 8
  }

  /** The seats never exceed the cap exactly when every open found one. */
  lemma {:induction false} SeatsKeptIff(s: State, acts: seq<Action>)
    requires Initial(s)
    ensures NeverOverfull(s, acts) <==> OpensFindSeats(s, acts)
    decreases |acts|
  {
    hide Apply, Admits, Seats, Initial, Inv;
    if acts == [] {
      NoSeats(s);
      assert acts[..0] == acts;
    } else {
      var n := |acts| - 1;
      var before := acts[..n];
      assert forall i :: 0 <= i <= n ==> before[..i] == acts[..i];
      assert acts[..n + 1] == acts;
      SeatsKeptIff(s, before);
      ReachableSessions(s, before);
      SeatStep(Play(s, before), acts[n]);
      assert Seats(Play(s, acts[..n + 1])) == Seats(Apply(Play(s, before), acts[n]));
      assert NeverOverfull(s, acts) <==> NeverOverfull(s, before) && Seats(Play(s, acts)) <= 8;
    }
  }

  lemma NoSeats(s: State)
    requires Initial(s)
    ensures Seats(s) == 0
  {
  }

  lemma ReachableSessions(s: State, acts: seq<Action>)
    requires Initial(s)
    ensures Sessions(Play(s, acts))
  {
    hide Initial, Sessions, Ledger, Occupancy, LatestStep, StatusFits, Play;
    ReachableInv(s, acts);
  }

  ghost predicate OnlyRegisters(acts: seq<Action>) { forall i :: 0 <= i < |acts| ==> acts[i].DoRegister? }

  /** Connecting what is being opened is enough to have too many exactly when the seats are too many. */
  lemma OverfullIsReached(s: State, acts: seq<Action>)
    requires Initial(s)
    ensures (exists more :: OnlyRegisters(more) && |Play(s, acts + more).consoles| > 8)
       <==> Seats(Play(s, acts)) > 8
  {
    hide Play, Initial, Sessions;
    if more :| OnlyRegisters(more) && |Play(s, acts + more).consoles| > 8 {
      RegistersAddNoSeats(s, acts, more);
    }
    if Seats(Play(s, acts)) > 8 {
      var more := EverybodyRegisters(s, acts);
      assert |Play(s, acts + more).consoles| == Seats(Play(s, acts));
    }
  }

  /** Whatever of what is being opened connects, and whenever, there are never too many sessions. */
  ghost predicate CapIsSafe(s: State, acts: seq<Action>) {
    forall i, more :: 0 <= i <= |acts| && OnlyRegisters(more) ==>
      |Play(s, acts[..i] + more).consoles| <= 8
  }

  /** The cap is safe throughout a run exactly when every open that was let in would have passed a
      check that counts the sessions being opened as well. */
  lemma CapKeptIff(s: State, acts: seq<Action>)
    requires Initial(s)
    ensures CapIsSafe(s, acts) <==> OpensFindSeats(s, acts)
  {
    hide Play, Initial, Seats, OpensFindSeats, OnlyRegisters;
    SeatsKeptIff(s, acts);
    forall i | 0 <= i <= |acts|
      ensures (exists more :: OnlyRegisters(more) && |Play(s, acts[..i] + more).consoles| > 8)
         <==> Seats(Play(s, acts[..i])) > 8
    {
      OverfullIsReached(s, acts[..i]);
    }
  }

  lemma {:induction false} RegistersAddNoSeats(s: State, acts: seq<Action>, more: seq<Action>)
    requires Initial(s) && OnlyRegisters(more)
    ensures Seats(Play(s, acts + more)) <= Seats(Play(s, acts))
    decreases |more|
  {
    hide Play, Initial, Apply, Seats, Sessions;
    if more == [] {
      assert acts + more == acts;
    } else {
      var n := |more| - 1;
      RegistersAddNoSeats(s, acts, more[..n]);
      assert acts + more == (acts + more[..n]) + [more[n]];
      PlaySnoc(s, acts + more[..n], more[n]);
      ReachableSessions(s, acts + more[..n]);
      SeatStep(Play(s, acts + more[..n]), more[n]);
    }
  }

  lemma {:induction false} EverybodyRegisters(s: State, acts: seq<Action>) returns (more: seq<Action>)
    requires Initial(s)
    ensures OnlyRegisters(more) && |Play(s, acts + more).consoles| == Seats(Play(s, acts))
    decreases |Play(s, acts).dialing|
  {
    hide Play, Initial;
    var t := Play(s, acts);
    if t.dialing == {} {
      more := [];
      assert acts + more == acts;
    } else {
      var n :| n in t.dialing;
      PlaySnoc(s, acts, DoRegister(n));
      assert t.dialing == (t.dialing - {n}) + {n};
      var rest := EverybodyRegisters(s, acts + [DoRegister(n)]);
      more := [DoRegister(n)] + rest;
      assert acts + more == acts + [DoRegister(n)] + rest;
    }
  }

  // ---- the refusal of a busy actor

  /** A step number on a connection is that of a step its actor was given; a console session has none. */
  predicate NamesItsStep(s: State, id: ConnId, c: Conn) {
    c.stepIndex > 0 ==>
      id.Actor? && c.stepIndex <= s.cursor && c.stepIndex <= |s.steps| && s.steps[c.stepIndex - 1].actor == id.name
  }

  ghost predicate IndexesNameSteps(s: State) { forall id :: id in s.conns ==> NamesItsStep(s, id, s.conns[id]) }

  lemma IndexFrame(s: State, t: State)
    requires IndexesNameSteps(s) && SameActors(s, t) && s.cursor <= t.cursor
    requires forall id :: id in t.conns ==>
               t.conns[id].stepIndex == 0 || (id in s.conns && t.conns[id].stepIndex == s.conns[id].stepIndex)
    ensures IndexesNameSteps(t)
  {
    forall id | id in t.conns ensures NamesItsStep(t, id, t.conns[id]) {
      if t.conns[id].stepIndex > 0 { assert NamesItsStep(s, id, s.conns[id]); }
    }
  }

  lemma SubmitNamesStep(s: State)
    requires IndexesNameSteps(s)
    ensures IndexesNameSteps(SubmitStep(s).0)
  {
    hide Submitted;
    var t := SubmitStep(s).0;
    if t != s {
      SubmittedKeepsActor(s.steps[s.cursor]);
      forall id | id in t.conns ensures NamesItsStep(t, id, t.conns[id]) {
        assert NamesItsStep(s, id, s.conns[id]);
      }
    }
  }

  lemma IndexStep(s: State, a: Action)
    requires IndexesNameSteps(s)
    ensures IndexesNameSteps(Apply(s, a))
  {
    hide IndexesNameSteps, SubmitStep, SettleStep, CompleteStep, Without;
    match a
    case DoSubmitStep => SubmitNamesStep(s);
    case DoSettleStep(i) => SettleNamesStep(s, i);
    case DoCompleteStep(i, err) => CompleteNamesStep(s, i, err);
    case _ => IndexFrame(s, Apply(s, a));
  }

  lemma SettleNamesStep(s: State, i: nat)
    requires IndexesNameSteps(s)
    ensures IndexesNameSteps(SettleStep(s, i))
  {
    hide IndexesNameSteps, AsBlocked;
    if i < |s.steps| { BlockedKeepsActor(s.steps[i]); }
    IndexFrame(s, SettleStep(s, i));
  }

  lemma CompleteNamesStep(s: State, i: nat, err: Option<ErrKind>)
    requires IndexesNameSteps(s)
    ensures IndexesNameSteps(CompleteStep(s, i, err))
  {
    hide IndexesNameSteps, WithOutcome, AnyBusy;
    if i < |s.steps| { OutcomeEnds(s.steps[i], err); }
    IndexFrame(s, CompleteStep(s, i, err));
  }

  lemma BlockedKeepsActor(st: StepResult)
    ensures AsBlocked(st).actor == st.actor
  {
  }

  lemma {:induction false} ReachableIndexes(s: State, acts: seq<Action>)
    requires Initial(s)
    ensures IndexesNameSteps(Play(s, acts))
    decreases |acts|
  {
    hide Apply;
    if acts != [] {
      ReachableIndexes(s, acts[..|acts| - 1]);
      IndexStep(Play(s, acts[..|acts| - 1]), acts[|acts| - 1]);
    }
  }

  /** Step refuses an actor exactly while a statement is in flight on it. If the refusal names a step,
      that step was given to this actor; it is the one in flight, or it has ended, and the latter
      exactly when a console statement holds the connection. It names none exactly when the actor has
      not been given a step. */
  lemma BusyRefusal(s: State, acts: seq<Action>)
    requires Initial(s) && SubmitStep(Play(s, acts)).1.Busy?
    ensures var t := Play(s, acts);
            var a, k := Actor(t.steps[t.cursor].actor), SubmitStep(t).1.stepIndex;
            && a in t.conns && t.conns[a].busy && k == t.conns[a].stepIndex
            && (k > 0 ==>
                  && k <= |t.steps| && t.steps[k - 1].actor == t.steps[t.cursor].actor
                  && (t.steps[k - 1].status.Ended() <==> t.conns[a].consoleId > 0)
                  && (StepTask(k - 1) in t.inFlight <==> t.conns[a].consoleId == 0))
            && (k == 0 <==> forall j :: 0 <= j < t.cursor ==> t.steps[j].actor != t.steps[t.cursor].actor)
  {
    hide Play, StatusFits, Sessions, AllJudged;
    ReachableInv(s, acts);
    ReachableIndexes(s, acts);
    var t := Play(s, acts);
    var a := Actor(t.steps[t.cursor].actor);
    var k := t.conns[a].stepIndex;
    assert NamesItsStep(t, a, t.conns[a]);
    assert Occupies(t, Occupant(t.conns[a]).value, a);
    if k > 0 && StepTask(k - 1) in t.inFlight { assert Occupies(t, StepTask(k - 1), ConnOf(t, StepTask(k - 1))); }
  }

  /** Two steps for one actor, the second refused while a console statement holds it: the refusal
      names step 1, which is done. */
  lemma RefusalBlamesAnEndedStep(s: State)
    requires Initial(s) && |s.steps| == 2 && s.steps[0].actor == s.steps[1].actor == "a" && s.conns.Keys == {Actor("a")}
    ensures exists acts :: var t := Play(s, acts);
              t.cursor == 1 && |t.steps| == 2 && t.steps[0].status == Done && SubmitStep(t).1 == Busy(1)
  {
    hide Play, CompleteStep, SubmitStep, SubmitConsole;
    var a1: seq<Action> := [DoFinishSetup(true)];
    PlayOne(s, DoFinishSetup(true));
    PlaySnoc(s, a1, DoDialActor("a"));
    var a2 := a1 + [DoDialActor("a")];
    PlaySnoc(s, a2, DoSubmitStep);
    var a3 := a2 + [DoSubmitStep];
    FirstOfTwo(Play(s, a2));
    PlaySnoc(s, a3, DoCompleteStep(0, None));
    var a4 := a3 + [DoCompleteStep(0, None)];
    FirstOfTwoEnds(Play(s, a3));
    PlaySnoc(s, a4, DoSubmitConsole(Actor("a")));
    ConsoleTakesOver(Play(s, a4));
    assert SubmitStep(Play(s, a4 + [DoSubmitConsole(Actor("a"))])).1 == Busy(1);
  }

  /** One actor, connected, with two steps. */
  predicate TwoSteps(t: State) {
    && !t.closed && |t.steps| == 2 && t.steps[0].actor == t.steps[1].actor == "a"
    && Actor("a") in t.conns && t.conns[Actor("a")].connected
  }

  lemma FirstOfTwo(t: State)
    requires TwoSteps(t) && t.status == Ready && t.cursor == 0 && !t.conns[Actor("a")].busy
    ensures var u := SubmitStep(t).0;
            && TwoSteps(u) && u.cursor == 1 && u.status == InProgress && StepTask(0) in u.inFlight
            && u.conns[Actor("a")].stepIndex == 1
  {
  }

  lemma FirstOfTwoEnds(t: State)
    requires TwoSteps(t) && t.cursor == 1 && StepTask(0) in t.inFlight && t.status == InProgress
    requires t.conns[Actor("a")].stepIndex == 1
    ensures var u := CompleteStep(t, 0, None);
            && TwoSteps(u) && u.cursor == 1 && u.steps[0].status == Done && u.status == InProgress
            && !u.conns[Actor("a")].busy && u.conns[Actor("a")].stepIndex == 1
  {
    hide AnyBusy;
  }

  lemma ConsoleTakesOver(t: State)
    requires TwoSteps(t) && t.cursor == 1 && t.status == InProgress
    requires !t.conns[Actor("a")].busy && t.conns[Actor("a")].stepIndex == 1
    ensures var u := SubmitConsole(t, Actor("a")).0;
            u.cursor == 1 && u.steps == t.steps && SubmitStep(u).1 == Busy(1)
  {
  }
}
