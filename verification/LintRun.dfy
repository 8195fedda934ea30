/**
 What the ordering check promises about a run: when every statement that is expected to block
 does block, and returns at the next COMMIT or ROLLBACK, then stepping through a scenario is
 refused for a busy actor exactly when the linter would have warned.
 */
module LintRun {
  import opened RunMachine
  import opened Lint
  import opened Options

  /** The scenario of a run, as the linter sees it. */
  predicate SameScenario(ls: seq<LintStep>, steps: seq<StepResult>) {
    |ls| == |steps|
    && forall i :: 0 <= i < |ls| ==> ls[i].actor == steps[i].actor && ls[i].blocks == (steps[i].want == Blocks)
  }

  /** Statements 0..k return, those that were waiting. */
  ghost function ReturnAll(s: State, k: nat): State {
    if k == 0 then s else CompleteStep(ReturnAll(s, k - 1), k - 1, None)
  }

  /** Step n is submitted and runs: it stays blocked if it is expected to, or ends, and a release
      lets every waiting statement return. */
  ghost function Round(ls: seq<LintStep>, s: State, n: nat): State
    requires n < |ls|
  {
    var s1 := SubmitStep(s).0;
    if ls[n].releases then ReturnAll(s1, n + 1)
    else if ls[n].blocks then SettleStep(s1, n)
    else CompleteStep(s1, n, None)
  }

  ghost function Rounds(ls: seq<LintStep>, s: State, n: nat): State
    requires n <= |ls|
  {
    if n == 0 then s else Round(ls, Rounds(ls, s, n - 1), n - 1)
  }

  /** A run that has been set up and not stepped yet, with all its actors there. */
  ghost predicate SetUp(s: State) {
    && Inv(s) && s.status == Ready && !s.closed && s.cursor == 0 && s.entries == []
    && forall i :: 0 <= i < |s.steps| ==> Actor(s.steps[i].actor) in s.conns
  }

  /** The run is in step with the scenario: exactly the waiting statements are in flight. */
  ghost predicate InStep(ls: seq<LintStep>, s: State, n: nat) {
    && Inv(s) && SameScenario(ls, s.steps) && n <= |ls|
    && !s.closed && s.status != Preparing && s.status != SetupFailed
    && s.cursor == n && s.entries == []
    && (forall i :: 0 <= i < |s.steps| ==> Actor(s.steps[i].actor) in s.conns)
    && (forall k: nat :: StepTask(k) in s.inFlight <==> Waiting(ls, k, n))
  }

  /** What a completion or a settle leaves alone. */
  ghost predicate SameRun(s: State, t: State) {
    && t.closed == s.closed && t.cursor == s.cursor && t.entries == s.entries && t.conns.Keys == s.conns.Keys
    && (t.status == s.status || t.status == Finished)
    && |t.steps| == |s.steps| && forall i :: 0 <= i < |s.steps| ==>
          t.steps[i].actor == s.steps[i].actor && t.steps[i].want == s.steps[i].want
  }

  lemma CompleteEffect(s: State, i: nat)
    requires Inv(s)
    ensures Inv(CompleteStep(s, i, None)) && SameRun(s, CompleteStep(s, i, None))
    ensures CompleteStep(s, i, None).inFlight == s.inFlight - {StepTask(i)}
  {
    hide Inv, AnyBusy, WithOutcome;
    CompleteStepKeeps(s, i, None);
    if StepTask(i) in s.inFlight {
      FlightHasConn(s, i);
      OutcomeEnds(s.steps[i], None);
    }
  }

  lemma FlightHasConn(s: State, i: nat)
    requires Inv(s) && StepTask(i) in s.inFlight
    ensures i < |s.steps| && Actor(s.steps[i].actor) in s.conns
  {
    hide LatestStep, StatusFits, Sessions, BusyHasFlight, Ledger;
    assert Occupies(s, StepTask(i), ConnOf(s, StepTask(i)));
  }

  lemma {:induction false} ReturnAllEffect(s: State, k: nat)
    requires Inv(s)
    ensures Inv(ReturnAll(s, k)) && SameRun(s, ReturnAll(s, k))
    ensures forall i: nat :: StepTask(i) in ReturnAll(s, k).inFlight <==> StepTask(i) in s.inFlight && i >= k
  {
    hide Inv, CompleteStep;
    if k > 0 {
      ReturnAllEffect(s, k - 1);
      CompleteEffect(ReturnAll(s, k - 1), k - 1);
    }
  }

  lemma SettleEffect(s: State, i: nat)
    requires Inv(s)
    ensures Inv(SettleStep(s, i)) && SameRun(s, SettleStep(s, i)) && SettleStep(s, i).inFlight == s.inFlight
  {
    hide Inv, Classify, MatchesExpectation;
    SettleStepKeeps(s, i);
  }

  /** The busy check sees a waiting statement of the actor, and nothing else. */
  lemma BusyIffWaiting(ls: seq<LintStep>, s: State, n: nat, a: string)
    requires InStep(ls, s, n) && Actor(a) in s.conns
    ensures s.conns[Actor(a)].busy <==> exists k: nat :: Waiting(ls, k, n) && ls[k].actor == a
  {
    hide LatestStep, StatusFits, Sessions, AllJudged, CursorSplits, Waiting;
    if s.conns[Actor(a)].busy {
      var task := Occupant(s.conns[Actor(a)]).value;
      assert Occupies(s, task, Actor(a));
      assert task.StepTask? && Waiting(ls, task.index, n);
    }
    if k: nat :| Waiting(ls, k, n) && ls[k].actor == a {
      assert StepTask(k) in s.inFlight;
      assert Occupies(s, StepTask(k), Actor(a));
    }
  }

  lemma SubmitEffect(ls: seq<LintStep>, s: State, n: nat)
    requires InStep(ls, s, n) && n < |ls| && SubmitStep(s).1.Accepted?
    ensures var s1 := SubmitStep(s).0;
            && Inv(s1) && s1.cursor == n + 1 && s1.status == InProgress && !s1.closed && s1.entries == []
            && SameScenario(ls, s1.steps) && s1.conns.Keys == s.conns.Keys
            && s1.inFlight == s.inFlight + {StepTask(n)}
  {
    hide Inv, Waiting;
    SubmitStepKeeps(s);
  }

  lemma WaitingStep(ls: seq<LintStep>, k: nat, n: nat)
    requires n < |ls|
    ensures Waiting(ls, k, n + 1) <==> !ls[n].releases && ((k == n && ls[n].blocks) || Waiting(ls, k, n))
  {
  }

  /** An accepted step keeps the run in step. */
  lemma RoundKeeps(ls: seq<LintStep>, s: State, n: nat)
    requires InStep(ls, s, n) && n < |ls| && SubmitStep(s).1.Accepted?
    ensures InStep(ls, Round(ls, s, n), n + 1)
  {
    hide Inv, Waiting, SubmitStep, CompleteStep, SettleStep;
    var s1 := SubmitStep(s).0;
    SubmitEffect(ls, s, n);
    forall k: nat
      ensures Waiting(ls, k, n + 1) <==> !ls[n].releases && ((k == n && ls[n].blocks) || Waiting(ls, k, n))
    {
      WaitingStep(ls, k, n);
    }
    WaitingBelow(ls, n);
    if ls[n].releases {
      ReturnAllEffect(s1, n + 1);
    } else if ls[n].blocks {
      SettleEffect(s1, n);
    } else {
      CompleteEffect(s1, n);
    }
  }

  lemma WaitingBelow(ls: seq<LintStep>, n: nat)
    ensures forall k: nat :: Waiting(ls, k, n) ==> k < n
  {
  }

  /** While everything so far was accepted, the run is in step. */
  lemma {:induction false} RoundsKeep(ls: seq<LintStep>, s: State, n: nat)
    requires SetUp(s) && SameScenario(ls, s.steps) && n <= |ls|
    requires forall m: nat :: m < n ==> SubmitStep(Rounds(ls, s, m)).1.Accepted?
    ensures InStep(ls, Rounds(ls, s, n), n)
  {
    hide Round, SubmitStep;
    if n == 0 {
      StartInStep(ls, s);
    } else {
      RoundsKeep(ls, s, n - 1);
      RoundKeeps(ls, Rounds(ls, s, n - 1), n - 1);
    }
  }

  lemma StartInStep(ls: seq<LintStep>, s: State)
    requires SetUp(s) && SameScenario(ls, s.steps)
    ensures InStep(ls, s, 0)
  {
    hide Occupancy, LatestStep, StatusFits, Sessions, AllJudged;
    assert forall k :: 0 <= k < |s.steps| ==> Untouched(s.steps[k]);
  }

  /** The reply to the next step of a run that is in step. */
  lemma NextReply(ls: seq<LintStep>, s: State, n: nat)
    requires InStep(ls, s, n) && n < |ls|
    ensures SubmitStep(s).1.Accepted? <==> !(exists k: nat :: Waiting(ls, k, n) && ls[k].actor == ls[n].actor)
    ensures SubmitStep(s).1.Accepted? || SubmitStep(s).1.Busy?
  {
    hide Inv, Waiting;
    assert Actor(s.steps[n].actor) in s.conns;
    BusyIffWaiting(ls, s, n, ls[n].actor);
  }

  /** The busy check never refuses a step of the run exactly when the scenario is ordered, that
      is, when the linter has no ordering warning. */
  lemma OrderedRunsThrough(ls: seq<LintStep>, s: State)
    requires SetUp(s) && SameScenario(ls, s.steps)
    ensures NeverRefused(ls, s) <==> Ordered(ls)
  {
    hide Ordered, SetUp, Rounds, SubmitStep;
    if NeverRefused(ls, s) {
      AcceptedIsOrdered(ls, s);
    }
    if Ordered(ls) {
      forall n: nat | n < |ls| ensures SubmitStep(Rounds(ls, s, n)).1.Accepted? { OrderedIsAccepted(ls, s, n); }
    }
  }

  ghost predicate NeverRefused(ls: seq<LintStep>, s: State) {
    forall n: nat :: n < |ls| ==> SubmitStep(Rounds(ls, s, n)).1.Accepted?
  }

  lemma AcceptedIsOrdered(ls: seq<LintStep>, s: State)
    requires SetUp(s) && SameScenario(ls, s.steps)
    requires NeverRefused(ls, s)
    ensures Ordered(ls)
  {
    hide SubmitStep, Waiting, Rounds, InStep, SetUp;
    forall i: nat, j: nat | i < j < |ls| && ls[i].actor == ls[j].actor ensures !Waiting(ls, i, j) {
      RoundsKeep(ls, s, j);
      NextReply(ls, Rounds(ls, s, j), j);
    }
  }

  lemma {:induction false} OrderedIsAccepted(ls: seq<LintStep>, s: State, n: nat)
    requires SetUp(s) && SameScenario(ls, s.steps) && Ordered(ls) && n < |ls|
    ensures SubmitStep(Rounds(ls, s, n)).1.Accepted?
  {
    hide SubmitStep, Waiting, Rounds, InStep, SetUp;
    forall m: nat | m < n ensures SubmitStep(Rounds(ls, s, m)).1.Accepted? { OrderedIsAccepted(ls, s, m); }
    RoundsKeep(ls, s, n);
    NextReply(ls, Rounds(ls, s, n), n);
    WaitingBelow(ls, n);
  }
}
