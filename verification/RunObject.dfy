/**
 The run object with the source's fields (internal/engine/run.go, console.go): one method per
 critical section, each proved to do what RunMachine says and to keep its invariant. The
 goroutines a real run has in flight are ghost sets here.
 */
module RunObject {
  import opened Options
  import opened RunMachine

  class Run {
    var status: RunStatus
    var closed: bool
    var setupDone: bool
    var boxReady: bool
    var cursor: nat
    var steps: seq<StepResult>
    var conns: map<ConnId, Conn>
    var consoleOrder: seq<nat>
    var consoleSeq: nat
    var entries: seq<Entry>
    ghost var inFlight: set<Task>
    ghost var settling: set<Task>
    ghost var dialing: set<nat>

    ghost function Now(): State
      reads this
    {
      State(status, closed, setupDone, boxReady, cursor, steps, conns, consoleOrder, consoleSeq, entries,
            inFlight, settling, dialing)
    }

    ghost predicate Valid()
      reads this
    {
      Inv(Now())
    }

    /** New: the case's steps, pending, and its actors, not connected yet. */
    constructor (case_: seq<(string, Expectation)>, actors: set<string>)
      ensures Valid() && Initial(Now())
      ensures |steps| == |case_| && forall i :: 0 <= i < |case_| ==>
               steps[i].actor == case_[i].0 && steps[i].want == case_[i].1
      ensures forall id :: id in conns <==> id.Actor? && id.name in actors
    {
      status, closed, setupDone, boxReady, cursor := Preparing, false, false, false, 0;
      steps := seq(|case_|, i requires 0 <= i < |case_| =>
                 StepResult(case_[i].0, case_[i].1, Pending, None, false, AnyOutcome, NoVerdict));
      conns := map a | a in actors :: Actor(a) := Conn(false, 0, 0, false);
      consoleOrder, consoleSeq, entries := [], 0, [];
      inFlight, settling, dialing := {}, {}, {};
      new;
      InitialInv(Now());
    }

    method StepSubmit() returns (reply: Reply)
      requires Valid()
      modifies this
      ensures Valid() && (Now(), reply) == SubmitStep(old(Now()))
    {
      hide Inv, Submitted;
      SubmitStepKeeps(Now());
      if closed { return RunClosed; }
      if status == Preparing || status == SetupFailed { return NotUsable(status); }
      if cursor >= |steps| { return NoMoreSteps; }
      var i := cursor;
      var a := Actor(steps[i].actor);
      if a !in conns { return UnknownSession; }
      if conns[a].busy { return Busy(conns[a].stepIndex); }
      Start(i, a);
      reply := Accepted(StepTask(i));
    }

    /** The part of the section that takes the step. */
    method Start(i: nat, a: ConnId)
      requires i == cursor < |steps| && a in conns
      modifies this
      ensures Now() == old(Now()).(
                cursor := i + 1, status := InProgress, steps := old(steps)[i := Submitted(old(steps)[i])],
                conns := old(conns)[a := old(conns)[a].(busy := true, stepIndex := i + 1)],
                inFlight := old(inFlight) + {StepTask(i)}, settling := old(settling) + {StepTask(i)})
    {
      cursor := cursor + 1;
      steps := steps[i := steps[i].(status := Running, error := None, verdict := NoVerdict, actual := AnyOutcome)];
      conns := conns[a := conns[a].(busy := true, stepIndex := i + 1)];
      status := InProgress;
      inFlight, settling := inFlight + {StepTask(i)}, settling + {StepTask(i)};
    }

    method StepSettle(i: nat)
      requires Valid() && StepTask(i) in settling
      modifies this
      ensures Valid() && Now() == SettleStep(old(Now()), i)
    {
      hide Inv, Classify, MatchesExpectation;
      SettleStepKeeps(Now(), i);
      SettlingExists(Now(), StepTask(i));
      settling := settling - {StepTask(i)};
      if steps[i].status == Running {
        steps := steps[i := Evaluate(steps[i].(status := Blocked, wasBlocked := true))];
      }
    }

    method AnyBusyLocked() returns (busy: bool)
      ensures busy <==> AnyBusy(conns)
    {
      busy := false;
      var left := conns.Keys;
      while left != {}
        invariant left <= conns.Keys
        invariant forall id :: id in conns && id !in left && id.Actor? ==> !conns[id].busy
        decreases left
      {
        var id :| id in left;
        if id.Actor? && conns[id].busy {
          return true;
        }
        left := left - {id};
      }
    }

    method Execute(i: nat, err: Option<ErrKind>)
      requires Valid() && StepTask(i) in inFlight
      modifies this
      ensures Valid() && Now() == CompleteStep(old(Now()), i, err)
    {
      hide Inv, Evaluate, AnyBusy;
      CompleteStepKeeps(Now(), i, err);
      FlyingExists(Now(), StepTask(i));
      var a := Actor(steps[i].actor);
      var st := steps[i];
      if err.Some? {
        st := st.(status := Failed, error := err);
      } else {
        st := st.(status := Done);
      }
      steps := steps[i := Evaluate(st)];
      conns := conns[a := conns[a].(busy := false)];
      inFlight := inFlight - {StepTask(i)};
      var busy := AnyBusyLocked();
      if cursor >= |steps| && !busy && status == InProgress {
        status := Finished;
      }
    }

    method ConsoleSubmit(id: ConnId) returns (reply: Reply)
      requires Valid()
      modifies this
      ensures Valid() && (Now(), reply) == SubmitConsole(old(Now()), id)
    {
      hide Inv;
      SubmitConsoleKeeps(Now(), id);
      if closed { return RunClosed; }
      if status == Preparing { return NotUsable(status); }
      if id !in conns || (id.Session? && id.n !in consoleOrder) { return UnknownSession; }
      if !conns[id].connected { return NotConnected; }
      if conns[id].busy { return Busy(conns[id].stepIndex); }
      var i := |entries|;
      entries := entries + [Entry(id, Running, None, false)];
      conns := conns[id := conns[id].(busy := true, consoleId := i + 1)];
      inFlight, settling := inFlight + {EntryTask(i)}, settling + {EntryTask(i)};
      reply := Accepted(EntryTask(i));
    }

    method ConsoleSettle(i: nat)
      requires Valid() && EntryTask(i) in settling
      modifies this
      ensures Valid() && Now() == SettleConsole(old(Now()), i)
    {
      hide Inv;
      SettleConsoleKeeps(Now(), i);
      SettlingExists(Now(), EntryTask(i));
      settling := settling - {EntryTask(i)};
      if entries[i].status == Running {
        entries := entries[i := entries[i].(status := Blocked, wasBlocked := true)];
      }
    }

    method ExecuteConsole(i: nat, err: Option<ErrKind>)
      requires Valid() && EntryTask(i) in inFlight
      modifies this
      ensures Valid() && Now() == CompleteConsole(old(Now()), i, err)
    {
      hide Inv;
      CompleteConsoleKeeps(Now(), i, err);
      FlyingExists(Now(), EntryTask(i));
      var e := entries[i];
      if err.Some? {
        e := e.(status := Failed, error := err);
      } else {
        e := e.(status := Done);
      }
      entries := entries[i := e];
      conns := conns[e.session := conns[e.session].(busy := false, consoleId := 0)];
      inFlight := inFlight - {EntryTask(i)};
    }

    method OpenSessionBegin() returns (n: Option<nat>)
      requires Valid()
      modifies this
      ensures Valid() && Now() == BeginOpen(old(Now()))
      ensures n == if Now() == old(Now()) then None else Some(consoleSeq)
    {
      hide Inv;
      OtherActionsKeep(Now(), DoBeginOpen);
      if closed || !boxReady || |consoleOrder| >= MAX_SESSIONS { return None; }
      consoleSeq := consoleSeq + 1;
      dialing := dialing + {consoleSeq};
      n := Some(consoleSeq);
    }

    method OpenSessionRegister(n: nat)
      requires Valid() && n in dialing
      modifies this
      ensures Valid() && Now() == RegisterSession(old(Now()), n)
    {
      hide Inv;
      RegisterKeeps(Now(), n);
      conns := conns[Session(n) := Conn(false, 0, 0, true)];
      consoleOrder := consoleOrder + [n];
      dialing := dialing - {n};
    }

    /** The loop that takes the session out of the order. */
    method CloseOne(n: nat) returns (ok: bool)
      requires Valid()
      modifies this
      ensures Valid() && Now() == CloseSession(old(Now()), n)
      ensures ok <==> n in old(consoleOrder)
    {
      hide Inv;
      OtherActionsKeep(Now(), DoCloseSession(n));
      ok := n in consoleOrder;
      if !ok { return; }
      var i := IndexOf(consoleOrder, n);
      WithoutAt(consoleOrder, n, i);
      consoleOrder := consoleOrder[..i] + consoleOrder[i + 1..];
    }

    method Close()
      requires Valid()
      modifies this
      ensures Valid() && Now() == CloseRun(old(Now()))
    {
      hide Inv;
      OtherActionsKeep(Now(), DoClose);
      if closed { return; }
      closed := true;
      status := ClosedStatus;
    }

    method EndSetup(ok: bool)
      requires Valid() && !setupDone
      modifies this
      ensures Valid() && Now() == FinishSetup(old(Now()), ok)
    {
      hide Inv;
      OtherActionsKeep(Now(), DoFinishSetup(ok));
      setupDone := true;
      status := if ok then Ready else SetupFailed;
    }
  }

  lemma SettlingExists(s: State, t: Task)
    requires Inv(s) && t in s.settling
    ensures Exists(s, t)
  {
    hide Ledger, Occupancy, LatestStep, StatusFits;
  }

  lemma FlyingExists(s: State, t: Task)
    requires Inv(s) && t in s.inFlight
    ensures Exists(s, t) && ConnOf(s, t) in s.conns
  {
    hide Ledger, BusyHasFlight, LatestStep, StatusFits, Sessions;
    assert Occupies(s, t, ConnOf(s, t));
  }

  method IndexOf(q: seq<nat>, n: nat) returns (i: nat)
    requires n in q
    ensures i < |q| && q[i] == n && n !in q[..i]
  {
    i := 0;
    while q[i] != n
      invariant 0 <= i < |q| && n !in q[..i] && n in q[i..]
      decreases |q| - i
    {
      assert q[i..] == [q[i]] + q[i + 1..];
      i := i + 1;
    }
  }

  lemma {:induction false} WithoutAt(q: seq<nat>, n: nat, i: nat)
    requires i < |q| && q[i] == n && n !in q[..i]
    ensures Without(q, n) == q[..i] + q[i + 1..]
  {
    if i == 0 {
      assert q[..0] + q[1..] == q[1..];
    } else {
      assert q[..i][0] == q[0];
      assert q[1..][..i - 1] == q[..i][1..];
      WithoutAt(q[1..], n, i - 1);
      assert [q[0]] + (q[1..][..i - 1] + q[1..][i..]) == q[..i] + q[i + 1..];
    }
  }
}
