/**
 The ordering check of the scenario linter (internal/agentapi/api.go, lintCase): it warns
 about a step given to an actor whose earlier step is expected to block and has not been
 released. `releases` stands for a statement that starts with COMMIT or ROLLBACK.
 */
module Lint {

  datatype LintStep = LintStep(actor: string, blocks: bool, releases: bool)

  /** Step numbers are 1-based, as the message shows them. */
  datatype Warning = Warning(step: nat, actor: string, prev: nat)

  /** Step i is expected to block and nothing before step n releases it. */
  ghost predicate Waiting(steps: seq<LintStep>, i: nat, n: nat) {
    i < n <= |steps| && steps[i].blocks && forall r :: i <= r < n ==> !steps[r].releases
  }

  /** ... and its actor has had no other step since. */
  ghost predicate Open(steps: seq<LintStep>, i: nat, n: nat) {
    Waiting(steps, i, n) && forall k :: i < k < n ==> steps[k].actor != steps[i].actor
  }

  /** Step j is given to the actor that step i still occupies. */
  ghost predicate Collides(steps: seq<LintStep>, i: nat, j: nat) {
    j < |steps| && Open(steps, i, j) && steps[i].actor == steps[j].actor
  }

  function WarningFor(steps: seq<LintStep>, i: nat, j: nat): Warning
    requires j < |steps|
  {
    Warning(j + 1, steps[j].actor, i + 1)
  }

  lemma OpenStep(steps: seq<LintStep>, i: nat, n: nat)
    requires n < |steps|
    ensures Open(steps, i, n + 1)
       <==> (!steps[n].releases
             && ((i == n && steps[n].blocks) || (Open(steps, i, n) && steps[i].actor != steps[n].actor)))
  {
  }

  /** The map of the source: actor to its open step. */
  ghost predicate Tracks(steps: seq<LintStep>, n: nat, blocked: map<string, nat>) {
    && n <= |steps|
    && (forall a :: a in blocked ==>
          blocked[a] >= 1 && Open(steps, blocked[a] - 1, n) && steps[blocked[a] - 1].actor == a)
    && (forall i: nat :: Open(steps, i, n) ==> steps[i].actor in blocked && blocked[steps[i].actor] == i + 1)
  }

  function Advance(s: LintStep, n: nat, blocked: map<string, nat>): map<string, nat> {
    if s.releases then map[]
    else if s.blocks then blocked[s.actor := n + 1]
    else blocked - {s.actor}
  }

  lemma TracksAdvance(steps: seq<LintStep>, n: nat, blocked: map<string, nat>)
    requires Tracks(steps, n, blocked) && n < |steps|
    ensures Tracks(steps, n + 1, Advance(steps[n], n, blocked))
  {
    hide Open;
    OpenStepAll(steps, n);
    OpenInRange(steps, n);
  }

  lemma OpenStepAll(steps: seq<LintStep>, n: nat)
    requires n < |steps|
    ensures forall i: nat ::
      (Open(steps, i, n + 1)
       <==> (!steps[n].releases
             && ((i == n && steps[n].blocks) || (Open(steps, i, n) && steps[i].actor != steps[n].actor))))
  {
    forall i: nat ensures Open(steps, i, n + 1)
       <==> (!steps[n].releases
             && ((i == n && steps[n].blocks) || (Open(steps, i, n) && steps[i].actor != steps[n].actor)))
    {
      OpenStep(steps, i, n);
    }
  }

  lemma OpenInRange(steps: seq<LintStep>, n: nat)
    ensures forall i: nat :: Open(steps, i, n) ==> i < n <= |steps|
  {
  }

  /** The warnings are exactly the colliding pairs, in step order, one per step, and there is none
      exactly when the scenario is ordered. */
  method LintOrdering(steps: seq<LintStep>) returns (warnings: seq<Warning>)
    ensures warnings == [] <==> Ordered(steps)
    ensures forall i: nat, j: nat :: Collides(steps, i, j) ==> WarningFor(steps, i, j) in warnings
    ensures forall w :: w in warnings ==>
      w.prev >= 1 && w.step >= 1 && Collides(steps, w.prev - 1, w.step - 1)
      && w == WarningFor(steps, w.prev - 1, w.step - 1)
      && w.actor == steps[w.step - 1].actor == steps[w.prev - 1].actor
    ensures forall a, b :: 0 <= a < b < |warnings| ==> warnings[a].step < warnings[b].step
  {
    hide Open, Tracks, Ordered;
    OpenInRange(steps, 0);
    warnings := [];
    var blocked: map<string, nat> := map[];
    StartTracks(steps);
    for j := 0 to |steps|
      invariant Tracks(steps, j, blocked)
      invariant forall i: nat, k: nat :: k < j && Collides(steps, i, k) ==> WarningFor(steps, i, k) in warnings
      invariant forall w :: w in warnings ==>
        1 <= w.step <= j && w.prev >= 1 && Collides(steps, w.prev - 1, w.step - 1)
        && w == WarningFor(steps, w.prev - 1, w.step - 1)
      invariant forall a, b :: 0 <= a < b < |warnings| ==> warnings[a].step < warnings[b].step
    {
      var s := steps[j];
      CollidesIff(steps, j, blocked);
      TracksAdvance(steps, j, blocked);
      ghost var expected := Advance(s, j, blocked);
      if s.actor in blocked {
        warnings := warnings + [Warning(j + 1, s.actor, blocked[s.actor])];
        blocked := blocked - {s.actor};
      }
      if s.blocks {
        blocked := blocked[s.actor := j + 1];
      }
      if s.releases {
        blocked := map[];
      }
      assert blocked == expected;
    }
    QuietIffOrdered(steps, warnings);
  }

  lemma StartTracks(steps: seq<LintStep>)
    ensures Tracks(steps, 0, map[])
  {
  }

  lemma CollidesIff(steps: seq<LintStep>, j: nat, blocked: map<string, nat>)
    requires Tracks(steps, j, blocked) && j < |steps|
    ensures steps[j].actor in blocked ==>
              blocked[steps[j].actor] >= 1 && Collides(steps, blocked[steps[j].actor] - 1, j)
    ensures forall i: nat :: Collides(steps, i, j) ==> steps[j].actor in blocked && blocked[steps[j].actor] == i + 1
  {
  }

  /** The rule the message states: between a step expected to block and any later step of the
      same actor there is a release, at or after the first and before the second. */
  ghost predicate Ordered(steps: seq<LintStep>) {
    forall i: nat, j: nat :: i < j < |steps| && steps[i].actor == steps[j].actor ==> !Waiting(steps, i, j)
  }

  lemma {:induction false} NearestCollision(steps: seq<LintStep>, i: nat, j: nat) returns (k: nat)
    requires i < j < |steps| && steps[i].actor == steps[j].actor && Waiting(steps, i, j)
    ensures Collides(steps, i, k)
    decreases j
  {
    if Open(steps, i, j) {
      k := j;
    } else {
      var m: nat :| i < m < j && steps[m].actor == steps[i].actor;
      k := NearestCollision(steps, i, m);
    }
  }

  lemma CollisionIsUnordered(steps: seq<LintStep>, i: nat, j: nat)
    requires Collides(steps, i, j)
    ensures i < j < |steps| && steps[i].actor == steps[j].actor && Waiting(steps, i, j)
  {
  }

  /** No warning exactly when the scenario is ordered. */
  lemma QuietIffOrdered(steps: seq<LintStep>, warnings: seq<Warning>)
    requires forall i: nat, j: nat :: Collides(steps, i, j) ==> WarningFor(steps, i, j) in warnings
    requires forall w :: w in warnings ==> w.prev >= 1 && w.step >= 1 && Collides(steps, w.prev - 1, w.step - 1)
    ensures warnings == [] <==> Ordered(steps)
  {
    hide Waiting, Open;
    if !Ordered(steps) {
      var i: nat, j: nat :| i < j < |steps| && steps[i].actor == steps[j].actor && Waiting(steps, i, j);
      var k := NearestCollision(steps, i, j);
      assert WarningFor(steps, i, k) in warnings;
    }
    if warnings != [] {
      assert warnings[0] in warnings;
      CollisionIsUnordered(steps, warnings[0].prev - 1, warnings[0].step - 1);
    }
  }
}
