/**
 The scenario shrinker (internal/agentapi/jobs.go, runShrink): greedy removal of one step at a
 time, each candidate played against a real server. The server is an oracle that may answer
 anything on each attempt, and the job may be cancelled at any poll.
 */
module Shrink {

  datatype Outcome = Reproduced | NotReproduced | Failed

  const MAX_ATTEMPTS: nat := 80

  /** What the loop asks of the world: whether a candidate is a valid case, what the k-th attempt
      shows, and whether the k-th look at the context finds it cancelled. */
  datatype World<!T> = World(valid: seq<T> -> bool, outcome: (nat, seq<T>) -> Outcome, cancelled: nat -> bool)

  /** A cancelled context stays cancelled. */
  ghost predicate CancelSticks<T>(w: World<T>) {
    forall j: nat, k: nat :: j <= k && w.cancelled(j) ==> w.cancelled(k)
  }

  function Without<T>(q: seq<T>, i: nat): (r: seq<T>)
    requires i < |q|
    ensures |r| == |q| - 1
  {
    q[..i] + q[i + 1..]
  }

  ghost predicate Increasing(kept: seq<nat>) {
    forall i, j :: 0 <= i < j < |kept| ==> kept[i] < kept[j]
  }

  /** `current` is the subsequence of `base` at the positions `kept`. */
  ghost predicate PicksOut<T>(base: seq<T>, kept: seq<nat>, current: seq<T>) {
    && Increasing(kept) && |kept| == |current|
    && forall i :: 0 <= i < |kept| ==> kept[i] < |base| && current[i] == base[kept[i]]
  }

  /** One attempt: the steps it set out from, the one it left out, and what it saw. */
  datatype Attempt<T> = Attempt(from: seq<T>, at: nat, outcome: Outcome)

  ghost predicate Plays<T>(a: Attempt<T>, c: seq<T>) { a.at < |a.from| && Without(a.from, a.at) == c }

  /** The log says what was played and seen: entry k is a case that can be played, and the k-th
      answer of the server. */
  ghost predicate Truthful<T>(w: World<T>, played: seq<Attempt<T>>) {
    forall k :: 0 <= k < |played| ==>
      && played[k].at < |played[k].from|
      && var c := Without(played[k].from, played[k].at);
         c != [] && w.valid(c) && played[k].outcome == w.outcome(k, c)
  }

  /** This very candidate was played and seen to reproduce. */
  ghost predicate Observed<T>(played: seq<Attempt<T>>, c: seq<T>) {
    exists k :: 0 <= k < |played| && Plays(played[k], c) && played[k].outcome == Reproduced
  }

  /** Removing step i was not an option, or was played and did not reproduce. */
  ghost predicate Tried<T>(w: World<T>, played: seq<Attempt<T>>, current: seq<T>, i: nat)
    requires i < |current|
  {
    || Without(current, i) == [] || !w.valid(Without(current, i))
    || exists k :: 0 <= k < |played| && Misses(played[k], current, i)
  }

  ghost predicate Misses<T>(a: Attempt<T>, current: seq<T>, i: nat) {
    a.from == current && a.at == i && a.outcome != Reproduced
  }

  lemma WithoutPicks<T>(base: seq<T>, kept: seq<nat>, current: seq<T>, i: nat)
    requires PicksOut(base, kept, current) && i < |current|
    ensures PicksOut(base, Without(kept, i), Without(current, i))
  {
    var k, c := Without(kept, i), Without(current, i);
    assert forall j :: 0 <= j < |k| ==>
      k[j] == kept[if j < i then j else j + 1] && c[j] == current[if j < i then j else j + 1];
  }

  lemma WithoutConserves<T>(current: seq<T>, i: nat)
    requires i < |current|
    ensures multiset(Without(current, i)) + multiset{current[i]} == multiset(current)
  {
    assert current == current[..i] + [current[i]] + current[i + 1..];
  }

  lemma TriedLater<T>(w: World<T>, played: seq<Attempt<T>>, a: Attempt<T>, current: seq<T>, i: nat)
    requires i < |current| && Tried(w, played, current, i)
    ensures Tried(w, played + [a], current, i)
  {
    if k :| 0 <= k < |played| && Misses(played[k], current, i) {
      assert (played + [a])[k] == played[k];
    }
  }

  lemma TriedNow<T>(w: World<T>, played: seq<Attempt<T>>, outcome: Outcome, current: seq<T>, i: nat)
    requires i < |current| && outcome != Reproduced
    ensures Tried(w, played + [Attempt(current, i, outcome)], current, i)
  {
    var a := Attempt(current, i, outcome);
    assert (played + [a])[|played|] == a && Misses(a, current, i);
  }

  /** What the report says of a job. */
  datatype Note = EveryStepNecessary | ReducedTo(original: nat, minimal: nat)

  /** The result of a job. */
  datatype Result<T> = Result(current: seq<T>, kept: seq<nat>, removed: seq<T>, attempts: nat, marks: seq<bool>,
                              note: Note, aborted: bool)

  /** The steps the attempts leave: those that the last one set out from, less the one it left out if
      the rest reproduced. */
  ghost function Leaves<T>(base: seq<T>, played: seq<Attempt<T>>): seq<T> {
    if played == [] then base
    else
      var a := played[|played| - 1];
      if a.outcome == Reproduced && a.at < |a.from| then Without(a.from, a.at) else a.from
  }

  /** Each attempt sets out from what the ones before it leave. */
  ghost predicate Chained<T>(base: seq<T>, played: seq<Attempt<T>>) {
    forall k :: 0 <= k < |played| ==> played[k].from == Leaves(base, played[..k])
  }

  lemma ChainedOn<T>(base: seq<T>, played: seq<Attempt<T>>, a: Attempt<T>)
    requires Chained(base, played) && a.from == Leaves(base, played)
    ensures Chained(base, played + [a])
  {
    hide Leaves;
    var more := played + [a];
    assert more[..|played|] == played;
    forall k | 0 <= k < |more| ensures more[k].from == Leaves(base, more[..k]) {
      assert more[..k] == played[..k];
    }
  }

  /** What every reduction keeps, however the oracle answers and whenever it is cancelled. */
  ghost predicate Reduction<T>(w: World<T>, base: seq<T>, current: seq<T>, kept: seq<nat>, removed: seq<T>,
                               played: seq<Attempt<T>>)
  {
    && PicksOut(base, kept, current)
    && (base != [] ==> current != [])
    && multiset(current) + multiset(removed) == multiset(base)
    && |current| + |removed| == |base|
    && |played| <= MAX_ATTEMPTS && Truthful(w, played)
    && Chained(base, played) && current == Leaves(base, played)
    && (removed != [] ==> w.valid(current) && Observed(played, current))
  }

  lemma DropKeepsReduction<T>(w: World<T>, base: seq<T>, current: seq<T>, kept: seq<nat>, removed: seq<T>,
                              played: seq<Attempt<T>>, i: nat)
    requires Reduction(w, base, current, kept, removed, played) && |played| < MAX_ATTEMPTS
    requires i < |current| && Without(current, i) != [] && w.valid(Without(current, i))
    requires w.outcome(|played|, Without(current, i)) == Reproduced
    ensures Reduction(w, base, Without(current, i), Without(kept, i), removed + [current[i]],
                      played + [Attempt(current, i, Reproduced)])
  {
    hide PicksOut, Truthful, Observed, Without, Chained;
    ChainedOn(base, played, Attempt(current, i, Reproduced));
    WithoutPicks(base, kept, current, i);
    WithoutConserves(current, i);
    TruthfulOn(w, played, Attempt(current, i, Reproduced));
    ObservedNow(played, current, i);
  }

  lemma TruthfulOn<T>(w: World<T>, played: seq<Attempt<T>>, a: Attempt<T>)
    requires Truthful(w, played) && a.at < |a.from|
    requires var c := Without(a.from, a.at); c != [] && w.valid(c) && a.outcome == w.outcome(|played|, c)
    ensures Truthful(w, played + [a])
  {
    hide Without;
  }

  lemma ObservedNow<T>(played: seq<Attempt<T>>, current: seq<T>, i: nat)
    requires i < |current|
    ensures Observed(played + [Attempt(current, i, Reproduced)], Without(current, i))
  {
    hide Without;
    var a := Attempt(current, i, Reproduced);
    assert (played + [a])[|played|] == a && Plays(a, Without(current, i));
  }

  lemma ObservedLater<T>(played: seq<Attempt<T>>, a: Attempt<T>, c: seq<T>)
    requires Observed(played, c)
    ensures Observed(played + [a], c)
  {
    hide Plays;
    var k :| 0 <= k < |played| && Plays(played[k], c) && played[k].outcome == Reproduced;
    assert (played + [a])[k] == played[k];
  }

  lemma AttemptKeepsReduction<T>(w: World<T>, base: seq<T>, current: seq<T>, kept: seq<nat>, removed: seq<T>,
                                 played: seq<Attempt<T>>, i: nat)
    requires Reduction(w, base, current, kept, removed, played) && |played| < MAX_ATTEMPTS
    requires i < |current| && Without(current, i) != [] && w.valid(Without(current, i))
    requires w.outcome(|played|, Without(current, i)) != Reproduced
    ensures Reduction(w, base, current, kept, removed,
                      played + [Attempt(current, i, w.outcome(|played|, Without(current, i)))])
  {
    hide PicksOut, Truthful, Observed, Without, Chained;
    var a := Attempt(current, i, w.outcome(|played|, Without(current, i)));
    TruthfulOn(w, played, a);
    ChainedOn(base, played, a);
    if removed != [] { ObservedLater(played, a, current); }
  }

  /** The attempts of a pass that removed nothing: all set out from the same steps, each from an
      earlier one than the last, and none reproduced. */
  ghost predicate OnePass<T>(current: seq<T>, played: seq<Attempt<T>>) {
    && (forall k :: 0 <= k < |played| ==>
          played[k].from == current && played[k].at < |current| && played[k].outcome != Reproduced)
    && (forall j, k :: 0 <= j < k < |played| ==> played[j].at > played[k].at)
  }

  /** No single further removal is possible: each was ruled out by an attempt of its own. */
  ghost predicate Settled<T>(w: World<T>, played: seq<Attempt<T>>, current: seq<T>) {
    forall i :: 0 <= i < |current| ==> Tried(w, played, current, i)
  }

  /** What a job promises about its result and the attempts it made. */
  ghost predicate JobDone<T>(w: World<T>, base: seq<T>, r: Result<T>, played: seq<Attempt<T>>, polls: nat) {
    && Reduction(w, base, r.current, r.kept, r.removed, played)
    && r.attempts == |played|
    && |r.marks| == |base| && (forall i :: 0 <= i < |base| ==> (r.marks[i] <==> i in r.kept))
    && r.note == (if r.removed == [] then EveryStepNecessary else ReducedTo(|base|, |r.current|))
    && (r.attempts < MAX_ATTEMPTS && !r.aborted ==> Settled(w, played, r.current))
    && (r.removed == [] ==> OnePass(base, played))
    && (r.aborted <==> w.cancelled(polls)) && |played| <= polls <= MostPolls(|r.removed|, |base|)
  }

  /** The context is looked at before each pass and each step of a pass, once when a pass ends, and once
      at the end of the job; all passes but the last remove something. */
  function MostPolls(removed: nat, steps: nat): nat {
    if removed == 0 then steps + 3 else steps + 2 + MostPolls(removed - 1, steps)
  }

  lemma {:induction false} MorePasses(a: nat, b: nat, steps: nat)
    requires a < b
    ensures MostPolls(a, steps) + steps + 2 <= MostPolls(b, steps)
    decreases b
  {
    if a + 1 < b { MorePasses(a, b - 1, steps); }
  }

  /** A job, and the attempts it made. */
  method RunShrink<T>(w: World<T>, base: seq<T>)
    returns (r: Result<T>, ghost played: seq<Attempt<T>>, ghost lastPoll: nat)
    requires CancelSticks(w)
    ensures JobDone(w, base, r, played, lastPoll)
    ensures (forall k: nat :: !w.cancelled(k)) ==> !r.aborted
    ensures PicksOut(base, r.kept, r.current) && multiset(r.current) + multiset(r.removed) == multiset(base)
    ensures r.attempts <= 80
    ensures |r.marks| == |base| && forall i :: 0 <= i < |base| ==> (r.marks[i] <==> i in r.kept)
  {
    hide Reduction, Settled, OnePass;
    var current := base;
    var kept: seq<nat> := seq(|base|, i requires 0 <= i => i);
    var removed: seq<T> := [];
    var attempts: nat, polls: nat := 0, 0;
    played := [];
    StartReduction(w, base, kept);
    lastPoll := 0;
    var changed := true;
    // whether a whole pass went by without a removal
    ghost var settled := false;
    while changed && attempts < MAX_ATTEMPTS && !w.cancelled(polls)
      invariant Reduction(w, base, current, kept, removed, played) && attempts == |played|
      invariant !changed && attempts < MAX_ATTEMPTS && !w.cancelled(polls) ==> settled
      invariant settled ==> Settled(w, played, current)
      invariant removed == [] ==> OnePass(base, played) && (changed ==> played == [])
      invariant |current| + |removed| == |base| && attempts <= polls
      invariant polls + (if changed then |base| + 3 else 1) <= MostPolls(|removed|, |base|)
      decreases |current| + if changed then 1 else 0
    {
      NothingRemoved(w, base, current, kept, removed, played);
      ghost var before := |removed|;
      changed, current, kept, removed, attempts, polls, played :=
        Pass(w, base, current, kept, removed, attempts, polls + 1, played);
      settled := !changed && attempts < MAX_ATTEMPTS && !w.cancelled(polls);
      polls := polls + 1;
      SameLength(w, base, current, kept, removed, played);
      if changed { MorePasses(before, |removed|, |base|); }
    }
    SameLength(w, base, current, kept, removed, played);
    lastPoll := polls + 1;
    var marks := Marks(|base|, kept);
    var note := if |current| == |base| then EveryStepNecessary else ReducedTo(|base|, |current|);
    r := Result(current, kept, removed, attempts, marks, note, w.cancelled(polls + 1));
    ReductionMeans(w, base, current, kept, removed, played);
  }

  lemma ReductionMeans<T>(w: World<T>, base: seq<T>, current: seq<T>, kept: seq<nat>, removed: seq<T>,
                          played: seq<Attempt<T>>)
    requires Reduction(w, base, current, kept, removed, played)
    ensures PicksOut(base, kept, current) && multiset(current) + multiset(removed) == multiset(base)
    ensures |played| <= MAX_ATTEMPTS
  {
    hide PicksOut, Truthful, Observed;
  }

  lemma StartReduction<T>(w: World<T>, base: seq<T>, kept: seq<nat>)
    requires |kept| == |base| && forall i :: 0 <= i < |kept| ==> kept[i] == i
    ensures Reduction(w, base, base, kept, [], []) && OnePass(base, [])
  {
  }

  /** One pass from the last step to the first. */
  method Pass<T>(w: World<T>, base: seq<T>, current0: seq<T>, kept0: seq<nat>, removed0: seq<T>, attempts0: nat,
                 polls0: nat, ghost played0: seq<Attempt<T>>)
    returns (changed: bool, current: seq<T>, kept: seq<nat>, removed: seq<T>, attempts: nat, polls: nat,
             ghost played: seq<Attempt<T>>)
    requires Reduction(w, base, current0, kept0, removed0, played0) && attempts0 == |played0|
    ensures Reduction(w, base, current, kept, removed, played) && attempts == |played|
    ensures if changed then |current| < |current0| && removed != [] else current == current0 && removed == removed0
    ensures !changed && attempts < MAX_ATTEMPTS && !w.cancelled(polls) ==> Settled(w, played, current)
    ensures !changed ==> played0 <= played && OnePass(current, played[|played0|..])
    ensures attempts0 <= attempts && polls0 + (attempts - attempts0) <= polls <= polls0 + |current0|
  {
    hide Reduction, Tried, OnePass;
    changed, current, kept, removed, attempts, polls := false, current0, kept0, removed0, attempts0, polls0;
    played := played0;
    ghost var added: seq<Attempt<T>> := [];
    NoAttempts(current);
    SameLength(w, base, current, kept, removed, played);
    var i := |current| - 1;
    while i >= 0 && attempts < MAX_ATTEMPTS && !w.cancelled(polls)
      invariant Reduction(w, base, current, kept, removed, played) && |kept| == |current| && attempts == |played|
      invariant -1 <= i < |current|
      invariant attempts0 <= attempts && polls0 + (attempts - attempts0) <= polls
      invariant polls + i + 1 == polls0 + |current0|
      invariant if changed then |current| < |current0| && removed != [] else current == current0 && removed == removed0
      invariant !changed ==> forall j :: i < j < |current| ==> Tried(w, played, current, j)
      invariant !changed ==> played == played0 + added && PassSoFar(current, added, i)
      decreases i
    {
      var candidate := Without(current, i);
      var candidateKept := Without(kept, i);
      if candidate == [] || !w.valid(candidate) {
        Untriable(w, played, current, i);
        PassSkips(current, added, i);
      } else {
        attempts := attempts + 1;
        ghost var a := Attempt(current, i, w.outcome(attempts - 1, candidate));
        if w.outcome(attempts - 1, candidate) == Reproduced {
          DropKeepsReduction(w, base, current, kept, removed, played, i);
          removed := removed + [current[i]];
          current, kept, changed := candidate, candidateKept, true;
        } else {
          AttemptKeepsReduction(w, base, current, kept, removed, played, i);
          TriedNow(w, played, a.outcome, current, i);
          forall j | i < j < |current| && !changed ensures Tried(w, played + [a], current, j) {
            TriedLater(w, played, a, current, j);
          }
          if !changed {
            PassGoesOn(current, added, i, a);
            assert played0 + added + [a] == played0 + (added + [a]);
          }
          added := added + [a];
        }
        played := played + [a];
        SameLength(w, base, current, kept, removed, played);
      }
      i := i - 1;
      polls := polls + 1;
    }
    assert !changed ==> played[|played0|..] == added;
  }

  /** The pass has got as far as step i. */
  ghost predicate PassSoFar<T>(current: seq<T>, added: seq<Attempt<T>>, i: int) {
    OnePass(current, added) && forall k :: 0 <= k < |added| ==> added[k].at > i
  }

  lemma NoAttempts<T>(current: seq<T>)
    ensures PassSoFar(current, [], |current| - 1)
  {
  }

  lemma PassSkips<T>(current: seq<T>, added: seq<Attempt<T>>, i: nat)
    ensures PassSoFar(current, added, i) ==> PassSoFar(current, added, i - 1)
  {
  }

  lemma PassGoesOn<T>(current: seq<T>, added: seq<Attempt<T>>, i: nat, a: Attempt<T>)
    requires PassSoFar(current, added, i) && i < |current|
    requires a.from == current && a.at == i && a.outcome != Reproduced
    ensures PassSoFar(current, added + [a], i - 1)
  {
  }

  lemma NothingRemoved<T>(w: World<T>, base: seq<T>, current: seq<T>, kept: seq<nat>, removed: seq<T>,
                          played: seq<Attempt<T>>)
    requires Reduction(w, base, current, kept, removed, played)
    ensures removed == [] ==> current == base
  {
    if removed == [] { FullPick(base, kept, current, |base|); }
  }

  lemma SameLength<T>(w: World<T>, base: seq<T>, current: seq<T>, kept: seq<nat>, removed: seq<T>,
                      played: seq<Attempt<T>>)
    requires Reduction(w, base, current, kept, removed, played)
    ensures |kept| == |current| && |current| + |removed| == |base|
  {
  }

  lemma Untriable<T>(w: World<T>, played: seq<Attempt<T>>, current: seq<T>, i: nat)
    requires i < |current| && (Without(current, i) == [] || !w.valid(Without(current, i)))
    ensures Tried(w, played, current, i)
  {
  }

  method Marks(n: nat, kept: seq<nat>) returns (marks: seq<bool>)
    ensures |marks| == n && forall i :: 0 <= i < n ==> (marks[i] <==> i in kept)
  {
    var keptSet: set<nat> := {};
    for j := 0 to |kept|
      invariant forall x :: x in keptSet <==> x in kept[..j]
    {
      keptSet := keptSet + {kept[j]};
    }
    assert kept[..|kept|] == kept;
    marks := [];
    for i := 0 to n
      invariant |marks| == i && forall j :: 0 <= j < i ==> (marks[j] <==> j in kept)
    {
      marks := marks + [i in keptSet];
    }
  }

  // ---- against a server that behaves the same every time

  /** The oracle's answer depends on the candidate alone, and it never errs. */
  ghost predicate Deterministic<T(!new)>(w: World<T>) {
    && (forall j: nat, k: nat, c :: w.outcome(j, c) == w.outcome(k, c))
    && (forall k: nat, c :: w.outcome(k, c) != Failed)
  }

  /** Then a job that ran to its end is 1-minimal: dropping any one more step leaves nothing, an
      invalid case, or one that never reproduces. */
  lemma OneMinimal<T(!new)>(w: World<T>, base: seq<T>, r: Result<T>, played: seq<Attempt<T>>, polls: nat, i: nat)
    requires Deterministic(w) && JobDone(w, base, r, played, polls)
    requires r.attempts < 80 && !r.aborted && i < |r.current|
    ensures var c := Without(r.current, i);
            c == [] || !w.valid(c) || forall k: nat :: w.outcome(k, c) == NotReproduced
  {
    var c := Without(r.current, i);
    assert Tried(w, played, r.current, i);
    if c != [] && w.valid(c) {
      var j :| 0 <= j < |played| && Misses(played[j], r.current, i);
      forall k: nat ensures w.outcome(k, c) == NotReproduced {
        assert w.outcome(k, c) == w.outcome(j, c);
        assert w.outcome(k, c) != Failed;
      }
    }
  }

  /** A job that is never cancelled, against a server that behaves the same every time, is 1-minimal or
      has made all the attempts it may. */
  lemma UncancelledIsMinimal<T(!new)>(w: World<T>, base: seq<T>, r: Result<T>, played: seq<Attempt<T>>, polls: nat,
                                      i: nat)
    requires Deterministic(w) && JobDone(w, base, r, played, polls) && forall k: nat :: !w.cancelled(k)
    requires i < |r.current|
    ensures var c := Without(r.current, i);
            || r.attempts == 80
            || c == [] || !w.valid(c) || forall k: nat :: w.outcome(k, c) == NotReproduced
  {
    hide Deterministic, Truthful, OnePass, Settled, Observed;
    if r.attempts < 80 {
      OneMinimal(w, base, r, played, polls, i);
    }
  }

  /** What is reported removed is everything else: the kept positions and their number. */
  lemma NothingLost<T>(w: World<T>, base: seq<T>, r: Result<T>, played: seq<Attempt<T>>, polls: nat)
    requires JobDone(w, base, r, played, polls)
    ensures |r.kept| + |r.removed| == |base|
    ensures r.removed == [] <==> r.current == base
    ensures r.note == EveryStepNecessary <==> r.current == base
  {
    hide Truthful, Observed, OnePass, Settled;
    NothingRemoved(w, base, r.current, r.kept, r.removed, played);
  }

  // ---- when the report is right

  /** Leaving out step i of the original was played and the behaviour did not show. */
  ghost predicate ShownNecessary<T>(base: seq<T>, played: seq<Attempt<T>>, i: nat) {
    exists k :: 0 <= k < |played| && played[k] == Attempt(base, i, NotReproduced)
  }

  /** "Every step turned out to be necessary." */
  ghost predicate Earned<T>(base: seq<T>, played: seq<Attempt<T>>) {
    forall i: nat :: i < |base| ==> ShownNecessary(base, played, i)
  }

  /** Each step was left out by some attempt. */
  ghost predicate AllTaken<T>(base: seq<T>, played: seq<Attempt<T>>) {
    forall i: nat :: i < |base| ==> TakenBy(played, i)
  }

  ghost predicate TakenBy<T>(played: seq<Attempt<T>>, i: nat) { exists k :: 0 <= k < |played| && played[k].at == i }

  ghost predicate NoneErred<T>(played: seq<Attempt<T>>) {
    forall k :: 0 <= k < |played| ==> played[k].outcome != Failed
  }

  lemma {:induction false} AtMost<T>(base: seq<T>, played: seq<Attempt<T>>, k: nat)
    requires OnePass(base, played) && k < |played|
    ensures played[k].at <= |base| - 1 - k
  {
    if k > 0 { AtMost(base, played, k - 1); }
  }

  /** If every step was taken, the k-th attempt took the k-th from the end. */
  lemma {:induction false} InTurn<T>(base: seq<T>, played: seq<Attempt<T>>, m: nat)
    requires OnePass(base, played) && AllTaken(base, played) && m <= |base|
    ensures m <= |played| && forall k :: 0 <= k < m ==> played[k].at == |base| - 1 - k
  {
    hide OnePass;
    if m > 0 {
      InTurn(base, played, m - 1);
      assert TakenBy(played, |base| - m);
      var k :| 0 <= k < |played| && played[k].at == |base| - m;
      assert k >= m - 1;
      NotBefore(base, played, m - 1, k);
      AtMost(base, played, m - 1);
    }
  }

  lemma NotBefore<T>(base: seq<T>, played: seq<Attempt<T>>, j: nat, k: nat)
    requires OnePass(base, played) && j <= k < |played|
    ensures played[j].at >= played[k].at
  {
  }

  lemma AsManyAsSteps<T>(base: seq<T>, played: seq<Attempt<T>>)
    requires OnePass(base, played)
    ensures |played| <= |base| && (AllTaken(base, played) <==> |played| == |base|)
  {
    hide OnePass, AllTaken;
    if |played| > 0 { AtMost(base, played, |played| - 1); }
    if AllTaken(base, played) { InTurn(base, played, |base|); }
    if |played| == |base| { EachTaken(base, played); }
  }

  lemma EachTaken<T>(base: seq<T>, played: seq<Attempt<T>>)
    requires OnePass(base, played) && |played| == |base|
    ensures AllTaken(base, played)
  {
    forall i: nat | i < |base| ensures TakenBy(played, i) {
      Exactly(base, played, |base| - 1 - i);
      assert played[|base| - 1 - i].at == i;
    }
  }

  /** As many strictly falling positions as there are leave no room to skip one. */
  lemma {:induction false} Exactly<T>(base: seq<T>, played: seq<Attempt<T>>, k: nat)
    requires OnePass(base, played) && |played| == |base| && k < |played|
    ensures played[k].at == |base| - 1 - k
    decreases |played| - k
  {
    AtMost(base, played, k);
    if k + 1 < |played| { Exactly(base, played, k + 1); }
  }

  lemma TakenOnce<T>(base: seq<T>, played: seq<Attempt<T>>, j: nat, k: nat)
    requires OnePass(base, played) && j < |played| && k < |played| && played[j].at == played[k].at
    ensures j == k
  {
  }

  lemma EarnedIff<T>(base: seq<T>, played: seq<Attempt<T>>)
    requires OnePass(base, played)
    ensures Earned(base, played) <==> |played| == |base| && NoneErred(played)
  {
    hide OnePass;
    AsManyAsSteps(base, played);
    if Earned(base, played) {
      forall i: nat | i < |base| ensures TakenBy(played, i) { assert ShownNecessary(base, played, i); }
      forall k | 0 <= k < |played| ensures played[k].outcome != Failed { EarnedAt(base, played, k); }
    }
    if |played| == |base| && NoneErred(played) {
      forall i: nat | i < |base| ensures ShownNecessary(base, played, i) {
        assert TakenBy(played, i);
        var k :| 0 <= k < |played| && played[k].at == i;
        NotReproducedAt(base, played, k);
      }
    }
  }

  lemma EarnedAt<T>(base: seq<T>, played: seq<Attempt<T>>, k: nat)
    requires OnePass(base, played) && Earned(base, played) && k < |played|
    ensures played[k].outcome == NotReproduced
  {
    assert ShownNecessary(base, played, played[k].at);
    var j :| 0 <= j < |played| && played[j] == Attempt(base, played[k].at, NotReproduced);
    TakenOnce(base, played, j, k);
  }

  lemma NotReproducedAt<T>(base: seq<T>, played: seq<Attempt<T>>, k: nat)
    requires OnePass(base, played) && NoneErred(played) && k < |played|
    ensures played[k] == Attempt(base, played[k].at, NotReproduced)
  {
  }

  /** Every single-step removal leaves a case that can be played. */
  ghost predicate AllPlayable<T>(w: World<T>, base: seq<T>) {
    forall i :: 0 <= i < |base| ==> Without(base, i) != [] && w.valid(Without(base, i))
  }

  /** When a job reports that every step is necessary, it has shown so exactly if it made as many
      attempts as there are steps and none of them erred. Below the cap and uncancelled that is: every
      removal leaves a case that can be played, and no attempt erred. */
  lemma NoteIsRightIff<T>(w: World<T>, base: seq<T>, r: Result<T>, played: seq<Attempt<T>>, polls: nat)
    requires JobDone(w, base, r, played, polls) && r.note == EveryStepNecessary
    ensures Earned(base, played) <==> r.attempts == |base| && NoneErred(played)
    ensures r.attempts < 80 && !r.aborted ==>
              (Earned(base, played) <==> AllPlayable(w, base) && NoneErred(played))
  {
    hide Earned, NoneErred, AllPlayable, OnePass, Settled, Reduction;
    NothingRemoved(w, base, r.current, r.kept, r.removed, played);
    EarnedIff(base, played);
    if r.attempts < 80 && !r.aborted {
      PlayableIff(w, base, r, played, polls);
    }
  }

  lemma PlayableIff<T>(w: World<T>, base: seq<T>, r: Result<T>, played: seq<Attempt<T>>, polls: nat)
    requires JobDone(w, base, r, played, polls) && r.removed == [] && r.current == base
    requires r.attempts < 80 && !r.aborted
    ensures |played| == |base| <==> AllPlayable(w, base)
  {
    hide OnePass, PicksOut, Observed;
    AsManyAsSteps(base, played);
    if AllTaken(base, played) {
      forall i | 0 <= i < |base| ensures Without(base, i) != [] && w.valid(Without(base, i)) {
        assert TakenBy(played, i);
        var k :| 0 <= k < |played| && played[k].at == i;
        FromBase(base, played, k);
      }
    }
    if AllPlayable(w, base) {
      forall i: nat | i < |base| ensures TakenBy(played, i) { assert Tried(w, played, base, i); }
    }
  }

  lemma FromBase<T>(base: seq<T>, played: seq<Attempt<T>>, k: nat)
    requires OnePass(base, played) && k < |played|
    ensures played[k].from == base
  {
  }

  /** When every attempt errs nothing is dropped, every step is reported necessary, and none has
      been shown to be. */
  lemma ErrorsReadAsNecessary<T(!new)>(w: World<T>, base: seq<T>, r: Result<T>, played: seq<Attempt<T>>, polls: nat)
    requires base != [] && JobDone(w, base, r, played, polls) && forall k: nat, c :: w.outcome(k, c) == Failed
    ensures r.note == EveryStepNecessary && r.current == base && !Earned(base, played)
  {
    NothingLost(w, base, r, played, polls);
    assert !ShownNecessary(base, played, 0);
  }

  /** Such a job. */
  method ErringJob() returns (r: Result<nat>, ghost played: seq<Attempt<nat>>)
    ensures r.note == EveryStepNecessary && !Earned([1, 2], played) && !r.aborted && r.attempts <= 80
  {
    ghost var polls;
    var w: World<nat> := World(c => true, (k, c) => Failed, k => false);
    r, played, polls := RunShrink(w, [1, 2]);
    ErrorsReadAsNecessary(w, [1, 2], r, played, polls);
  }

  lemma {:induction false} FullPick<T>(base: seq<T>, kept: seq<nat>, current: seq<T>, n: nat)
    requires PicksOut(base, kept, current) && |current| == |base| && n <= |base|
    ensures forall i :: 0 <= i < n ==> kept[i] >= i
    ensures n == |base| ==> current == base
  {
    if n > 0 {
      FullPick(base, kept, current, n - 1);
      if n > 1 { assert kept[n - 2] < kept[n - 1]; }
    }
    if n == |base| {
      forall i | 0 <= i < n ensures kept[i] == i { UpperBound(base, kept, current, i); }
      assert current == base;
    }
  }

  lemma {:induction false} UpperBound<T>(base: seq<T>, kept: seq<nat>, current: seq<T>, i: nat)
    requires PicksOut(base, kept, current) && |current| == |base| && i < |base|
    ensures kept[i] <= i
    decreases |base| - i
  {
    if i + 1 < |base| {
      UpperBound(base, kept, current, i + 1);
      assert kept[i] < kept[i + 1];
    }
  }
}
