/**
 The single-flight container pool (internal/mysqlbox/box.go, Pool.Acquire).

 A caller of Acquire looks under the lock, and then returns a box, waits on the channel of
 whoever is booting one, or boots one itself; after booting it installs the outcome under the
 lock and closes its channel outside it. Each of these is one `Action`, and a boot may succeed
 or fail as it likes.
 */
module Pool {
  import opened Options

  type Box = nat

  datatype Place =
    | Looking
    | Waiting(ch: nat)
    | Starting(ch: nat)
    | Closing(ch: nat, outcome: Option<Box>)
    | Returned(box: Box)
    | GaveUp

  datatype Caller = Caller(key: string, place: Place)

  /** `owner` says which caller made each channel. */
  datatype State = State(boxes: map<string, Box>, starting: map<string, nat>, closedChans: set<nat>,
                         callers: map<nat, Caller>, owner: map<nat, nat>)

  datatype Action =
    | DoCall(c: nat, key: string)
    | DoLook(c: nat)
    | DoWake(c: nat)
    | DoGiveUp(c: nat)
    | DoInstall(c: nat, outcome: Option<Box>)
    | DoCloseChan(c: nat)

  function At(s: State, c: nat, p: Place): State
    requires c in s.callers
  {
    s.(callers := s.callers[c := s.callers[c].(place := p)])
  }

  /** Channels are numbered in the order they are made. */
  function FreshChan(s: State): nat { |s.owner| }

  /** The first locked section. */
  function Look(s: State, c: nat): State
    requires c in s.callers
  {
    var key := s.callers[c].key;
    if key in s.boxes then At(s, c, Returned(s.boxes[key]))
    else if key in s.starting then At(s, c, Waiting(s.starting[key]))
    else
      var ch := FreshChan(s);
      At(s, c, Starting(ch)).(starting := s.starting[key := ch], owner := s.owner[ch := c])
  }

  /** The second locked section, when the boot is over. */
  function Install(s: State, c: nat, outcome: Option<Box>): State
    requires c in s.callers && s.callers[c].place.Starting?
  {
    var key := s.callers[c].key;
    At(s, c, Closing(s.callers[c].place.ch, outcome)).(
      starting := s.starting - {key},
      boxes := if outcome.Some? then s.boxes[key := outcome.value] else s.boxes)
  }

  function CloseChan(s: State, c: nat): State
    requires c in s.callers && s.callers[c].place.Closing?
  {
    var p := s.callers[c].place;
    At(s, c, if p.outcome.Some? then Returned(p.outcome.value) else GaveUp).(closedChans := s.closedChans + {p.ch})
  }

  predicate Enabled(s: State, a: Action) {
    if a.DoCall? then a.c !in s.callers
    else if a.c !in s.callers then false
    else
      var p := s.callers[a.c].place;
      match a
      case DoLook(_) => p.Looking?
      case DoWake(_) => p.Waiting? && p.ch in s.closedChans
      case DoGiveUp(_) => p.Waiting?
      case DoInstall(_, _) => p.Starting?
      case DoCloseChan(_) => p.Closing?
  }

  function Apply(s: State, a: Action): State {
    if !Enabled(s, a) then s
    else
      match a
      case DoCall(c, key) => s.(callers := s.callers[c := Caller(key, Looking)])
      case DoLook(c) => Look(s, c)
      case DoWake(c) => At(s, c, Looking)
      case DoGiveUp(c) => At(s, c, GaveUp)
      case DoInstall(c, outcome) => Install(s, c, outcome)
      case DoCloseChan(c) => CloseChan(s, c)
  }

  const EMPTY: State := State(map[], map[], {}, map[], map[])

  function Play(s: State, acts: seq<Action>): State
    decreases |acts|
  {
    if acts == [] then s else Play(Apply(s, acts[0]), acts[1..])
  }

  // ---- what every reachable state satisfies

  /** The caller is between taking the channel's key and closing the channel. */
  predicate Holds(s: State, c: nat, ch: nat) {
    c in s.callers && (s.callers[c].place.Starting? || s.callers[c].place.Closing?) && s.callers[c].place.ch == ch
  }

  /** Channels are numbered densely; one is open exactly while its maker is booting or closing. */
  ghost predicate ChannelsFit(s: State) {
    && (forall ch: nat :: ch in s.owner <==> ch < |s.owner|)
    && (forall ch: nat :: ch in s.owner && ch !in s.closedChans ==> Holds(s, s.owner[ch], ch))
    && (forall c: nat, ch: nat :: Holds(s, c, ch) ==> ch in s.owner && s.owner[ch] == c && ch !in s.closedChans)
    && (forall ch: nat :: ch in s.closedChans ==> ch in s.owner)
  }

  /** The starting map lists exactly the boots that are running. */
  ghost predicate StartingFits(s: State) {
    && (forall key :: key in s.starting ==> IsBooting(s, key, s.starting[key]))
    && (forall c: nat :: c in s.callers && s.callers[c].place.Starting? ==>
          s.callers[c].key in s.starting && s.starting[s.callers[c].key] == s.callers[c].place.ch)
    && (forall key :: key in s.starting ==> key !in s.boxes)
  }

  predicate IsBooting(s: State, key: string, ch: nat) {
    ch in s.owner && s.owner[ch] in s.callers && s.callers[s.owner[ch]] == Caller(key, Starting(ch))
  }

  /** Whoever has or is about to return a box has the one installed for its key. */
  ghost predicate OutcomesFit(s: State) {
    forall c: nat :: c in s.callers ==>
      var p := s.callers[c].place;
      && (p.Returned? ==> s.callers[c].key in s.boxes && s.boxes[s.callers[c].key] == p.box)
      && (p.Closing? && p.outcome.Some? ==> s.callers[c].key in s.boxes && s.boxes[s.callers[c].key] == p.outcome.value)
  }

  /** A waiter waits on a channel made for its own key. */
  ghost predicate WaitersFit(s: State) {
    && (forall ch: nat :: ch in s.owner ==> s.owner[ch] in s.callers)
    && (forall c: nat :: c in s.callers && s.callers[c].place.Waiting? ==>
          s.callers[c].place.ch in s.owner && s.callers[s.owner[s.callers[c].place.ch]].key == s.callers[c].key)
  }

  ghost predicate Inv(s: State) { ChannelsFit(s) && StartingFits(s) && OutcomesFit(s) && WaitersFit(s) }

  lemma WaitersKeep(s: State, a: Action)
    requires WaitersFit(s) && StartingFits(s) && ChannelsFit(s) && Enabled(s, a)
    ensures WaitersFit(Apply(s, a))
  {
    hide Look, StartingFits, ChannelsFit;
    if a.DoLook? {
      LookWaiters(s, a.c);
    }
  }

  lemma LookWaiters(s: State, c: nat)
    requires WaitersFit(s) && StartingFits(s) && ChannelsFit(s) && Enabled(s, DoLook(c))
    ensures WaitersFit(Look(s, c))
  {
    hide ChannelsFit;
    FreshIsFresh(s, c);
    if s.callers[c].key in s.starting {
      assert IsBooting(s, s.callers[c].key, s.starting[s.callers[c].key]);
    }
  }

  /** A caller that finds the key free makes the next channel and starts booting. */
  lemma LookStarts(s: State, c: nat)
    requires ChannelsFit(s) && Enabled(s, DoLook(c))
    requires s.callers[c].key !in s.boxes && s.callers[c].key !in s.starting
    ensures ChannelsFit(Look(s, c))
  {
    var t, made := Look(s, c), FreshChan(s);
    FreshIsFresh(s, c);
    assert forall x: nat, h: nat :: Holds(t, x, h) <==> Holds(s, x, h) || (x == c && h == made);
  }

  lemma LookFinds(s: State, c: nat)
    requires ChannelsFit(s) && StartingFits(s) && Enabled(s, DoLook(c))
    requires s.callers[c].key in s.boxes || s.callers[c].key in s.starting
    ensures ChannelsFit(Look(s, c))
  {
    var t := Look(s, c);
    if s.callers[c].key in s.starting {
      assert IsBooting(s, s.callers[c].key, s.starting[s.callers[c].key]);
    }
    assert forall x: nat, h: nat :: Holds(t, x, h) <==> Holds(s, x, h);
  }

  lemma LookChannels(s: State, c: nat)
    requires Inv(s) && Enabled(s, DoLook(c))
    ensures ChannelsFit(Look(s, c))
  {
    hide ChannelsFit, StartingFits, OutcomesFit, WaitersFit, Look;
    if s.callers[c].key in s.boxes || s.callers[c].key in s.starting {
      LookFinds(s, c);
    } else {
      LookStarts(s, c);
    }
  }

  lemma LookOutcomes(s: State, c: nat)
    requires OutcomesFit(s) && Enabled(s, DoLook(c))
    ensures OutcomesFit(Look(s, c))
  {
  }

  lemma LookStarting(s: State, c: nat)
    requires Inv(s) && Enabled(s, DoLook(c))
    ensures StartingFits(Look(s, c))
  {
    hide OutcomesFit, WaitersFit;
    var t := Look(s, c);
    assert FreshChan(s) !in s.owner;
    forall key | key in t.starting ensures IsBooting(t, key, t.starting[key]) {
      if key in s.starting { assert IsBooting(s, key, s.starting[key]); }
    }
  }

  lemma InstallKeeps(s: State, c: nat, outcome: Option<Box>)
    requires Inv(s) && Enabled(s, DoInstall(c, outcome))
    ensures ChannelsFit(Install(s, c, outcome)) && OutcomesFit(Install(s, c, outcome))
  {
    var t := Install(s, c, outcome);
    assert forall x: nat, ch: nat :: Holds(t, x, ch) <==> Holds(s, x, ch);
    assert s.callers[c].key in s.starting && s.callers[c].key !in s.boxes;
  }

  lemma InstallStarting(s: State, c: nat, outcome: Option<Box>)
    requires Inv(s) && Enabled(s, DoInstall(c, outcome))
    ensures StartingFits(Install(s, c, outcome))
  {
    hide OutcomesFit, WaitersFit;
    var t := Install(s, c, outcome);
    assert Holds(s, c, s.callers[c].place.ch);
    forall x: nat | x in t.callers && t.callers[x].place.Starting?
      ensures t.callers[x].key in t.starting && t.starting[t.callers[x].key] == t.callers[x].place.ch
    {
      assert Holds(s, x, s.callers[x].place.ch);
    }
    forall key | key in t.starting ensures IsBooting(t, key, t.starting[key]) {
      assert IsBooting(s, key, s.starting[key]);
    }
  }

  lemma CloseChanKeeps(s: State, c: nat)
    requires Inv(s) && Enabled(s, DoCloseChan(c))
    ensures ChannelsFit(CloseChan(s, c)) && StartingFits(CloseChan(s, c)) && OutcomesFit(CloseChan(s, c))
  {
    hide WaitersFit;
    var t, ch := CloseChan(s, c), s.callers[c].place.ch;
    assert Holds(s, c, ch);
    assert forall x: nat, h: nat :: Holds(t, x, h) <==> Holds(s, x, h) && x != c;
    forall key | key in t.starting ensures IsBooting(t, key, t.starting[key]) {
      assert IsBooting(s, key, s.starting[key]);
    }
  }

  lemma MovesKeep(s: State, a: Action)
    requires Inv(s) && Enabled(s, a) && (a.DoCall? || a.DoWake? || a.DoGiveUp?)
    ensures ChannelsFit(Apply(s, a)) && StartingFits(Apply(s, a)) && OutcomesFit(Apply(s, a))
  {
    hide WaitersFit;
    var t := Apply(s, a);
    assert forall x: nat, h: nat :: Holds(t, x, h) <==> Holds(s, x, h);
    forall key | key in t.starting ensures IsBooting(t, key, t.starting[key]) {
      assert IsBooting(s, key, s.starting[key]);
    }
  }

  lemma ApplyKeeps(s: State, a: Action)
    requires Inv(s)
    ensures Inv(Apply(s, a))
  {
    hide ChannelsFit, StartingFits, OutcomesFit, WaitersFit, Look, Install, CloseChan, At;
    if Enabled(s, a) {
      WaitersKeep(s, a);
      match a
      case DoLook(c) => LookChannels(s, c); LookOutcomes(s, c); LookStarting(s, c);
      case DoInstall(c, outcome) => InstallKeeps(s, c, outcome); InstallStarting(s, c, outcome);
      case DoCloseChan(c) => CloseChanKeeps(s, c);
      case _ => MovesKeep(s, a);
    }
  }

  lemma EmptyInv()
    ensures Inv(EMPTY)
  {
  }

  lemma {:induction false} PlayKeeps(s: State, acts: seq<Action>)
    requires Inv(s)
    ensures Inv(Play(s, acts))
    decreases |acts|
  {
    hide Inv, Apply;
    if acts != [] {
      ApplyKeeps(s, acts[0]);
      PlayKeeps(Apply(s, acts[0]), acts[1..]);
    }
  }

  /** At most one boot per key is running, and never for a key that has its box. */
  lemma SingleFlight(acts: seq<Action>, c: nat, d: nat)
    requires var s := Play(EMPTY, acts);
             && c in s.callers && d in s.callers && s.callers[c].key == s.callers[d].key
             && s.callers[c].place.Starting? && s.callers[d].place.Starting?
    ensures c == d
    ensures Play(EMPTY, acts).callers[c].key !in Play(EMPTY, acts).boxes
  {
    hide Play, OutcomesFit, WaitersFit;
    EmptyInv();
    PlayKeeps(EMPTY, acts);
    var s := Play(EMPTY, acts);
    assert Holds(s, c, s.callers[c].place.ch) && Holds(s, d, s.callers[d].place.ch);
  }

  lemma BootedOrStarting(acts: seq<Action>, key: string)
    ensures !(key in Play(EMPTY, acts).boxes && key in Play(EMPTY, acts).starting)
  {
    hide Play, OutcomesFit, ChannelsFit, WaitersFit;
    EmptyInv();
    PlayKeeps(EMPTY, acts);
  }

  /** A box, once installed, stays; boots only ever fill empty keys. */
  lemma {:induction false} BoxesStay(s: State, acts: seq<Action>, key: string)
    requires Inv(s) && key in s.boxes
    ensures key in Play(s, acts).boxes && Play(s, acts).boxes[key] == s.boxes[key]
    decreases |acts|
  {
    if acts != [] {
      ApplyKeeps(s, acts[0]);
      BoxStaysOnce(s, acts[0], key);
      BoxesStay(Apply(s, acts[0]), acts[1..], key);
    }
  }

  lemma BoxStaysOnce(s: State, a: Action, key: string)
    requires Inv(s) && key in s.boxes
    ensures key in Apply(s, a).boxes && Apply(s, a).boxes[key] == s.boxes[key]
  {
    hide OutcomesFit, ChannelsFit, WaitersFit;
  }

  lemma {:induction false} PlayConcat(s: State, acts: seq<Action>, more: seq<Action>)
    ensures Play(s, acts + more) == Play(Play(s, acts), more)
    decreases |acts|
  {
    hide Apply;
    if acts == [] {
      assert acts + more == more;
    } else {
      assert (acts + more)[1..] == acts[1..] + more;
      PlayConcat(Apply(s, acts[0]), acts[1..], more);
    }
  }

  /** Every caller that succeeds for a key, at any time of a run, returns the same box: the one
      installed for it. */
  lemma OneBoxPerKey(acts: seq<Action>, more: seq<Action>, c: nat, d: nat)
    requires var s, t := Play(EMPTY, acts), Play(EMPTY, acts + more);
             && c in s.callers && d in t.callers && s.callers[c].key == t.callers[d].key
             && s.callers[c].place.Returned? && t.callers[d].place.Returned?
    ensures Play(EMPTY, acts).callers[c].place.box == Play(EMPTY, acts + more).callers[d].place.box
  {
    hide Play, ChannelsFit, StartingFits, WaitersFit, Apply;
    EmptyInv();
    PlayKeeps(EMPTY, acts);
    PlayKeeps(EMPTY, acts + more);
    PlayConcat(EMPTY, acts, more);
    BoxesStay(Play(EMPTY, acts), more, Play(EMPTY, acts).callers[c].key);
  }

  /** No waiter is left behind: its channel is closed, so it can go on, or its maker is still
      there to install an outcome or to close it. */
  lemma NoOrphanWaiter(acts: seq<Action>, c: nat)
    requires c in Play(EMPTY, acts).callers && Play(EMPTY, acts).callers[c].place.Waiting?
    ensures var s := Play(EMPTY, acts);
            var ch := s.callers[c].place.ch;
            || Enabled(s, DoWake(c))
            || (ch in s.owner && Holds(s, s.owner[ch], ch)
                && if s.callers[s.owner[ch]].place.Starting?
                   then forall o :: Enabled(s, DoInstall(s.owner[ch], o))
                   else Enabled(s, DoCloseChan(s.owner[ch])))
  {
    hide Play, OutcomesFit, StartingFits;
    EmptyInv();
    PlayKeeps(EMPTY, acts);
  }

  /** And when the boot it waits for succeeds, it is served with that very box; when it fails, the
      waiter looks again and boots for itself. */
  lemma WaiterIsServed(s: State, c: nat, outcome: Option<Box>)
    requires Inv(s) && c in s.callers && s.callers[c].place.Waiting?
    requires var ch := s.callers[c].place.ch;
             ch in s.owner && s.owner[ch] in s.callers && s.callers[s.owner[ch]].place == Starting(ch)
    ensures var o := s.owner[s.callers[c].place.ch];
            var t := Play(s, [DoInstall(o, outcome), DoCloseChan(o), DoWake(c), DoLook(c)]);
            && c in t.callers
            && t.callers[c].place == if outcome.Some? then Returned(outcome.value) else Starting(|s.owner|)
  {
    hide Inv;
    var o := s.owner[s.callers[c].place.ch];
    WaiterSharesKey(s, c);
    var t1 := Apply(s, DoInstall(o, outcome));
    var t2 := Apply(t1, DoCloseChan(o));
    var t3 := Apply(t2, DoWake(c));
    var t4 := Apply(t3, DoLook(c));
    assert o != c && t2.callers[c] == s.callers[c];
    PlayFour(s, DoInstall(o, outcome), DoCloseChan(o), DoWake(c), DoLook(c));
  }

  lemma WaiterSharesKey(s: State, c: nat)
    requires Inv(s) && c in s.callers && s.callers[c].place.Waiting?
    requires var ch := s.callers[c].place.ch;
             ch in s.owner && s.owner[ch] in s.callers && s.callers[s.owner[ch]].place == Starting(ch)
    ensures s.callers[s.owner[s.callers[c].place.ch]].key == s.callers[c].key
    ensures s.callers[c].key in s.starting && s.callers[c].key !in s.boxes
  {
    hide OutcomesFit, ChannelsFit;
  }

  lemma PlayFour(s: State, a: Action, b: Action, c: Action, d: Action)
    ensures Play(s, [a, b, c, d]) == Apply(Apply(Apply(Apply(s, a), b), c), d)
  {
    hide Apply;
    var s1, s2, s3 := Apply(s, a), Apply(Apply(s, a), b), Apply(Apply(Apply(s, a), b), c);
    assert [a, b, c, d][1..] == [b, c, d] && [b, c, d][1..] == [c, d] && [c, d][1..] == [d] && [d][1..] == [];
    assert Play(s3, [d]) == Play(Apply(s3, d), []);
    assert Play(s2, [c, d]) == Play(s3, [d]);
    assert Play(s1, [b, c, d]) == Play(s2, [c, d]);
  }

  // ---- what a caller is told

  lemma PlaySnoc(s: State, acts: seq<Action>, a: Action)
    ensures Play(s, acts + [a]) == Apply(Play(s, acts), a)
  {
    hide Apply;
    PlayConcat(s, acts, [a]);
    assert [a][1..] == [];
    assert Play(Play(s, acts), [a]) == Play(Apply(Play(s, acts), a), []);
  }

  /** Looking gives the installed box, or the channel of the boot that is running, or starts one. */
  lemma LookTells(acts: seq<Action>, c: nat)
    requires c in Play(EMPTY, acts).callers && Play(EMPTY, acts).callers[c].place == Looking
    ensures var s, t := Play(EMPTY, acts), Play(EMPTY, acts + [DoLook(c)]);
            var key := s.callers[c].key;
            && c in t.callers && t.callers[c].key == key && t.boxes == s.boxes
            && (key in s.boxes ==> t.callers[c].place == Returned(s.boxes[key]))
            && (key !in s.boxes && key in s.starting ==> t.callers[c].place == Waiting(s.starting[key]))
            && (key !in s.boxes && key !in s.starting ==> t.callers[c].place.Starting? && key in t.starting)
  {
    hide Play;
    PlaySnoc(EMPTY, acts, DoLook(c));
  }

  /** A waiter may give up at any time, and then has no box; the boot it waited for goes on. */
  lemma WaiterGivesUp(acts: seq<Action>, c: nat)
    requires c in Play(EMPTY, acts).callers && Play(EMPTY, acts).callers[c].place.Waiting?
    ensures var s, t := Play(EMPTY, acts), Play(EMPTY, acts + [DoGiveUp(c)]);
            && c in t.callers && t.callers[c].place == GaveUp && t.callers[c].key == s.callers[c].key
            && t.boxes == s.boxes && t.starting == s.starting
            && forall d :: d in s.callers && d != c ==> d in t.callers && t.callers[d] == s.callers[d]
  {
    hide Play;
    PlaySnoc(EMPTY, acts, DoGiveUp(c));
  }

  /** The caller that boots returns the box it booted, or the error; a box it booted is installed. */
  lemma BooterIsTold(acts: seq<Action>, c: nat, outcome: Option<Box>)
    requires c in Play(EMPTY, acts).callers && Play(EMPTY, acts).callers[c].place.Starting?
    ensures var s, t := Play(EMPTY, acts), Play(EMPTY, acts + [DoInstall(c, outcome)] + [DoCloseChan(c)]);
            var key := s.callers[c].key;
            && c in t.callers
            && t.callers[c].place == (if outcome.Some? then Returned(outcome.value) else GaveUp)
            && key !in t.starting
            && (outcome.Some? ==> key in t.boxes && t.boxes[key] == outcome.value)
            && (outcome.None? ==> t.boxes == s.boxes)
  {
    hide Play;
    PlaySnoc(EMPTY, acts, DoInstall(c, outcome));
    PlaySnoc(EMPTY, acts + [DoInstall(c, outcome)], DoCloseChan(c));
  }

  /** The k-th action of the run is this one, and it was possible. */
  ghost predicate Happened(acts: seq<Action>, k: nat, a: Action) {
    k < |acts| && acts[k] == a && Enabled(Play(EMPTY, acts[..k]), a)
  }

  lemma HappenedLater(acts: seq<Action>, more: seq<Action>, k: nat, a: Action)
    requires Happened(acts, k, a)
    ensures Happened(acts + more, k, a)
  {
    hide Play, Enabled;
    assert (acts + more)[..k] == acts[..k];
  }

  /** Why a caller is where it is. */
  ghost predicate Explained(acts: seq<Action>, c: nat, p: Place) {
    match p
    case GaveUp =>
      || (exists k: nat :: Happened(acts, k, DoGiveUp(c)))
      || (exists k: nat :: Happened(acts, k, DoInstall(c, None)))
    case Closing(_, outcome) => exists k: nat :: Happened(acts, k, DoInstall(c, outcome))
    case _ => true
  }

  ghost predicate AllExplained(acts: seq<Action>) {
    forall c: nat :: c in Play(EMPTY, acts).callers ==> Explained(acts, c, Play(EMPTY, acts).callers[c].place)
  }

  lemma ExplainedLater(acts: seq<Action>, a: Action, c: nat, p: Place)
    requires Explained(acts, c, p)
    ensures Explained(acts + [a], c, p)
  {
    hide Happened;
    if p.GaveUp? {
      if k: nat :| Happened(acts, k, DoGiveUp(c)) {
        HappenedLater(acts, [a], k, DoGiveUp(c));
      } else {
        var k: nat :| Happened(acts, k, DoInstall(c, None));
        HappenedLater(acts, [a], k, DoInstall(c, None));
      }
    } else if p.Closing? {
      var k: nat :| Happened(acts, k, DoInstall(c, p.outcome));
      HappenedLater(acts, [a], k, DoInstall(c, p.outcome));
    }
  }

  /** An action moves only its own caller. */
  lemma OnlyTheActor(s: State, a: Action, c: nat)
    requires c != a.c && c in Apply(s, a).callers
    ensures c in s.callers && Apply(s, a).callers[c] == s.callers[c]
  {
  }

  lemma ActorExplained(acts: seq<Action>, a: Action)
    requires AllExplained(acts) && Enabled(Play(EMPTY, acts), a)
    ensures a.c in Apply(Play(EMPTY, acts), a).callers
    ensures Explained(acts + [a], a.c, Apply(Play(EMPTY, acts), a).callers[a.c].place)
  {
    hide Play, Happened;
    var s := Play(EMPTY, acts);
    JustHappened(acts, a);
    if a.DoCloseChan? {
      assert Explained(acts, a.c, s.callers[a.c].place);
      ExplainedLater(acts, a, a.c, s.callers[a.c].place);
    }
  }

  lemma JustHappened(acts: seq<Action>, a: Action)
    requires Enabled(Play(EMPTY, acts), a)
    ensures Happened(acts + [a], |acts|, a)
  {
    hide Play, Enabled;
    assert (acts + [a])[..|acts|] == acts;
  }

  /** A caller comes back without a box only if it gave up waiting or its own boot failed. */
  lemma {:induction false} GaveUpForAReason(acts: seq<Action>)
    ensures AllExplained(acts)
    decreases |acts|
  {
    hide Apply, Enabled, Explained, Play;
    if acts == [] {
      NobodyYet();
    } else {
      var n := |acts| - 1;
      var before, a := acts[..n], acts[n];
      GaveUpForAReason(before);
      assert acts == before + [a];
      PlaySnoc(EMPTY, before, a);
      var s := Play(EMPTY, before);
      forall c: nat | c in Apply(s, a).callers ensures Explained(acts, c, Apply(s, a).callers[c].place) {
        if !Enabled(s, a) {
          Disabled(s, a);
          ExplainedLater(before, a, c, s.callers[c].place);
        } else if c == a.c {
          ActorExplained(before, a);
        } else {
          OnlyTheActor(s, a, c);
          ExplainedLater(before, a, c, s.callers[c].place);
        }
      }
    }
  }

  lemma Disabled(s: State, a: Action)
    requires !Enabled(s, a)
    ensures Apply(s, a) == s
  {
    hide Enabled;
  }

  lemma NobodyYet()
    ensures Play(EMPTY, []).callers == map[]
  {
  }

  /** Every installed box was booted for its key. */
  ghost predicate Booted(acts: seq<Action>, key: string, box: Box) {
    exists k: nat, c: nat :: Happened(acts, k, DoInstall(c, Some(box)))
                             && c in Play(EMPTY, acts[..k]).callers && Play(EMPTY, acts[..k]).callers[c].key == key
  }

  lemma {:induction false} BoxesWereBooted(acts: seq<Action>, key: string)
    requires key in Play(EMPTY, acts).boxes
    ensures Booted(acts, key, Play(EMPTY, acts).boxes[key])
    decreases |acts|
  {
    hide Play, Enabled;
    if acts == [] {
      NoBoxYet();
    } else {
      var n := |acts| - 1;
      var before, a := acts[..n], acts[n];
      var s := Play(EMPTY, before);
      assert acts == before + [a];
      PlaySnoc(EMPTY, before, a);
      if a.DoInstall? && Enabled(s, a) {
        InstallAdds(s, a);
        JustHappened(before, a);
      } else {
        OthersKeepBoxes(s, a);
      }
      if key in s.boxes && s.boxes[key] == Play(EMPTY, acts).boxes[key] {
        BoxesWereBooted(before, key);
        BootedLater(before, a, key, s.boxes[key]);
      }
    }
  }

  lemma NoBoxYet()
    ensures Play(EMPTY, []).boxes == map[]
  {
  }

  lemma InstallAdds(s: State, a: Action)
    requires a.DoInstall? && Enabled(s, a)
    ensures a.c in s.callers
    ensures Apply(s, a).boxes == if a.outcome.Some? then s.boxes[s.callers[a.c].key := a.outcome.value] else s.boxes
  {
  }

  lemma OthersKeepBoxes(s: State, a: Action)
    requires !a.DoInstall? || !Enabled(s, a)
    ensures Apply(s, a).boxes == s.boxes
  {
  }

  lemma BootedLater(acts: seq<Action>, a: Action, key: string, box: Box)
    requires Booted(acts, key, box)
    ensures Booted(acts + [a], key, box)
  {
    hide Play, Enabled;
    var k: nat, c: nat :| Happened(acts, k, DoInstall(c, Some(box)))
                          && c in Play(EMPTY, acts[..k]).callers && Play(EMPTY, acts[..k]).callers[c].key == key;
    HappenedLater(acts, [a], k, DoInstall(c, Some(box)));
    assert (acts + [a])[..k] == acts[..k];
  }

  // ---- the pool as the source has it

  class BoxPool {
    var boxes: map<string, Box>
    var starting: map<string, nat>
    ghost var closedChans: set<nat>
    ghost var callers: map<nat, Caller>
    ghost var owner: map<nat, nat>
    var chans: nat

    ghost function Now(): State
      reads this
    {
      State(boxes, starting, closedChans, callers, owner)
    }

    ghost predicate Valid()
      reads this
    {
      Inv(Now()) && chans == |owner|
    }

    /** The locked section at the top of Acquire's loop, for caller c. */
    method LookUp(c: nat, key: string) returns (place: Place)
      requires Valid() && c in callers && callers[c] == Caller(key, Looking)
      modifies this
      ensures Valid() && Now() == Look(old(Now()), c) && place == callers[c].place
    {
      assert ChannelsFit(Now());
      hide ChannelsFit, StartingFits, OutcomesFit, WaitersFit;
      ApplyKeeps(Now(), DoLook(c));
      FreshIsFresh(Now(), c);
      if key in boxes {
        place := Returned(boxes[key]);
      } else if key in starting {
        place := Waiting(starting[key]);
      } else {
        place := Starting(chans);
        starting := starting[key := chans];
        owner := owner[chans := c];
        chans := chans + 1;
      }
      callers := callers[c := Caller(key, place)];
    }

    /** The locked section after the boot. */
    method InstallOutcome(c: nat, key: string, outcome: Option<Box>)
      requires Valid() && c in callers && callers[c].key == key && callers[c].place.Starting?
      modifies this
      ensures Valid() && Now() == Install(old(Now()), c, outcome)
    {
      hide Inv;
      ApplyKeeps(Now(), DoInstall(c, outcome));
      starting := starting - {key};
      if outcome.Some? {
        boxes := boxes[key := outcome.value];
      }
      callers := callers[c := Caller(key, Closing(callers[c].place.ch, outcome))];
    }
  }

  lemma FreshIsFresh(s: State, c: nat)
    requires ChannelsFit(s)
    ensures |s.owner| !in s.owner && |s.owner[|s.owner| := c]| == |s.owner| + 1
  {
  }

  // ---- which container a spec needs

  datatype Spec = Spec(image: string, deadlockDetect: Option<bool>)

  const DEFAULT_IMAGE := "mysql:8.4"
  const KEY_SUFFIX := "#deadlock-detect=off"

  function ImageOf(s: Spec): string { if s.image == "" then DEFAULT_IMAGE else s.image }

  function Key(s: Spec): string {
    if s.deadlockDetect == Some(false) then ImageOf(s) + KEY_SUFFIX else ImageOf(s)
  }

  /** The flags a server is started with. `modern` says which images are 8.0 or newer. */
  function ServerArgs(s: Spec, fixed: seq<string>, modern: string -> bool): seq<string> {
    fixed
    + [if modern(ImageOf(s)) then "--innodb-redo-log-capacity=16777216" else "--innodb-log-file-size=16M"]
    + (if s.deadlockDetect == Some(false) then ["--innodb-deadlock-detect=OFF"] else [])
  }

  /** A spec that asks for nothing gets MySQL 8.4 with detection on. */
  lemma DefaultKey(s: Spec)
    requires s.image == ""
    ensures Key(s) == if s.deadlockDetect == Some(false) then "mysql:8.4#deadlock-detect=off" else "mysql:8.4"
  {
  }

  /** The flags added to the fixed ones: the redo log's by version, and detection off when asked for. */
  lemma FlagsAre(s: Spec, fixed: seq<string>, modern: string -> bool)
    ensures var added := ServerArgs(s, fixed, modern)[|fixed|..];
            && ServerArgs(s, fixed, modern)[..|fixed|] == fixed
            && added[0] == (if modern(ImageOf(s)) then "--innodb-redo-log-capacity=16777216"
                            else "--innodb-log-file-size=16M")
            && added[1..] == (if s.deadlockDetect == Some(false) then ["--innodb-deadlock-detect=OFF"] else [])
  {
  }

  lemma SuffixCancels(a: string, b: string)
    requires a + KEY_SUFFIX == b + KEY_SUFFIX
    ensures a == b
  {
    assert (a + KEY_SUFFIX)[..|a|] == a && (b + KEY_SUFFIX)[..|b|] == b;
  }

  predicate DetectOff(s: Spec) { s.deadlockDetect == Some(false) }

  /** s turns detection off, and t names an image that reads like the key of s. */
  predicate Lookalike(s: Spec, t: Spec) {
    DetectOff(s) && !DetectOff(t) && ImageOf(t) == ImageOf(s) + KEY_SUFFIX
  }

  /** Two specs share a key exactly when they need the same server, or one's image is the other's
      with the key's suffix in its own name. */
  lemma SameKeyIff(s: Spec, t: Spec)
    ensures Key(s) == Key(t)
       <==> (|| (ImageOf(s) == ImageOf(t) && (DetectOff(s) <==> DetectOff(t)))
             || Lookalike(s, t) || Lookalike(t, s))
  {
    if Key(s) == Key(t) && DetectOff(s) && DetectOff(t) {
      SuffixCancels(ImageOf(s), ImageOf(t));
    }
  }

  /** Of specs that share a key, exactly the lookalikes would be started differently: the one that
      turns detection off gets a flag more. */
  lemma StartedAlikeIff(s: Spec, t: Spec, fixed: seq<string>, modern: string -> bool)
    requires Key(s) == Key(t)
    ensures ServerArgs(s, fixed, modern) == ServerArgs(t, fixed, modern) <==> !Lookalike(s, t) && !Lookalike(t, s)
  {
    hide Key, ImageOf;
    SameKeyIff(s, t);
    ArgCount(s, fixed, modern);
    ArgCount(t, fixed, modern);
  }

  lemma ArgCount(s: Spec, fixed: seq<string>, modern: string -> bool)
    ensures |ServerArgs(s, fixed, modern)| == |fixed| + if DetectOff(s) then 2 else 1
  {
  }

  /** Such a pair, for any image. */
  lemma SuffixedImageCollides(image: string, fixed: seq<string>, modern: string -> bool)
    requires image != ""
    ensures var s, t := Spec(image, Some(false)), Spec(image + KEY_SUFFIX, None);
            Key(s) == Key(t) && ServerArgs(s, fixed, modern) != ServerArgs(t, fixed, modern)
  {
    var s, t := Spec(image, Some(false)), Spec(image + KEY_SUFFIX, None);
    StartedAlikeIff(s, t, fixed, modern);
  }
}
