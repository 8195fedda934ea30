/**
 The event bus of a run (internal/engine/bus.go).

 Publish works in two phases: it stamps the event, appends it to the history and takes a
 snapshot of the subscribers under the lock, and then offers it to each of them outside the
 lock, where other publishes, subscriptions and readers interleave. Each locked section, each
 single offer and each read from a channel is one `Action`; every sequence of actions is a run.
 */
module EventBus {

  datatype Event = Event(seqNo: nat, payload: nat)

  const HISTORY_LIMIT: nat := 20000
  const CHANNEL_CAPACITY: nat := 512

  /** What became of one subscription: `at` is the bus's sequence number when it was made and
      `backlog` what it returned; `offered` is everything ever put to its channel, of which
      `taken` has been read, `buffer` is waiting and `lost` found the channel full. */
  datatype Sub = Sub(since: int, at: nat, backlog: seq<Event>,
                     offered: seq<Event>, taken: seq<Event>, buffer: seq<Event>, lost: seq<Event>)

  /** `log` is every event ever stamped; `pending` are the publishes in their second phase, each
      with the subscribers it has still to offer to. */
  datatype State = State(log: seq<Event>, history: seq<Event>, subs: map<nat, Sub>, nextSub: nat,
                         closed: bool, pending: map<nat, set<nat>>)

  // ---- the critical sections

  function Trim(h: seq<Event>): (r: seq<Event>)
    ensures |r| <= |h|
  {
    if |h| > HISTORY_LIMIT then h[HISTORY_LIMIT / 4..] else h
  }

  function Stamp(s: State, payload: nat): State {
    if s.closed then s
    else
      var ev := Event(|s.log| + 1, payload);
      s.(log := s.log + [ev], history := Trim(s.history + [ev]), pending := s.pending[ev.seqNo := s.subs.Keys])
  }

  /** One turn of the delivery loop: a full channel drops the event. */
  function Offered(sub: Sub, ev: Event): Sub {
    var s1 := sub.(offered := sub.offered + [ev]);
    if |sub.buffer| < CHANNEL_CAPACITY then s1.(buffer := sub.buffer + [ev]) else s1.(lost := sub.lost + [ev])
  }

  predicate CanOffer(s: State, k: nat, id: nat) {
    k in s.pending && id in s.pending[k] && id in s.subs && 0 < k <= |s.log|
  }

  function Offer(s: State, k: nat, id: nat): State {
    if !CanOffer(s, k, id) then s
    else s.(pending := s.pending[k := s.pending[k] - {id}], subs := s.subs[id := Offered(s.subs[id], s.log[k - 1])])
  }

  function After(h: seq<Event>, since: int): seq<Event> {
    if h == [] then [] else (if h[0].seqNo > since then [h[0]] else []) + After(h[1..], since)
  }

  function Subscribe(s: State, since: int): State {
    if s.closed then s
    else s.(subs := s.subs[s.nextSub := Sub(since, |s.log|, After(s.history, since), [], [], [], [])],
            nextSub := s.nextSub + 1)
  }

  function Cancel(s: State, id: nat): State { s.(subs := s.subs - {id}) }

  function Receive(s: State, id: nat): State {
    if id !in s.subs || s.subs[id].buffer == [] then s
    else
      var sub := s.subs[id];
      s.(subs := s.subs[id := sub.(taken := sub.taken + [sub.buffer[0]], buffer := sub.buffer[1..])])
  }

  function Close(s: State): State { if s.closed then s else s.(closed := true, subs := map[]) }

  datatype Action =
    | DoStamp(payload: nat)
    | DoOffer(k: nat, id: nat)
    | DoSubscribe(since: int)
    | DoCancel(id: nat)
    | DoReceive(id: nat)
    | DoClose

  function Apply(s: State, a: Action): State {
    match a
    case DoStamp(payload) => Stamp(s, payload)
    case DoOffer(k, id) => Offer(s, k, id)
    case DoSubscribe(since) => Subscribe(s, since)
    case DoCancel(id) => Cancel(s, id)
    case DoReceive(id) => Receive(s, id)
    case DoClose => Close(s)
  }

  const EMPTY: State := State([], [], map[], 0, false, map[])

  function Play(acts: seq<Action>): State
    decreases |acts|
  {
    if acts == [] then EMPTY else Apply(Play(acts[..|acts| - 1]), acts[|acts| - 1])
  }

  // ---- what every reachable state satisfies

  predicate Numbered(log: seq<Event>) { forall i :: 0 <= i < |log| ==> log[i].seqNo == i + 1 }

  /** The retained history is the end of the log, and only a quarter is ever dropped at once. */
  predicate Retained(s: State) {
    && |s.history| <= |s.log| && s.history == s.log[|s.log| - |s.history|..]
    && |s.history| <= HISTORY_LIMIT
    && (|s.history| == |s.log| || |s.history| > HISTORY_LIMIT - HISTORY_LIMIT / 4)
    && (|s.log| <= HISTORY_LIMIT ==> |s.history| == |s.log|)
  }

  /** The k-th event is still to be offered to this subscriber. */
  predicate Awaits(s: State, k: nat, id: nat) { k in s.pending && id in s.pending[k] }

  predicate WasOffered(sub: Sub, k: nat) { exists i :: 0 <= i < |sub.offered| && sub.offered[i].seqNo == k }

  /** Offers come from the log, are later than the subscription and happen once. */
  predicate OffersFit(log: seq<Event>, sub: Sub) {
    && (forall i :: 0 <= i < |sub.offered| ==>
          sub.at < sub.offered[i].seqNo <= |log| && sub.offered[i] == log[sub.offered[i].seqNo - 1])
    && (forall i, j :: 0 <= i < j < |sub.offered| ==> sub.offered[i].seqNo != sub.offered[j].seqNo)
  }

  /** Each event since the subscription is either awaited or was offered, and not both. */
  ghost predicate Covered(s: State, id: nat, sub: Sub) {
    forall k: nat :: sub.at < k <= |s.log| ==> (Awaits(s, k, id) <==> !WasOffered(sub, k))
  }

  /** q holds the k-th event of the log. */
  predicate Holds(log: seq<Event>, q: seq<Event>, k: nat) { 0 < k <= |log| && log[k - 1] in q }

  /** The backlog is the part of the log after `since` that was retained when it was taken. */
  ghost predicate BacklogFits(s: State, sub: Sub) {
    && sub.at <= |s.log|
    && (forall e :: e in sub.backlog ==> 0 < e.seqNo <= sub.at && e.seqNo > sub.since && e == s.log[e.seqNo - 1])
    && (forall k: nat :: |s.log| - |s.history| < k <= sub.at && k > sub.since ==> Holds(s.log, sub.backlog, k))
  }

  predicate ChannelFits(sub: Sub) {
    && |sub.buffer| <= CHANNEL_CAPACITY
    && multiset(sub.taken) + multiset(sub.buffer) + multiset(sub.lost) == multiset(sub.offered)
  }

  ghost predicate SubFits(s: State, id: nat, sub: Sub) {
    OffersFit(s.log, sub) && Covered(s, id, sub) && BacklogFits(s, sub) && ChannelFits(sub)
  }

  ghost predicate SubsFit(s: State) { forall id :: id in s.subs ==> SubFits(s, id, s.subs[id]) }

  /** Only stamped events are awaited, and only by subscriptions older than they are. */
  ghost predicate PendingFits(s: State) {
    && (forall id :: id in s.subs ==> id < s.nextSub)
    && (forall k: nat, id: nat :: Awaits(s, k, id) ==>
          0 < k <= |s.log| && id < s.nextSub && (id in s.subs ==> s.subs[id].at < k))
  }

  ghost predicate Inv(s: State) { Numbered(s.log) && Retained(s) && SubsFit(s) && PendingFits(s) }

  lemma {:induction false} AfterMeans(h: seq<Event>, since: int)
    ensures forall e :: e in After(h, since) <==> e in h && e.seqNo > since
  {
    if h != [] {
      AfterMeans(h[1..], since);
      assert h == [h[0]] + h[1..];
    }
  }

  /** On consecutive numbers, what is after `since` is an end of the sequence: in order, no gaps. */
  lemma {:induction false} AfterIsTheEnd(h: seq<Event>, since: int, first: nat)
    requires forall i :: 0 <= i < |h| ==> h[i].seqNo == first + i + 1
    ensures var out := After(h, since); |out| <= |h| && out == h[|h| - |out|..]
    decreases |h|
  {
    if h != [] {
      AfterIsTheEnd(h[1..], since, first + 1);
      if h[0].seqNo > since {
        AllAfter(h[1..], since);
      }
    }
  }

  lemma {:induction false} AllAfter(h: seq<Event>, since: int)
    requires forall i :: 0 <= i < |h| ==> h[i].seqNo > since
    ensures After(h, since) == h
    decreases |h|
  {
    if h != [] {
      AllAfter(h[1..], since);
    }
  }

  lemma StampRetained(s: State, payload: nat)
    requires Numbered(s.log) && Retained(s)
    ensures Numbered(Stamp(s, payload).log) && Retained(Stamp(s, payload))
  {
  }

  lemma StampSub(s: State, payload: nat, id: nat)
    requires Numbered(s.log) && Retained(s) && !s.closed && id in s.subs && SubFits(s, id, s.subs[id])
    ensures SubFits(Stamp(s, payload), id, s.subs[id])
  {
    var t, sub, n := Stamp(s, payload), s.subs[id], |s.log| + 1;
    forall k: nat | sub.at < k <= |t.log| ensures Awaits(t, k, id) <==> !WasOffered(sub, k) {
      if k != n { assert Awaits(t, k, id) <==> Awaits(s, k, id); }
    }
    forall k: nat | |t.log| - |t.history| < k <= sub.at && k > sub.since ensures Holds(t.log, sub.backlog, k) {
      assert Holds(s.log, sub.backlog, k);
    }
  }

  lemma StampPending(s: State, payload: nat)
    requires PendingFits(s) && SubsFit(s)
    ensures PendingFits(Stamp(s, payload))
  {
    hide OffersFit, Covered, ChannelFits;
    var t := Stamp(s, payload);
    forall k: nat, id: nat | Awaits(t, k, id)
      ensures 0 < k <= |t.log| && id < t.nextSub && (id in t.subs ==> t.subs[id].at < k)
    {
      if k == |s.log| + 1 {
        assert !s.closed ==> SubFits(s, id, s.subs[id]);
      } else {
        assert Awaits(s, k, id);
      }
    }
  }

  lemma StampKeeps(s: State, payload: nat)
    requires Inv(s)
    ensures Inv(Stamp(s, payload))
  {
    hide Numbered, Retained, SubFits, PendingFits;
    StampRetained(s, payload);
    StampPending(s, payload);
    if !s.closed {
      forall id | id in s.subs ensures SubFits(Stamp(s, payload), id, s.subs[id]) { StampSub(s, payload, id); }
    }
  }

  /** Dropping awaited offers and subscriptions, and what they keep. */
  lemma PendingFrame(s: State, t: State)
    requires PendingFits(s) && t.log == s.log && t.nextSub == s.nextSub
    requires forall k: nat, id: nat :: Awaits(t, k, id) ==> Awaits(s, k, id)
    requires forall id :: id in t.subs ==> id in s.subs && t.subs[id].at == s.subs[id].at
    ensures PendingFits(t)
  {
  }

  lemma OfferedOnce(sub: Sub, ev: Event, k: nat)
    ensures WasOffered(Offered(sub, ev), k) <==> WasOffered(sub, k) || ev.seqNo == k
  {
    var s1 := Offered(sub, ev);
    assert s1.offered[|sub.offered|] == ev;
    if WasOffered(sub, k) {
      var i :| 0 <= i < |sub.offered| && sub.offered[i].seqNo == k;
      assert s1.offered[i].seqNo == k;
    }
  }

  lemma OfferCovered(s: State, k: nat, id: nat)
    requires CanOffer(s, k, id) && Covered(s, id, s.subs[id]) && s.log[k - 1].seqNo == k
    ensures Covered(Offer(s, k, id), id, Offered(s.subs[id], s.log[k - 1]))
  {
    hide WasOffered;
    var t, sub, ev := Offer(s, k, id), s.subs[id], s.log[k - 1];
    forall j: nat | sub.at < j <= |t.log| ensures Awaits(t, j, id) <==> !WasOffered(Offered(sub, ev), j) {
      OfferedOnce(sub, ev, j);
      assert Awaits(t, j, id) <==> Awaits(s, j, id) && j != k;
    }
  }

  lemma OfferSelf(s: State, k: nat, id: nat)
    requires CanOffer(s, k, id) && SubFits(s, id, s.subs[id]) && s.subs[id].at < k && Numbered(s.log)
    ensures SubFits(Offer(s, k, id), id, Offer(s, k, id).subs[id])
  {
    assert Awaits(s, k, id) && !WasOffered(s.subs[id], k);
    OfferCovered(s, k, id);
    hide Covered;
  }

  lemma OfferOther(s: State, k: nat, id: nat, other: nat)
    requires CanOffer(s, k, id) && other != id && other in s.subs && SubFits(s, other, s.subs[other])
    ensures SubFits(Offer(s, k, id), other, s.subs[other])
  {
    var t := Offer(s, k, id);
    assert forall j: nat :: Awaits(t, j, other) <==> Awaits(s, j, other);
  }

  lemma OfferSubs(s: State, k: nat, id: nat)
    requires Inv(s) && CanOffer(s, k, id)
    ensures SubsFit(Offer(s, k, id))
  {
    hide Retained, SubFits, Offered;
    var t := Offer(s, k, id);
    assert Awaits(s, k, id);
    OfferSelf(s, k, id);
    forall other | other in t.subs ensures SubFits(t, other, t.subs[other]) {
      if other != id { OfferOther(s, k, id, other); }
    }
  }

  lemma OfferKeeps(s: State, k: nat, id: nat)
    requires Inv(s)
    ensures Inv(Offer(s, k, id))
  {
    hide Numbered, Retained, SubsFit, PendingFits, Offered;
    if CanOffer(s, k, id) {
      var t := Offer(s, k, id);
      OfferSubs(s, k, id);
      OfferedKeepsAt(s.subs[id], s.log[k - 1]);
      assert forall j: nat, i: nat :: Awaits(t, j, i) ==> Awaits(s, j, i);
      PendingFrame(s, t);
      RetainedFrame(s, t);
    }
  }

  lemma OfferedKeepsAt(sub: Sub, ev: Event)
    ensures Offered(sub, ev).at == sub.at
  {
  }

  lemma RetainedFrame(s: State, t: State)
    requires Retained(s) && t.log == s.log && t.history == s.history
    ensures Retained(t)
  {
  }

  lemma SubscribeSubs(s: State, since: int)
    requires Inv(s) && !s.closed
    ensures SubsFit(Subscribe(s, since))
  {
    hide SubFits;
    var t := Subscribe(s, since);
    FreshFits(s, since);
    forall id | id in t.subs ensures SubFits(t, id, t.subs[id]) {
      if id != s.nextSub { SameFits(s, t, id); }
    }
  }

  lemma SubscribePending(s: State, since: int)
    requires PendingFits(s)
    ensures PendingFits(Subscribe(s, since))
  {
    assert forall k: nat, id: nat :: Awaits(Subscribe(s, since), k, id) ==> Awaits(s, k, id);
  }

  lemma SubscribeKeeps(s: State, since: int)
    requires Inv(s)
    ensures Inv(Subscribe(s, since))
  {
    hide SubsFit, Retained, Numbered, PendingFits;
    RetainedFrame(s, Subscribe(s, since));
    SubscribePending(s, since);
    if !s.closed { SubscribeSubs(s, since); }
  }

  lemma FreshFits(s: State, since: int)
    requires Numbered(s.log) && Retained(s) && PendingFits(s) && !s.closed
    ensures var t := Subscribe(s, since); SubFits(t, s.nextSub, t.subs[s.nextSub])
  {
    FreshBacklog(s, since);
    hide BacklogFits, After;
  }

  lemma FreshBacklog(s: State, since: int)
    requires Numbered(s.log) && Retained(s) && !s.closed
    ensures var t := Subscribe(s, since); BacklogFits(t, t.subs[s.nextSub])
  {
    AfterMeans(s.history, since);
    hide After, Holds;
    var out := After(s.history, since);
    forall e | e in out ensures 0 < e.seqNo <= |s.log| && e.seqNo > since && e == s.log[e.seqNo - 1] {
      InHistory(s, e);
    }
    forall k: nat | |s.log| - |s.history| < k <= |s.log| && k > since ensures Holds(s.log, out, k) {
      RetainedHolds(s, out, since, k);
    }
  }

  lemma InHistory(s: State, e: Event)
    requires Numbered(s.log) && Retained(s) && e in s.history
    ensures 0 < e.seqNo <= |s.log| && e == s.log[e.seqNo - 1]
  {
    var i :| 0 <= i < |s.history| && s.history[i] == e;
    assert e == s.log[|s.log| - |s.history| + i];
  }

  lemma RetainedHolds(s: State, out: seq<Event>, since: int, k: nat)
    requires Numbered(s.log) && Retained(s) && forall e :: e in out <==> e in s.history && e.seqNo > since
    requires |s.log| - |s.history| < k <= |s.log| && k > since
    ensures Holds(s.log, out, k)
  {
    assert s.history[k - 1 - (|s.log| - |s.history|)] == s.log[k - 1];
  }

  lemma SameFits(s: State, t: State, id: nat)
    requires id in s.subs && SubFits(s, id, s.subs[id])
           && t.log == s.log && t.history == s.history && t.pending == s.pending
    ensures SubFits(t, id, s.subs[id])
  {
    assert forall k: nat :: Awaits(t, k, id) <==> Awaits(s, k, id);
  }

  lemma ReceiveSubs(s: State, id: nat)
    requires SubsFit(s)
    ensures SubsFit(Receive(s, id))
  {
    hide SubFits;
    var t := Receive(s, id);
    if t != s {
      ReceiveFits(s, id);
      forall other | other in s.subs && other != id ensures SubFits(t, other, t.subs[other]) { SameFits(s, t, other); }
    }
  }

  lemma ReceiveKeeps(s: State, id: nat)
    requires Inv(s)
    ensures Inv(Receive(s, id))
  {
    hide SubsFit, Retained, Numbered, PendingFits;
    var t := Receive(s, id);
    ReceiveSubs(s, id);
    RetainedFrame(s, t);
    assert forall j: nat, i: nat :: Awaits(t, j, i) ==> Awaits(s, j, i);
    PendingFrame(s, t);
  }

  lemma ReceiveFits(s: State, id: nat)
    requires id in s.subs && SubFits(s, id, s.subs[id]) && s.subs[id].buffer != []
    ensures SubFits(Receive(s, id), id, Receive(s, id).subs[id])
  {
    var t, sub := Receive(s, id), s.subs[id];
    assert sub.buffer == [sub.buffer[0]] + sub.buffer[1..];
    assert forall k: nat :: Awaits(t, k, id) <==> Awaits(s, k, id);
    assert forall k: nat :: WasOffered(t.subs[id], k) <==> WasOffered(sub, k);
  }

  lemma DropKeeps(s: State, a: Action)
    requires Inv(s) && (a.DoCancel? || a.DoClose?)
    ensures Inv(Apply(s, a))
  {
    hide SubFits, Retained, Numbered, PendingFits;
    var t := Apply(s, a);
    RetainedFrame(s, t);
    forall id | id in t.subs ensures SubFits(t, id, t.subs[id]) { SameFits(s, t, id); }
    assert forall j: nat, i: nat :: Awaits(t, j, i) ==> Awaits(s, j, i);
    PendingFrame(s, t);
  }

  /** Every state any interleaving of publishes, offers, subscriptions and reads can reach. */
  lemma {:induction false} ReachableInv(acts: seq<Action>)
    ensures Inv(Play(acts))
    decreases |acts|
  {
    hide Inv, Apply;
    if acts == [] {
      assert Inv(EMPTY) by { EmptyInv(); }
    } else {
      var s, a := Play(acts[..|acts| - 1]), acts[|acts| - 1];
      ReachableInv(acts[..|acts| - 1]);
      ApplyKeeps(s, a);
    }
  }

  lemma EmptyInv()
    ensures Inv(EMPTY)
  {
  }

  lemma ApplyKeeps(s: State, a: Action)
    requires Inv(s)
    ensures Inv(Apply(s, a))
  {
    hide Inv;
    match a
    case DoStamp(payload) => StampKeeps(s, payload);
    case DoOffer(k, id) => OfferKeeps(s, k, id);
    case DoSubscribe(since) => SubscribeKeeps(s, since);
    case DoReceive(id) => ReceiveKeeps(s, id);
    case _ => DropKeeps(s, a);
  }

  // ---- the replay guarantee

  /** A subscriber that is still registered gets every retained event after `since` in exactly one
      way: in its backlog, or offered to its channel, or about to be. */
  lemma ReplayIsExact(acts: seq<Action>, id: nat, e: Event)
    requires var s := Play(acts); id in s.subs && e in s.history && e.seqNo > s.subs[id].since
    ensures var s := Play(acts);
            var sub := s.subs[id];
            && (e in sub.backlog || e in sub.offered || Awaits(s, e.seqNo, id))
            && !(e in sub.backlog && e in sub.offered)
            && !(e in sub.backlog && Awaits(s, e.seqNo, id))
            && !(e in sub.offered && Awaits(s, e.seqNo, id))
  {
    hide Play;
    ReachableInv(acts);
    var s := Play(acts);
    var sub := s.subs[id];
    assert SubFits(s, id, sub);
    var d := |s.log| - |s.history|;
    var i :| 0 <= i < |s.history| && s.history[i] == e;
    assert e == s.log[d + i] && e.seqNo == d + i + 1;
    OfferedByNumber(s, sub, e);
    if e.seqNo <= sub.at {
      assert Holds(s.log, sub.backlog, e.seqNo);
    }
  }

  lemma OfferedByNumber(s: State, sub: Sub, e: Event)
    requires OffersFit(s.log, sub) && 0 < e.seqNo <= |s.log| && e == s.log[e.seqNo - 1]
    ensures e in sub.offered <==> WasOffered(sub, e.seqNo)
  {
    if WasOffered(sub, e.seqNo) {
      var i :| 0 <= i < |sub.offered| && sub.offered[i].seqNo == e.seqNo;
      assert sub.offered[i] == e;
    }
  }

  /** It is offered no event twice, and none that it asked to be spared, unless it asked for the
      future: `since` beyond the sequence number it subscribed at. */
  lemma NothingUnasked(acts: seq<Action>, id: nat)
    requires id in Play(acts).subs
    ensures var sub := Play(acts).subs[id];
            && (forall i, j :: 0 <= i < j < |sub.offered| ==> sub.offered[i].seqNo != sub.offered[j].seqNo)
            && (sub.since <= sub.at ==> forall e :: e in sub.offered || e in sub.backlog ==> e.seqNo > sub.since)
  {
    hide Play, Retained, Covered, ChannelFits;
    ReachableInv(acts);
    var s := Play(acts);
    assert SubFits(s, id, s.subs[id]);
  }

  /** Everything offered has been read, is waiting in the channel, or found the channel full. */
  lemma ChannelConserves(acts: seq<Action>, id: nat)
    requires id in Play(acts).subs
    ensures var sub := Play(acts).subs[id];
            multiset(sub.taken) + multiset(sub.buffer) + multiset(sub.lost) == multiset(sub.offered)
            && |sub.buffer| <= 512
  {
    hide Play, Retained, Covered, OffersFit, BacklogFits;
    ReachableInv(acts);
    assert SubFits(Play(acts), id, Play(acts).subs[id]);
  }

  /** Retained history is a gap-free run of sequence numbers ending at the latest, it holds
      everything until the limit is first exceeded and more than three quarters of it ever after. */
  lemma HistoryIsGapFree(acts: seq<Action>, i: nat)
    requires i < |Play(acts).history|
    ensures var s := Play(acts);
            && s.history[i].seqNo == |s.log| - |s.history| + i + 1
            && |s.history| <= 20000
            && (|s.history| == |s.log| <==> |s.log| <= 20000)
            && (|s.log| > 20000 ==> |s.history| > 15000)
  {
    hide Play, SubFits;
    ReachableInv(acts);
    var s := Play(acts);
    assert s.history[i] == s.log[|s.log| - |s.history| + i];
  }

  /** An offer reaches the channel unless 512 events wait in it already, and then is lost; it is the event
      stamped under that number, and nobody else's channel changes. */
  lemma OfferIsKeptIffRoom(acts: seq<Action>, k: nat, id: nat)
    requires CanOffer(Play(acts), k, id)
    ensures var s, t := Play(acts), Play(acts + [DoOffer(k, id)]);
            && t.subs.Keys == s.subs.Keys
            && (forall other :: other in s.subs && other != id ==> t.subs[other] == s.subs[other])
            && (|s.subs[id].buffer| < 512 ==>
                  t.subs[id].buffer == s.subs[id].buffer + [s.log[k - 1]] && t.subs[id].lost == s.subs[id].lost)
            && (|s.subs[id].buffer| >= 512 ==>
                  t.subs[id].buffer == s.subs[id].buffer && t.subs[id].lost == s.subs[id].lost + [s.log[k - 1]])
            && t.subs[id].taken == s.subs[id].taken && !Awaits(t, k, id)
  {
    hide Play;
    PlaySnoc(acts, DoOffer(k, id));
  }

  // ---- what was published

  /** The payloads published, in order: those of the publishes before the bus was closed. */
  function Published(acts: seq<Action>): seq<nat>
    decreases |acts|
  {
    if acts == [] then []
    else
      var before, last := acts[..|acts| - 1], acts[|acts| - 1];
      Published(before) + if last.DoStamp? && DoClose !in before then [last.payload] else []
  }

  /** Every event ever stamped is the one published, under the number of its turn. */
  lemma {:induction false} LogIsWhatWasPublished(acts: seq<Action>)
    ensures Play(acts).closed <==> DoClose in acts
    ensures |Play(acts).log| == |Published(acts)|
    ensures forall i :: 0 <= i < |Published(acts)| ==> Play(acts).log[i] == Event(i + 1, Published(acts)[i])
    decreases |acts|
  {
    hide Trim, Offered, After;
    if acts != [] {
      var before, last := acts[..|acts| - 1], acts[|acts| - 1];
      LogIsWhatWasPublished(before);
      assert acts == before + [last];
    }
  }

  /** So what a subscriber finds in its backlog, is offered or has read is what was published under that
      number; and so is what History returns. */
  lemma DeliveredIsPublished(acts: seq<Action>, id: nat, e: Event)
    requires id in Play(acts).subs
    requires var sub := Play(acts).subs[id]; e in sub.backlog || e in sub.offered || e in sub.taken
    ensures 0 < e.seqNo <= |Published(acts)| && e.payload == Published(acts)[e.seqNo - 1]
  {
    hide Play, Published, Covered, Holds, Retained;
    ReachableInv(acts);
    LogIsWhatWasPublished(acts);
    var s := Play(acts);
    var sub := s.subs[id];
    assert SubFits(s, id, sub);
    TakenWasOffered(sub);
    assert 0 < e.seqNo <= |s.log| && e == s.log[e.seqNo - 1];
  }

  lemma TakenWasOffered(sub: Sub)
    requires ChannelFits(sub)
    ensures forall e :: e in sub.taken ==> e in sub.offered
  {
    forall e | e in sub.taken ensures e in sub.offered {
      assert e in multiset(sub.taken) && e in multiset(sub.offered);
    }
  }

  lemma RetainedIsPublished(acts: seq<Action>, e: Event)
    requires e in Play(acts).history
    ensures 0 < e.seqNo <= |Published(acts)| && e.payload == Published(acts)[e.seqNo - 1]
  {
    hide Play, Published, SubsFit, PendingFits;
    ReachableInv(acts);
    LogIsWhatWasPublished(acts);
    InHistory(Play(acts), e);
  }

  // ---- what is gone

  /** The id was given out and is not registered. */
  predicate Gone(s: State, id: nat) { id < s.nextSub && id !in s.subs }

  lemma {:induction false} GoneStays(acts: seq<Action>, more: seq<Action>, id: nat)
    requires Gone(Play(acts), id)
    ensures Gone(Play(acts + more), id)
    decreases |more|
  {
    hide Play, After, Offered, Trim;
    if more == [] {
      assert acts + more == acts;
    } else {
      var n := |more| - 1;
      GoneStays(acts, more[..n], id);
      assert acts + more == (acts + more[..n]) + [more[n]];
      PlaySnoc(acts + more[..n], more[n]);
    }
  }

  /** A cancelled subscription is gone for good, and the others are as they were. */
  lemma CancelledIsGone(acts: seq<Action>, id: nat, more: seq<Action>)
    requires id in Play(acts).subs
    ensures Play(acts + [DoCancel(id)]).subs == Play(acts).subs - {id}
    ensures Play(acts + [DoCancel(id)]).history == Play(acts).history
    ensures id !in Play(acts + [DoCancel(id)] + more).subs
  {
    hide Play, Inv;
    ReachableInv(acts);
    IdsBelow(Play(acts));
    PlaySnoc(acts, DoCancel(id));
    GoneStays(acts + [DoCancel(id)], more, id);
  }

  /** On a closed bus nobody is registered and nothing more is published. */
  lemma ClosedIsQuiet(acts: seq<Action>)
    requires DoClose in acts
    ensures Play(acts).closed && Play(acts).subs == map[]
    ensures forall more :: Published(acts + more) == Published(acts)
  {
    LogIsWhatWasPublished(acts);
    ClosedHasNone(acts);
    forall more ensures Published(acts + more) == Published(acts) { NothingPublishedAfter(acts, more); }
  }

  lemma {:induction false} NothingPublishedAfter(acts: seq<Action>, more: seq<Action>)
    requires DoClose in acts
    ensures Published(acts + more) == Published(acts)
    decreases |more|
  {
    if more == [] {
      assert acts + more == acts;
    } else {
      var n := |more| - 1;
      NothingPublishedAfter(acts, more[..n]);
      assert (acts + more)[..|acts + more| - 1] == acts + more[..n];
    }
  }

  // ---- the order of delivery

  lemma PlaySnoc(acts: seq<Action>, a: Action)
    ensures Play(acts + [a]) == Apply(Play(acts), a)
  {
    assert (acts + [a])[..|acts|] == acts;
  }

  /** Two publishes that overlap can reach a subscriber in the wrong order. */
  lemma DeliveryCanBeOutOfOrder()
    ensures exists acts :: 0 in Play(acts).subs && |Play(acts).subs[0].offered| == 2
              && Play(acts).subs[0].offered[0].seqNo > Play(acts).subs[0].offered[1].seqNo
  {
    var a1: seq<Action> := [] + [DoSubscribe(0)];
    PlaySnoc([], DoSubscribe(0));
    var a2 := a1 + [DoStamp(7)];
    PlaySnoc(a1, DoStamp(7));
    var a3 := a2 + [DoStamp(8)];
    PlaySnoc(a2, DoStamp(8));
    var a4 := a3 + [DoOffer(2, 0)];
    PlaySnoc(a3, DoOffer(2, 0));
    var a5 := a4 + [DoOffer(1, 0)];
    PlaySnoc(a4, DoOffer(1, 0));
    assert Play(a3).pending[1] == {0} && Play(a3).pending[2] == {0};
    assert Play(a5).subs[0].offered == [Event(2, 8), Event(1, 7)];
  }

  /** A publish starts only when the registered subscribers have been offered all earlier ones. */
  ghost predicate Quiet(s: State) { forall k: nat, id: nat :: Awaits(s, k, id) ==> id !in s.subs }

  ghost predicate PublishesAreSerial(acts: seq<Action>) {
    forall i :: 0 <= i < |acts| && acts[i].DoStamp? ==> Quiet(Play(acts[..i]))
  }

  predicate Rising(q: seq<Event>) { forall i, j :: 0 <= i < j < |q| ==> q[i].seqNo < q[j].seqNo }

  predicate InOrder(sub: Sub) { Rising(sub.offered) }

  /** Registered subscribers are offered in order, and at most the latest event is awaited. */
  ghost predicate Ordered(s: State) {
    && (forall id :: id in s.subs ==> InOrder(s.subs[id]))
    && (forall k: nat, id: nat :: Awaits(s, k, id) && id in s.subs ==> k == |s.log|)
  }

  lemma OrderStep(s: State, a: Action)
    requires Inv(s) && Ordered(s) && (a.DoStamp? ==> Quiet(s))
    ensures Ordered(Apply(s, a))
  {
    hide Retained, Numbered, BacklogFits, ChannelFits, OffersFit;
    var t := Apply(s, a);
    match a
    case DoOffer(k, id) =>
      if CanOffer(s, k, id) {
        assert Awaits(s, k, id) && SubFits(s, id, s.subs[id]) && !WasOffered(s.subs[id], k);
        OfferInOrder(s, k, id);
        assert forall j: nat, i: nat :: Awaits(t, j, i) ==> Awaits(s, j, i);
      }
    case DoStamp(_) => assert forall j: nat, i: nat :: Awaits(t, j, i) ==> j == |t.log| || Awaits(s, j, i);
    case _ => assert forall j: nat, i: nat :: Awaits(t, j, i) ==> Awaits(s, j, i);
  }

  lemma OfferInOrder(s: State, k: nat, id: nat)
    requires CanOffer(s, k, id) && k == |s.log| && Numbered(s.log)
    requires InOrder(s.subs[id]) && OffersFit(s.log, s.subs[id]) && !WasOffered(s.subs[id], k)
    ensures InOrder(Offered(s.subs[id], s.log[k - 1]))
  {
    var sub := s.subs[id];
    forall i | 0 <= i < |sub.offered| ensures sub.offered[i].seqNo < k {
      assert sub.offered[i].seqNo != k;
    }
  }

  /** When publishes do not overlap, every subscriber is offered events in sequence order. */
  lemma {:induction false} SerialPublishesKeepOrder(acts: seq<Action>)
    requires PublishesAreSerial(acts)
    ensures Ordered(Play(acts))
    decreases |acts|
  {
    hide Apply, Inv, Ordered, Quiet;
    if acts == [] {
      assert Ordered(EMPTY) by { EmptyOrdered(); }
    } else {
      var n := |acts| - 1;
      assert forall i :: 0 <= i < n ==> acts[..n][..i] == acts[..i];
      SerialPublishesKeepOrder(acts[..n]);
      ReachableInv(acts[..n]);
      OrderStep(Play(acts[..n]), acts[n]);
    }
  }

  // ---- exactly when the order is kept

  predicate OnlyOffers(acts: seq<Action>) { forall i :: 0 <= i < |acts| ==> acts[i].DoOffer? }

  /** No registered subscriber has been offered events out of sequence. */
  ghost predicate NobodyOutOfOrder(s: State) { forall id :: id in s.subs ==> InOrder(s.subs[id]) }

  /** However the deliveries under way at any point of the run go on, nobody sees a wrong order. */
  ghost predicate OrderIsSafe(acts: seq<Action>) {
    forall i, more :: 0 <= i <= |acts| && OnlyOffers(more) ==> NobodyOutOfOrder(Play(acts[..i] + more))
  }

  /** Publishes that do not overlap are the only ones whose deliveries cannot go out of order. */
  lemma SerialIffOrderIsSafe(acts: seq<Action>)
    ensures PublishesAreSerial(acts) <==> OrderIsSafe(acts)
  {
    hide Play, Quiet, NobodyOutOfOrder, OnlyOffers;
    if PublishesAreSerial(acts) {
      forall i, more | 0 <= i <= |acts| && OnlyOffers(more) ensures NobodyOutOfOrder(Play(acts[..i] + more)) {
        StillSerial(acts, i, more);
        SerialPublishesKeepOrder(acts[..i] + more);
        OrderedIsInOrder(Play(acts[..i] + more));
      }
    } else {
      var i :| 0 <= i < |acts| && acts[i].DoStamp? && !Quiet(Play(acts[..i]));
      var more := Overtaking(acts[..i], acts[i].payload);
      assert acts[..i + 1] == acts[..i] + [acts[i]];
      assert !NobodyOutOfOrder(Play(acts[..i + 1] + more));
    }
  }

  lemma OrderedIsInOrder(s: State)
    requires Ordered(s)
    ensures NobodyOutOfOrder(s)
  {
  }

  lemma StillSerial(acts: seq<Action>, i: nat, more: seq<Action>)
    requires PublishesAreSerial(acts) && i <= |acts| && OnlyOffers(more)
    ensures PublishesAreSerial(acts[..i] + more)
  {
    hide Play, Quiet;
    var all := acts[..i] + more;
    forall k | 0 <= k < |all| && all[k].DoStamp? ensures Quiet(Play(all[..k])) {
      assert k < i && all[k] == acts[k] && all[..k] == acts[..k];
    }
  }

  /** A closed bus has no subscribers. */
  lemma {:induction false} ClosedHasNone(acts: seq<Action>)
    ensures Play(acts).closed ==> Play(acts).subs == map[]
    decreases |acts|
  {
    if acts != [] { ClosedHasNone(acts[..|acts| - 1]); }
  }

  /** A publish that starts while an earlier event is awaited can overtake it. */
  lemma Overtaking(before: seq<Action>, payload: nat) returns (more: seq<Action>)
    requires !Quiet(Play(before))
    ensures OnlyOffers(more) && !NobodyOutOfOrder(Play(before + [DoStamp(payload)] + more))
  {
    hide Play, Inv;
    var s := Play(before);
    ReachableInv(before);
    ClosedHasNone(before);
    var k: nat, id: nat :| Awaits(s, k, id) && id in s.subs;
    AwaitedIsStamped(s, k, id);
    var n := |s.log| + 1;
    var stamped := before + [DoStamp(payload)];
    PlaySnoc(before, DoStamp(payload));
    PlaySnoc(stamped, DoOffer(n, id));
    PlaySnoc(stamped + [DoOffer(n, id)], DoOffer(k, id));
    more := [DoOffer(n, id), DoOffer(k, id)];
    assert stamped + more == stamped + [DoOffer(n, id)] + [DoOffer(k, id)];
    OfferedInverted(s, payload, k, id);
  }

  lemma AwaitedIsStamped(s: State, k: nat, id: nat)
    requires Inv(s) && Awaits(s, k, id)
    ensures 0 < k <= |s.log| && Numbered(s.log)
  {
    hide Retained, SubsFit;
  }

  lemma OfferedInverted(s: State, payload: nat, k: nat, id: nat)
    requires !s.closed && Awaits(s, k, id) && id in s.subs && 0 < k <= |s.log| && Numbered(s.log)
    ensures !NobodyOutOfOrder(Offer(Offer(Stamp(s, payload), |s.log| + 1, id), k, id))
  {
    hide Trim;
    var n := |s.log| + 1;
    var t1 := Stamp(s, payload);
    var t2 := Offer(t1, n, id);
    var t3 := Offer(t2, k, id);
    var m := |s.subs[id].offered|;
    assert t3.subs[id].offered == s.subs[id].offered + [t1.log[n - 1]] + [s.log[k - 1]];
    assert t3.subs[id].offered[m].seqNo == n && t3.subs[id].offered[m + 1].seqNo == k;
    assert !InOrder(t3.subs[id]);
  }

  // ---- what is received

  /** q with the events of `lost` left out. */
  function LeftOut(q: seq<Event>, lost: seq<Event>): seq<Event> {
    if q == [] then []
    else LeftOut(q[..|q| - 1], lost) + if q[|q| - 1] in lost then [] else [q[|q| - 1]]
  }

  /** What has been read or waits to be read is what was offered, less what was lost, in that order. */
  ghost predicate InTurn(sub: Sub) {
    && sub.taken + sub.buffer == LeftOut(sub.offered, sub.lost)
    && forall e :: e in sub.lost ==> e in sub.offered
  }

  lemma {:induction false} LeftOutElsewhere(q: seq<Event>, lost: seq<Event>, ev: Event)
    requires ev !in q
    ensures LeftOut(q, lost + [ev]) == LeftOut(q, lost)
    decreases |q|
  {
    if q != [] { LeftOutElsewhere(q[..|q| - 1], lost, ev); }
  }

  lemma OfferedInTurn(sub: Sub, ev: Event)
    requires InTurn(sub) && ev !in sub.offered
    ensures InTurn(Offered(sub, ev))
  {
    var t := Offered(sub, ev);
    assert t.offered[..|sub.offered|] == sub.offered;
    if |sub.buffer| < CHANNEL_CAPACITY {
      assert sub.taken + (sub.buffer + [ev]) == (sub.taken + sub.buffer) + [ev];
    } else {
      LeftOutElsewhere(sub.offered, sub.lost, ev);
      assert LeftOut(sub.offered, sub.lost) + [] == LeftOut(sub.offered, sub.lost);
    }
  }

  ghost predicate AllInTurn(s: State) { forall id :: id in s.subs ==> InTurn(s.subs[id]) }

  lemma InTurnStep(s: State, a: Action)
    requires Inv(s) && AllInTurn(s)
    ensures AllInTurn(Apply(s, a))
  {
    hide InTurn, Retained, Numbered, SubsFit, PendingFits, Offered, After, Trim;
    match a
    case DoOffer(k, id) =>
      if CanOffer(s, k, id) {
        NewToSub(s, k, id);
        OfferedInTurn(s.subs[id], s.log[k - 1]);
      }
    case DoSubscribe(since) => FreshInTurn(since, |s.log|, After(s.history, since));
    case DoReceive(id) =>
      if id in s.subs && s.subs[id].buffer != [] { ReceivedInTurn(s, id); }
    case _ =>
  }

  lemma NewToSub(s: State, k: nat, id: nat)
    requires Inv(s) && CanOffer(s, k, id)
    ensures s.log[k - 1] !in s.subs[id].offered
  {
    hide Retained, BacklogFits, ChannelFits;
    assert Awaits(s, k, id) && SubFits(s, id, s.subs[id]);
    assert !WasOffered(s.subs[id], k);
  }

  lemma FreshInTurn(since: int, at: nat, backlog: seq<Event>)
    ensures InTurn(Sub(since, at, backlog, [], [], [], []))
  {
  }

  lemma ReceivedInTurn(s: State, id: nat)
    requires id in s.subs && s.subs[id].buffer != [] && InTurn(s.subs[id])
    ensures InTurn(Receive(s, id).subs[id])
  {
    hide LeftOut;
    var sub := s.subs[id];
    assert sub.taken + [sub.buffer[0]] + sub.buffer[1..] == sub.taken + sub.buffer;
  }

  /** A subscriber receives what it was offered, less what found the channel full, in the order of the
      offers. */
  lemma {:induction false} ReceivedAsOffered(acts: seq<Action>)
    ensures AllInTurn(Play(acts))
    decreases |acts|
  {
    hide Apply, Inv, InTurn;
    if acts != [] {
      ReceivedAsOffered(acts[..|acts| - 1]);
      ReachableInv(acts[..|acts| - 1]);
      InTurnStep(Play(acts[..|acts| - 1]), acts[|acts| - 1]);
    }
  }

  /** So when publishes do not overlap, what it receives is in sequence order. */
  lemma SerialIsReceivedInOrder(acts: seq<Action>, id: nat)
    requires PublishesAreSerial(acts) && id in Play(acts).subs
    ensures Rising(Play(acts).subs[id].taken + Play(acts).subs[id].buffer)
  {
    hide Play, PublishesAreSerial, LeftOut;
    ReceivedAsOffered(acts);
    SerialPublishesKeepOrder(acts);
    var sub := Play(acts).subs[id];
    assert InTurn(sub) && InOrder(sub);
    LeftOutInOrder(sub.offered, sub.lost);
    assert sub.taken + sub.buffer == LeftOut(sub.offered, sub.lost);
  }

  lemma {:induction false} LeftOutInOrder(q: seq<Event>, lost: seq<Event>)
    requires Rising(q)
    ensures Rising(LeftOut(q, lost)) && forall e :: e in LeftOut(q, lost) ==> e in q
    decreases |q|
  {
    if q != [] {
      var n := |q| - 1;
      var front := LeftOut(q[..n], lost);
      LeftOutInOrder(q[..n], lost);
      assert q == q[..n] + [q[n]] && front + [] == front;
      forall e | e in front ensures e.seqNo < q[n].seqNo {
        assert e in q[..n];
      }
      assert Rising(front + [q[n]]);
    }
  }

  // ---- catching up

  /** What a subscriber lost to a full channel it can fetch with History, from the number it subscribed
      from on, exactly as long as it is retained. */
  lemma LostCanBeFetched(acts: seq<Action>, id: nat, e: Event)
    requires id in Play(acts).subs && e in Play(acts).subs[id].lost
    ensures e in After(Play(acts).history, Play(acts).subs[id].since)
       <==> (e.seqNo > |Play(acts).log| - |Play(acts).history| && e.seqNo > Play(acts).subs[id].since)
  {
    hide Play, Covered, BacklogFits, After;
    ReachableInv(acts);
    var s := Play(acts);
    var sub := s.subs[id];
    assert SubFits(s, id, sub);
    assert e in multiset(sub.lost) && e in multiset(sub.offered);
    var i :| 0 <= i < |sub.offered| && sub.offered[i] == e;
    AfterMeans(s.history, sub.since);
    InHistoryIff(s, e);
  }

  lemma InHistoryIff(s: State, e: Event)
    requires Numbered(s.log) && Retained(s) && 0 < e.seqNo <= |s.log| && e == s.log[e.seqNo - 1]
    ensures e in s.history <==> e.seqNo > |s.log| - |s.history|
  {
    var d := |s.log| - |s.history|;
    if e.seqNo > d {
      assert s.history[e.seqNo - 1 - d] == e;
    }
    forall i | 0 <= i < |s.history| && s.history[i] == e ensures e.seqNo > d {
      assert s.history[i] == s.log[d + i];
    }
  }

  /** How many of n events are retained: all at first, and then between 15001 and 20000, going round. */
  function RetainedOf(n: nat): nat { if n <= 20000 then n else 15001 + (n - 20001) % 5000 }

  lemma {:induction false} HistoryLengthIs(acts: seq<Action>)
    ensures |Play(acts).history| == RetainedOf(|Play(acts).log|)
    decreases |acts|
  {
    hide Play, Apply, RetainedOf;
    if acts == [] {
      NothingYet();
      assert RetainedOf(0) == 0 by { OneMoreRetained(0); }
    } else {
      var n := |acts| - 1;
      HistoryLengthIs(acts[..n]);
      assert acts == acts[..n] + [acts[n]];
      PlaySnoc(acts[..n], acts[n]);
      LengthStep(Play(acts[..n]), acts[n]);
    }
  }

  lemma LengthStep(s: State, a: Action)
    requires |s.history| == RetainedOf(|s.log|)
    ensures |Apply(s, a).history| == RetainedOf(|Apply(s, a).log|)
  {
    hide RetainedOf, After, Offered;
    OneMoreRetained(|s.log|);
  }

  lemma OneMoreRetained(n: nat)
    ensures RetainedOf(n + 1) == if RetainedOf(n) < 20000 then RetainedOf(n) + 1 else 15001
    ensures RetainedOf(0) == 0 && RetainedOf(n) <= 20000
  {
  }

  /** The whole sequence can be recovered from History exactly until the limit is first exceeded. */
  lemma CompleteIffWithinLimit(acts: seq<Action>)
    ensures After(Play(acts).history, 0) == Play(acts).log <==> |Play(acts).log| <= 20000
  {
    hide Play;
    ReachableInv(acts);
    var s := Play(acts);
    LaterThanZero(s);
    hide After;
    assert |s.history| == |s.log| <==> s.history == s.log;
  }

  lemma LaterThanZero(s: State)
    requires Inv(s)
    ensures After(s.history, 0) == s.history && Retained(s)
  {
    hide SubsFit, PendingFits, After;
    TailIsPositive(s.log, |s.log| - |s.history|);
    AllAfter(s.history, 0);
  }

  lemma TailIsPositive(log: seq<Event>, d: nat)
    requires Numbered(log) && d <= |log|
    ensures forall i :: 0 <= i < |log[d..]| ==> log[d..][i].seqNo > 0
  {
    assert forall i :: 0 <= i < |log[d..]| ==> log[d..][i] == log[d + i];
  }

  /** One subscriber that never reads, and n events offered to it. */
  function Rounds(n: nat): (acts: seq<Action>) {
    if n == 0 then [DoSubscribe(0)] else Rounds(n - 1) + [DoStamp(0)] + [DoOffer(n, 0)]
  }

  lemma {:induction false} RoundsPileUp(n: nat)
    ensures var s := Play(Rounds(n));
            && !s.closed && s.subs.Keys == {0} && |s.log| == n && Numbered(s.log)
            && |s.subs[0].buffer| == (if n < CHANNEL_CAPACITY then n else CHANNEL_CAPACITY)
            && (forall i :: CHANNEL_CAPACITY <= i < n ==> s.log[i] in s.subs[0].lost)
  {
    hide Play, Trim;
    if n == 0 {
      PlaySnoc([], DoSubscribe(0));
      assert [] + [DoSubscribe(0)] == [DoSubscribe(0)];
      NothingYet();
    } else {
      RoundsPileUp(n - 1);
      PlaySnoc(Rounds(n - 1), DoStamp(0));
      PlaySnoc(Rounds(n - 1) + [DoStamp(0)], DoOffer(n, 0));
      OneRound(Play(Rounds(n - 1)), n);
    }
  }

  lemma NothingYet()
    ensures Play([]) == EMPTY
  {
  }

  lemma OneRound(s: State, n: nat)
    requires n > 0 && !s.closed && s.subs.Keys == {0} && |s.log| == n - 1 && Numbered(s.log)
    requires |s.subs[0].buffer| == if n - 1 < CHANNEL_CAPACITY then n - 1 else CHANNEL_CAPACITY
    requires forall i :: CHANNEL_CAPACITY <= i < n - 1 ==> s.log[i] in s.subs[0].lost
    ensures var t := Offer(Stamp(s, 0), n, 0);
            && !t.closed && t.subs.Keys == {0} && |t.log| == n && Numbered(t.log)
            && |t.subs[0].buffer| == (if n < CHANNEL_CAPACITY then n else CHANNEL_CAPACITY)
            && (forall i :: CHANNEL_CAPACITY <= i < n ==> t.log[i] in t.subs[0].lost)
  {
    hide Trim;
    var u := Stamp(s, 0);
    assert CanOffer(u, n, 0);
    var t := Offer(u, n, 0);
    forall i | CHANNEL_CAPACITY <= i < n ensures t.log[i] in t.subs[0].lost {
      if i < n - 1 { assert t.log[i] == s.log[i]; }
    }
  }

  /** After 20513 events the 513th, lost to the full channel, is not in the history any more. */
  lemma RecoveryCanFail()
    ensures var s := Play(Rounds(HISTORY_LIMIT + CHANNEL_CAPACITY + 1));
            0 in s.subs && exists e :: e in s.subs[0].lost && e !in s.history
  {
    hide Play, Rounds;
    var n := HISTORY_LIMIT + CHANNEL_CAPACITY + 1;
    RoundsPileUp(n);
    ReachableInv(Rounds(n));
    var s := Play(Rounds(n));
    TrimmedOff(s);
    assert s.log[CHANNEL_CAPACITY] in s.subs[0].lost;
  }

  lemma TrimmedOff(s: State)
    requires Inv(s) && |s.log| == HISTORY_LIMIT + CHANNEL_CAPACITY + 1
    ensures s.log[CHANNEL_CAPACITY] !in s.history
  {
    hide SubsFit, PendingFits;
    InHistoryIff(s, s.log[CHANNEL_CAPACITY]);
  }

  lemma EmptyOrdered()
    ensures Ordered(EMPTY)
  {
  }

  lemma IdsBelow(s: State)
    requires Inv(s)
    ensures forall id :: id in s.subs ==> id < s.nextSub
  {
    hide SubsFit, Retained, Numbered;
  }

  // ---- the bus as the source has it

  class Bus {
    var seqNo: nat
    var history: seq<Event>
    var chans: map<nat, seq<Event>>
    var nextSub: nat
    var closed: bool
    ghost var log: seq<Event>
    ghost var book: map<nat, Sub>
    ghost var pending: map<nat, set<nat>>

    ghost function Now(): State
      reads this
    {
      State(log, history, book, nextSub, closed, pending)
    }

    /** The real fields agree with the bookkeeping, which satisfies the invariant. */
    ghost predicate Valid()
      reads this
    {
      && seqNo == |log| && Inv(Now())
      && chans.Keys == book.Keys && forall id :: id in chans ==> chans[id] == book[id].buffer
    }

    constructor ()
      ensures Valid() && Now() == EMPTY
    {
      seqNo, history, chans, nextSub, closed := 0, [], map[], 0, false;
      log, book, pending := [], map[], map[];
      new;
      hide Inv;
      assert Now() == EMPTY;
      EmptyInv();
    }

    /** The locked half of Publish: the stamped event and whom to offer it to. */
    method PublishLocked(payload: nat) returns (ev: Event, targets: set<nat>)
      requires Valid()
      modifies this
      ensures Valid() && Now() == Stamp(old(Now()), payload)
      ensures !old(closed) ==> ev == Event(old(seqNo) + 1, payload) && targets == chans.Keys
      ensures !old(closed) ==> history != [] && history[|history| - 1] == ev
      ensures old(closed) ==> targets == {}
    {
      hide Inv;
      StampKeeps(Now(), payload);
      if closed {
        return Event(0, payload), {};
      }
      seqNo := seqNo + 1;
      ev := Event(seqNo, payload);
      history := history + [ev];
      if |history| > HISTORY_LIMIT {
        history := history[HISTORY_LIMIT / 4..];
      }
      targets := chans.Keys;
      log, pending := log + [ev], pending[ev.seqNo := targets];
    }

    /** One turn of the unlocked half: send if the channel has room, drop otherwise. */
    method OfferTo(ev: Event, id: nat)
      requires Valid() && CanOffer(Now(), ev.seqNo, id) && ev == log[ev.seqNo - 1]
      modifies this
      ensures Valid() && Now() == Offer(old(Now()), ev.seqNo, id)
    {
      hide Inv;
      OfferKeeps(Now(), ev.seqNo, id);
      book := book[id := Offered(book[id], ev)];
      pending := pending[ev.seqNo := pending[ev.seqNo] - {id}];
      if |chans[id]| < CHANNEL_CAPACITY {
        chans := chans[id := chans[id] + [ev]];
      }
    }

    /** The loop of Subscribe and History over the retained events. */
    method EventsAfter(since: int) returns (out: seq<Event>)
      ensures out == After(history, since)
    {
      out := [];
      assert history[0..] == history;
      assert [] + After(history, since) == After(history, since);
      for i := 0 to |history|
        invariant out + After(history[i..], since) == After(history, since)
      {
        assert history[i..][0] == history[i] && history[i..][1..] == history[i + 1..];
        ghost var rest := After(history[i + 1..], since);
        assert out + ([history[i]] + rest) == (out + [history[i]]) + rest;
        assert out + ([] + rest) == out + rest;
        if history[i].seqNo > since {
          out := out + [history[i]];
        }
      }
      assert history[|history|..] == [];
      assert out + [] == out;
    }

    method SubscribeSince(since: int) returns (id: nat, backlog: seq<Event>)
      requires Valid()
      modifies this
      ensures Valid() && Now() == Subscribe(old(Now()), since)
      ensures backlog == After(history, since) && id == old(nextSub)
      ensures id in chans <==> !closed
    {
      hide Inv, After;
      IdsBelow(Now());
      SubscribeKeeps(Now(), since);
      backlog := EventsAfter(since);
      id := nextSub;
      if closed { return; }
      nextSub := nextSub + 1;
      chans := chans[id := []];
      book := book[id := Sub(since, |log|, backlog, [], [], [], [])];
    }

    /** History: the end of the retained events, from the first one after `since` on. */
    method HistorySince(since: int) returns (out: seq<Event>)
      requires Valid()
      ensures forall e :: e in out <==> e in history && e.seqNo > since
      ensures |out| <= |history| && out == history[|history| - |out|..]
    {
      AfterMeans(history, since);
      AfterIsTheEnd(history, since, |log| - |history|);
      out := EventsAfter(since);
    }

    method CancelSub(id: nat)
      requires Valid()
      modifies this
      ensures Valid() && Now() == Cancel(old(Now()), id)
    {
      hide Inv;
      DropKeeps(Now(), DoCancel(id));
      chans, book := chans - {id}, book - {id};
    }

    method CloseBus()
      requires Valid()
      modifies this
      ensures Valid() && Now() == Close(old(Now()))
    {
      hide Inv;
      DropKeeps(Now(), DoClose);
      if closed { return; }
      closed := true;
      chans, book := map[], map[];
    }
  }
}
