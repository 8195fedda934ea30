/**
 The append-only history of the configuration and of scenarios (internal/store/store.go and
 scenarios.go).

 `Store` keeps the buckets the source keeps; beside each stands the log it is meant to be, and the
 class invariant says the bucket holds exactly that log. Encoding entries as JSON is not modelled:
 a bucket holds the entries themselves.
 */
module VersionLog {
  import opened Bytes
  import opened Options
  import opened VersionKeys

  datatype Result<+T> = Ok(value: T) | Err

  datatype Config = Config(baseUrl: string, apiKey: string, rest: string)

  datatype Note = Words(text: string) | RestoredFrom(version: nat)

  datatype Version = Version(version: nat, at: int, note: Note, config: Config)

  datatype Revision = Revision(id: string, version: nat, at: int, note: string, name: string, path: string,
                               source: string, isCurrent: bool)

  const DEFAULT_URL := "http://localhost:11434/v1"

  /** Version numbers are 64-bit: the last one is followed by 0. */
  function Next(v: nat): nat
    requires v < Pow256(WIDTH)
  {
    (v + 1) % Pow256(WIDTH)
  }

  function Normalised(c: Config): Config { if c.baseUrl == "" then c.(baseUrl := DEFAULT_URL) else c }

  /** Only a missing base URL is filled in; the key and everything else stay. */
  lemma NormalisedIs(c: Config)
    ensures Normalised(c).apiKey == c.apiKey && Normalised(c).rest == c.rest
    ensures Normalised(c).baseUrl == if c.baseUrl == "" then "http://localhost:11434/v1" else c.baseUrl
    ensures Normalised(Normalised(c)) == Normalised(c)
  {
  }

  // ---- what the histories are meant to be

  /** Versions count from one. */
  predicate Numbered(log: seq<Version>) { forall i :: 0 <= i < |log| ==> log[i].version == i + 1 }

  /** Revisions count from one, no two neighbours have the same source, none is stored as current. */
  predicate Recorded(log: seq<Revision>) {
    && (forall i :: 0 <= i < |log| ==> log[i].version == i + 1 && !log[i].isCurrent)
    && (forall i :: 0 < i < |log| ==> log[i - 1].source != log[i].source)
  }

  function Saved(log: seq<Version>, c: Config, note: Note, at: int): seq<Version> {
    log + [Version(|log| + 1, at, note, c)]
  }

  function WithRevision(log: seq<Revision>, r: Revision): seq<Revision> {
    if log != [] && log[|log| - 1].source == r.source then log
    else log + [r.(version := |log| + 1, isCurrent := false)]
  }

  // ---- the store

  class Store {
    var config: map<bytes, Version>
    var current: Option<bytes>
    var scenarios: map<string, map<bytes, Revision>>
    ghost var log: seq<Version>
    ghost var logs: map<string, seq<Revision>>

    ghost predicate ConfigValid()
      reads this
    {
      Holds(config, log) && Numbered(log) && current == if log == [] then None else Some(Key(|log|))
    }

    ghost predicate ScenariosValid()
      reads this
    {
      && scenarios.Keys == logs.Keys
      && forall id :: id in logs ==> HasHistory(scenarios[id], logs[id])
    }

    ghost predicate Valid()
      reads this
    {
      ConfigValid() && ScenariosValid()
    }

    ghost function History(id: string): seq<Revision>
      reads this
    {
      if id in logs then logs[id] else []
    }

    /** A file that does not exist yet. */
    constructor ()
      ensures Valid() && log == [] && logs == map[]
    {
      config, current, scenarios, log, logs := map[], None, map[], [], map[];
      new;
      HoldsEmpty(config);
    }

    /** Opening a store that has no revision yet writes the first, with the defaults; any other is
        left as it is. */
    method Open(defaults: Config, at: int)
      requires ConfigValid()
      modifies `config, `current, `log
      ensures ConfigValid()
      ensures log == if old(log) == [] then Saved([], defaults, Words("initial defaults"), at) else old(log)
    {
      hide Key, Pow256, Holds;
      EmptyIff(config, log);
      LogFits(config, log);
      if config == map[] {
        RoomForOne();
        WriteVersion(Version(1, at, Words("initial defaults"), defaults));
      }
    }

    /** Puts a version under its key and points at it. */
    method WriteVersion(v: Version)
      requires ConfigValid() && |log| < Pow256(WIDTH) && v.version == Next(|log|)
      modifies `config, `current, `log
      ensures config == old(config)[Key(v.version) := v] && current == Some(Key(v.version)) && log == old(log) + [v]
      ensures |log| < Pow256(WIDTH) ==> ConfigValid()
    {
      hide Key, Pow256, Holds;
      if |log| + 1 < Pow256(WIDTH) {
        NextBelow(|log|);
        HoldsAppend(config, log, v);
      }
      config := config[Key(v.version) := v];
      current := Some(Key(v.version));
      log := log + [v];
    }

    /** One more than the version pointed at. */
    method NextVersion() returns (next: nat)
      requires ConfigValid()
      ensures |log| < Pow256(WIDTH) && next == Next(|log|)
    {
      hide Key, Pow256, FromBE, Holds;
      LogFits(config, log);
      RoomForOne();
      next := 1;
      if current.Some? {
        KeysAreInOrder(|log|, |log|);
        next := Next(FromBE(current.value));
      }
    }

    /** Appends a revision; nothing already there changes. The 2^64-th would get number 0. */
    method Save(c: Config, note: string, at: int) returns (v: Version)
      requires ConfigValid()
      modifies `config, `current, `log
      ensures v.version < Pow256(WIDTH) && v.at == at && v.note == Words(note)
      ensures v.config.apiKey == c.apiKey && v.config.rest == c.rest
      ensures v.config.baseUrl == if c.baseUrl == "" then "http://localhost:11434/v1" else c.baseUrl
      ensures config == old(config)[Key(v.version) := v] && current == Some(Key(v.version))
      ensures |old(log)| + 1 < Pow256(WIDTH) ==>
                ConfigValid() && log == Saved(old(log), Normalised(c), Words(note), at) && v == log[|log| - 1]
      ensures |old(log)| + 1 >= Pow256(WIDTH) ==> v == Version(0, at, Words(note), Normalised(c))
    {
      hide Key, Pow256, Holds, Normalised;
      var next := NextVersion();
      NextBelow(|log|);
      NormalisedIs(c);
      v := Version(next, at, Words(note), Normalised(c));
      WriteVersion(v);
    }

    /** Copies an old revision forward; a version that is not there is an error and changes nothing. */
    method Restore(version: nat, at: int) returns (r: Result<Version>)
      requires ConfigValid() && version < Pow256(WIDTH)
      modifies `config, `current, `log
      ensures r.Ok? <==> 1 <= version <= |old(log)|
      ensures r.Err? ==> log == old(log) && config == old(config) && current == old(current)
      ensures r.Ok? ==>
                && r.value.version < Pow256(WIDTH)
                && config == old(config)[Key(r.value.version) := r.value] && current == Some(Key(r.value.version))
      ensures r.Ok? && |old(log)| + 1 < Pow256(WIDTH) ==>
                && ConfigValid() && r.value == log[|log| - 1]
                && log == Saved(old(log), old(log)[version - 1].config, RestoredFrom(version), at)
      ensures r.Ok? && |old(log)| + 1 >= Pow256(WIDTH) ==>
                r.value == Version(0, at, RestoredFrom(version), old(log)[version - 1].config)
    {
      hide Key, Pow256, Holds;
      Lookup(config, log, version);
      if Key(version) !in config {
        return Err;
      }
      var past := config[Key(version)];
      var next := NextVersion();
      NextBelow(|log|);
      var v := Version(next, at, RestoredFrom(version), past.config);
      WriteVersion(v);
      r := Ok(v);
    }

    /** The newest revision's configuration, or the default when there is none. */
    method Current(fallback: Config) returns (c: Config, version: nat)
      requires ConfigValid()
      ensures version == |log|
      ensures c == Normalised(if log == [] then fallback else log[|log| - 1].config)
    {
      hide Key, Pow256, FromBE;
      c, version := fallback, 0;
      if current.Some? {
        KeysAreInOrder(|log|, |log|);
        Lookup(config, log, |log|);
        version := FromBE(current.value);
        if current.value in config {
          c := config[current.value].config;
        }
      }
      c := Normalised(c);
    }

    /** Appends a revision of a scenario's source, unless the newest already has it. The 2^64-th
        would get number 0. */
    method RecordScenario(id: string, name: string, path: string, source: string, note: string, at: int)
      returns (r: Result<(Revision, bool)>)
      requires ScenariosValid()
      modifies `scenarios, `logs
      ensures r.Err? <==> id == ""
      ensures r.Err? ==> logs == old(logs) && scenarios == old(scenarios)
      ensures var was, entry := old(History(id)), Revision(id, 0, at, note, name, path, source, false);
              r.Ok? && (|was| + 1 < Pow256(WIDTH) || WithRevision(was, entry) == was) ==>
                && ScenariosValid()
                && History(id) == WithRevision(was, entry)
                && (forall other :: other != id ==> History(other) == old(History(other)))
                && r.value.1 == (History(id) != was)
                && History(id) != [] && r.value.0 == History(id)[|History(id)| - 1].(isCurrent := true)
                && r.value.0.source == source
                && (History(id) != was ==>
                      r.value.0 == Revision(id, |was| + 1, at, note, name, path, source, true))
      ensures var was, entry := old(History(id)), Revision(id, 0, at, note, name, path, source, false);
              r.Ok? && |was| + 1 >= Pow256(WIDTH) && WithRevision(was, entry) != was ==>
                && r.value == (entry.(isCurrent := true), true)
                && id in old(scenarios) && scenarios == old(scenarios)[id := old(scenarios)[id][Key(0) := entry]]
    {
      hide Key, Pow256, Holds, HasHistory;
      if id == "" {
        return Err;
      }
      var bucket := if id in scenarios then scenarios[id] else map[];
      ghost var before := History(id);
      HistoryOf(id);
      assert HasHistory(bucket, before);
      HistoryFits(bucket, before);
      RoomForOne();
      NextBelow(|before|);
      var prev := LatestIn(bucket, before);
      var next := 1;
      if prev.Some? {
        if prev.value.source == source {
          assert before == WithRevision(before, Revision(id, 0, at, note, name, path, source, false));
          return Ok((prev.value.(isCurrent := true), false));
        }
        next := Next(prev.value.version);
      }
      var saved := Revision(id, next, at, note, name, path, source, false);
      if |before| + 1 < Pow256(WIDTH) {
        AppendRevision(bucket, before, saved);
      }
      scenarios := scenarios[id := bucket[Key(next) := saved]];
      logs := logs[id := before + [saved]];
      r := Ok((saved.(isCurrent := true), true));
    }

    /** A scenario's revisions, newest first. */
    method ScenarioVersions(id: string, source: string, limit: nat) returns (out: seq<Revision>)
      requires ScenariosValid()
      ensures out == Listing(History(id), source, limit)
    {
      hide Holds, Recorded, Marked, Newest;
      HistoryOf(id);
      out := ForEach(if id in scenarios then scenarios[id] else map[], History(id));
      SortedIsNewest(out);
      out := NewestFirst(out);
      if source != "" {
        out := MarkCurrent(out, source);
      } else {
        NoMark(out);
      }
      if limit > 0 && |out| > limit {
        out := out[..limit];
      }
    }

    lemma HistoryOf(id: string)
      requires ScenariosValid()
      ensures HasHistory(if id in scenarios then scenarios[id] else map[], History(id))
    {
      hide Holds;
      if id !in logs {
        HoldsEmpty<Revision>(map[]);
      }
    }
  }

  ghost predicate HasHistory(b: map<bytes, Revision>, log: seq<Revision>) {
    Holds(b, log) && Recorded(log)
  }

  lemma LogFits<V>(b: map<bytes, V>, log: seq<V>)
    requires Holds(b, log)
    ensures |log| < Pow256(WIDTH)
  {
  }

  lemma HistoryFits(b: map<bytes, Revision>, log: seq<Revision>)
    requires HasHistory(b, log)
    ensures |log| < Pow256(WIDTH)
  {
  }

  lemma RoomForOne()
    ensures 1 < Pow256(WIDTH)
  {
    Widths();
  }

  lemma NextBelow(v: nat)
    requires v < Pow256(WIDTH)
    ensures Next(v) == if v + 1 < Pow256(WIDTH) then v + 1 else 0
  {
    hide Pow256;
  }

  lemma AppendRevision(b: map<bytes, Revision>, log: seq<Revision>, r: Revision)
    requires HasHistory(b, log) && |log| + 1 < Pow256(WIDTH)
    requires r.version == |log| + 1 && !r.isCurrent && (log != [] ==> log[|log| - 1].source != r.source)
    ensures HasHistory(b[Key(|log| + 1) := r], log + [r])
  {
    hide Holds, Key, Pow256;
    HoldsAppend(b, log, r);
  }

  /** The entry under the last key in byte order. */
  method LatestIn(b: map<bytes, Revision>, ghost log: seq<Revision>) returns (r: Option<Revision>)
    requires HasHistory(b, log)
    ensures r == if log == [] then None else Some(log[|log| - 1])
    ensures r.Some? ==> r.value.version == |log|
  {
    hide Key, Pow256, Less;
    EmptyIff(b, log);
    if b == map[] {
      return None;
    }
    LastIsNewest(b, log, Key(|log|));
    var k :| IsLast(b, k);
    LastIsNewest(b, log, k);
    Lookup(b, log, |log|);
    r := Some(b[k]);
  }

  lemma EmptyIff<V>(b: map<bytes, V>, log: seq<V>)
    requires Holds(b, log)
    ensures b == map[] <==> log == []
  {
    hide Key, Pow256;
    if log != [] {
      assert Key(|log|) in b;
    }
    forall k | k in b ensures log != [] {
      assert IsKeyOf(k, |log|);
    }
  }

  // ---- listing

  /** The history newest first, with the newest revision of the current source marked, cut to a limit. */
  function Listing(log: seq<Revision>, source: string, limit: nat): seq<Revision> {
    var marked := Marked(Newest(log), source);
    if 0 < limit < |marked| then marked[..limit] else marked
  }

  function Newest(log: seq<Revision>): seq<Revision> {
    seq(|log|, i requires 0 <= i < |log| => log[|log| - 1 - i])
  }

  /** Marks the first with that source; no source, no mark. */
  function Marked(rs: seq<Revision>, source: string): seq<Revision> {
    if rs == [] || source == "" then rs
    else if rs[0].source == source then [rs[0].(isCurrent := true)] + rs[1..]
    else [rs[0]] + Marked(rs[1..], source)
  }

  lemma NoMark(rs: seq<Revision>)
    ensures Marked(rs, "") == rs
  {
  }

  /** Visits a bucket in the byte order of its keys. */
  method ForEach(b: map<bytes, Revision>, ghost log: seq<Revision>) returns (out: seq<Revision>)
    requires HasHistory(b, log)
    ensures out == log
  {
    hide Key, Pow256, Less, Recorded, Holds, Left;
    var rest := b;
    out := [];
    AllLeft(b, log);
    while rest != map[]
      invariant |out| <= |log| && out == log[..|out|] && Left(b, rest, log, |out|)
      decreases |log| - |out|
    {
      var k := LeastKey(b, rest, log, |out|);
      out := out + [rest[k]];
      rest := rest - {k};
    }
    NothingLeft(b, rest, log, |out|);
  }

  /** Just the versions above n are left. */
  ghost predicate Left(b: map<bytes, Revision>, rest: map<bytes, Revision>, log: seq<Revision>, n: nat) {
    && n <= |log| < Pow256(WIDTH)
    && (forall v: nat :: n < v <= |log| ==> Key(v) in rest && rest[Key(v)] == log[v - 1])
    && (forall k :: k in rest ==> k in b && exists v: nat :: n < v <= |log| && k == Key(v))
  }

  lemma AllLeft(b: map<bytes, Revision>, log: seq<Revision>)
    requires Holds(b, log)
    ensures Left(b, b, log, 0)
  {
    hide Key, Pow256;
    forall k | k in b ensures exists v: nat :: 0 < v <= |log| && k == Key(v) {
      assert IsKeyOf(k, |log|);
    }
  }

  lemma NothingLeft(b: map<bytes, Revision>, rest: map<bytes, Revision>, log: seq<Revision>, n: nat)
    requires Left(b, rest, log, n)
    ensures n <= |log| && (n < |log| ==> rest != map[])
  {
    hide Key, Pow256;
    if n < |log| {
      assert Key(n + 1) in rest;
    }
  }

  predicate IsLeast(rest: map<bytes, Revision>, k: bytes) { k in rest && forall j :: j in rest ==> !Less(j, k) }

  method LeastKey(b: map<bytes, Revision>, rest: map<bytes, Revision>, ghost log: seq<Revision>, ghost n: nat)
    returns (k: bytes)
    requires Left(b, rest, log, n) && rest != map[]
    ensures n < |log| && k in rest && k == Key(n + 1)
    ensures rest[k] == log[n] && Left(b, rest - {k}, log, n + 1)
  {
    hide Key, Pow256, Left, IsLeast;
    LeastLeft(b, rest, log, n);
    assert IsLeast(rest, Key(n + 1));
    k :| k in rest && IsLeast(rest, k);
  }

  lemma LeastLeft(b: map<bytes, Revision>, rest: map<bytes, Revision>, log: seq<Revision>, n: nat)
    requires Left(b, rest, log, n) && rest != map[]
    ensures n < |log| < Pow256(WIDTH)
    ensures forall k :: IsLeast(rest, k) <==> k == Key(n + 1)
    ensures Key(n + 1) in rest && rest[Key(n + 1)] == log[n] && Left(b, rest - {Key(n + 1)}, log, n + 1)
  {
    hide Key, Pow256, Less;
    var some :| some in rest;
    var least := Key(n + 1);
    forall v: nat | n + 1 < v <= |log| ensures Less(least, Key(v)) && Key(v) != least {
      KeysAreInOrder(n + 1, v);
    }
    forall v: nat | n < v <= |log| ensures !Less(Key(v), least) {
      KeysAreInOrder(v, n + 1);
    }
    forall k | k in rest - {least} ensures exists v: nat :: n + 1 < v <= |log| && k == Key(v) {
      var v: nat :| n < v <= |log| && k == Key(v);
      assert n + 1 < v;
    }
  }

  /** A revision put where it belongs among others sorted by version, highest first. */
  function Inserted(rs: seq<Revision>, r: Revision): seq<Revision> {
    if rs == [] || rs[0].version < r.version then [r] + rs else [rs[0]] + Inserted(rs[1..], r)
  }

  function NewestFirst(rs: seq<Revision>): seq<Revision> {
    if rs == [] then [] else Inserted(NewestFirst(rs[..|rs| - 1]), rs[|rs| - 1])
  }

  lemma {:induction false} SortedIsNewest(log: seq<Revision>)
    requires Recorded(log)
    ensures NewestFirst(log) == Newest(log)
    decreases |log|
  {
    if log != [] {
      var n := |log| - 1;
      SortedIsNewest(log[..n]);
      assert Newest(log) == [log[n]] + Newest(log[..n]);
    }
  }

  method MarkCurrent(rs: seq<Revision>, source: string) returns (out: seq<Revision>)
    requires source != ""
    ensures out == Marked(rs, source)
  {
    out := rs;
    var i := 0;
    while i < |out|
      invariant i <= |rs| && out == rs && Marked(rs, source) == rs[..i] + Marked(rs[i..], source)
    {
      if out[i].source == source {
        out := out[i := out[i].(isCurrent := true)];
        return;
      }
      assert rs[i..][1..] == rs[i + 1..] && rs[..i + 1] == rs[..i] + [rs[i]];
      i := i + 1;
    }
  }

  lemma {:induction false} MarkedIs(rs: seq<Revision>, source: string)
    requires forall i :: 0 <= i < |rs| ==> !rs[i].isCurrent
    ensures |Marked(rs, source)| == |rs|
    ensures forall i :: 0 <= i < |rs| ==>
              Marked(rs, source)[i] == rs[i].(isCurrent := source != "" && IsFirstWith(rs, source, i))
    decreases |rs|
  {
    if rs != [] && source != "" && rs[0].source != source {
      MarkedIs(rs[1..], source);
      forall i | 1 <= i < |rs| ensures IsFirstWith(rs, source, i) == IsFirstWith(rs[1..], source, i - 1) {
        FirstShifts(rs, source, i);
      }
    }
  }

  predicate IsFirstWith(rs: seq<Revision>, source: string, i: nat) {
    i < |rs| && rs[i].source == source && forall j :: 0 <= j < i ==> rs[j].source != source
  }

  lemma FirstShifts(rs: seq<Revision>, source: string, i: nat)
    requires 1 <= i < |rs| && rs[0].source != source
    ensures IsFirstWith(rs, source, i) == IsFirstWith(rs[1..], source, i - 1)
  {
    assert forall j :: 1 <= j < |rs| ==> rs[j] == rs[1..][j - 1];
    assert forall j :: 0 <= j < |rs| - 1 ==> rs[1..][j] == rs[j + 1];
  }

  /** What is listed are the newest revisions, newest first and otherwise as stored, and the one
      marked is the newest of all with the current source, if it is within the limit. */
  lemma ListingIs(log: seq<Revision>, source: string, limit: nat)
    requires Recorded(log)
    ensures var ls := Listing(log, source, limit);
            && |ls| == (if 0 < limit < |log| then limit else |log|)
            && (forall i :: 0 <= i < |ls| ==> ls[i].(isCurrent := false) == log[|log| - 1 - i])
            && (forall i :: 0 <= i < |ls| ==>
                  (ls[i].isCurrent <==> source != "" && IsLastWith(log, source, |log| - 1 - i)))
  {
    hide Marked, IsFirstWith;
    MarkedIs(Newest(log), source);
    forall i | 0 <= i < |log| ensures IsFirstWith(Newest(log), source, i) <==> IsLastWith(log, source, |log| - 1 - i) {
      FirstOfNewest(log, source, i);
    }
  }

  predicate IsLastWith(log: seq<Revision>, source: string, i: nat) {
    i < |log| && log[i].source == source && forall j :: i < j < |log| ==> log[j].source != source
  }

  lemma FirstOfNewest(log: seq<Revision>, source: string, i: nat)
    requires i < |log|
    ensures IsFirstWith(Newest(log), source, i) <==> IsLastWith(log, source, |log| - 1 - i)
  {
    var rs := Newest(log);
    forall j | |log| - 1 - i < j < |log| ensures log[j] == rs[|log| - 1 - j] {
    }
    forall j | 0 <= j < i ensures rs[j] == log[|log| - 1 - j] {
    }
  }

  /** At most one revision is marked. */
  lemma OneCurrent(log: seq<Revision>, source: string, limit: nat, i: nat, j: nat)
    requires Recorded(log) && i < |Listing(log, source, limit)| && j < |Listing(log, source, limit)|
    requires Listing(log, source, limit)[i].isCurrent && Listing(log, source, limit)[j].isCurrent
    ensures i == j
  {
    hide Listing, Recorded;
    ListingIs(log, source, limit);
  }

  // ---- runs

  datatype ConfigOp = DoSave(config: Config, note: string, at: int) | DoRestore(version: nat, at: int)

  /** What Save and Restore do to the log. */
  function Applied(log: seq<Version>, op: ConfigOp): seq<Version> {
    match op
    case DoSave(c, note, at) => Saved(log, Normalised(c), Words(note), at)
    case DoRestore(v, at) => if 1 <= v <= |log| then Saved(log, log[v - 1].config, RestoredFrom(v), at) else log
  }

  function Run(log: seq<Version>, ops: seq<ConfigOp>): seq<Version>
    decreases |ops|
  {
    if ops == [] then log else Run(Applied(log, ops[0]), ops[1..])
  }

  /** History is append-only: after any saves and restores every earlier revision is still there
      under its number, and each restored revision has the configuration it names. */
  lemma {:induction false} HistoryGrows(log: seq<Version>, ops: seq<ConfigOp>)
    requires Numbered(log) && RestoresFaithful(log)
    ensures log <= Run(log, ops) && Numbered(Run(log, ops)) && RestoresFaithful(Run(log, ops))
    decreases |ops|
  {
    hide Numbered, RestoresFaithful, Normalised;
    if ops != [] {
      AppliedGrows(log, ops[0]);
      HistoryGrows(Applied(log, ops[0]), ops[1..]);
    }
  }

  predicate RestoresFaithful(log: seq<Version>) {
    forall i :: 0 <= i < |log| && log[i].note.RestoredFrom? ==>
      1 <= log[i].note.version <= i && log[i].config == log[log[i].note.version - 1].config
  }

  lemma AppliedGrows(log: seq<Version>, op: ConfigOp)
    requires Numbered(log) && RestoresFaithful(log)
    ensures log <= Applied(log, op) && Numbered(Applied(log, op)) && RestoresFaithful(Applied(log, op))
  {
    hide Numbered, RestoresFaithful, Normalised, Saved;
    match op
    case DoSave(c, note, at) => SavedGrows(log, Normalised(c), Words(note), at);
    case DoRestore(v, at) =>
      if 1 <= v <= |log| {
        SavedGrows(log, log[v - 1].config, RestoredFrom(v), at);
      }
  }

  lemma SavedGrows(log: seq<Version>, c: Config, note: Note, at: int)
    requires Numbered(log) && RestoresFaithful(log)
    requires note.RestoredFrom? ==> 1 <= note.version <= |log| && c == log[note.version - 1].config
    ensures var after := Saved(log, c, note, at); log <= after && Numbered(after) && RestoresFaithful(after)
  {
    var after := Saved(log, c, note, at);
    assert forall i :: 0 <= i < |log| ==> after[i] == log[i];
  }

  // ---- the key that must not be lost

  /** What Save's comment promises to keep: an empty key means the one there was. */
  function PromisedKey(log: seq<Version>, c: Config): string {
    if c.apiKey != "" || log == [] then c.apiKey else log[|log| - 1].config.apiKey
  }

  /** Save stores the key it is given, so it keeps that promise exactly when the key is not empty or
      there was none to keep. */
  lemma PromiseKeptIff(log: seq<Version>, c: Config, note: string, at: int)
    ensures (Saved(log, Normalised(c), Words(note), at)[|log|].config.apiKey == PromisedKey(log, c))
       <==> (c.apiKey != "" || log == [] || log[|log| - 1].config.apiKey == "")
  {
  }

  /** A new store, a key saved, and then anything saved with an empty one: the key is gone. */
  method KeyIsLost(c: Config) returns (s: Store)
    requires c.apiKey == ""
    ensures fresh(s) && s.ConfigValid() && |s.log| == 3
    ensures s.log[1].config.apiKey == "k" && s.log[2].config.apiKey == "" && PromisedKey(s.log[..2], c) == "k"
  {
    hide Holds, Key, Pow256;
    s := new Store();
    RoomForOne();
    Widths();
    s.Open(Config(DEFAULT_URL, "", ""), 0);
    var _ := s.Save(Config(DEFAULT_URL, "k", ""), "", 1);
    var _ := s.Save(c, "", 2);
  }

  function Recording(log: seq<Revision>, rs: seq<Revision>): seq<Revision>
    decreases |rs|
  {
    if rs == [] then log else Recording(WithRevision(log, rs[0]), rs[1..])
  }

  /** However often a scenario is recorded: no earlier revision changes, neighbours differ, and the
      newest revision has the source recorded last. */
  lemma {:induction false} RecordingKeeps(log: seq<Revision>, rs: seq<Revision>)
    requires Recorded(log)
    ensures log <= Recording(log, rs) && Recorded(Recording(log, rs))
    ensures rs != [] ==>
              Recording(log, rs) != [] && Recording(log, rs)[|Recording(log, rs)| - 1].source == rs[|rs| - 1].source
    ensures |Recording(log, rs)| <= |log| + |rs|
    decreases |rs|
  {
    hide Recorded;
    if rs != [] {
      WithRevisionKeeps(log, rs[0]);
      RecordingKeeps(WithRevision(log, rs[0]), rs[1..]);
    }
  }

  lemma WithRevisionKeeps(log: seq<Revision>, r: Revision)
    requires Recorded(log)
    ensures log <= WithRevision(log, r) && Recorded(WithRevision(log, r))
    ensures WithRevision(log, r) != [] && WithRevision(log, r)[|WithRevision(log, r)| - 1].source == r.source
  {
  }
}
