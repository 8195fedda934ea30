/**
 Drawing a lock snapshot onto a table (internal/engine/data.go, Annotate and what it calls).

 `Annotate` distributes the locks over the view's lists in place. `Goes` says outright which lists
 a lock belongs to, and `Drawn` is the view in which every list holds exactly its locks.
 */
module LockDrawing {
  import opened LockText
  import opened Options
  import opened Text

  datatype Lock = Lock(actor: string, table: string, index: string, lockType: string, mode: string,
                       status: string, lockData: string, explain: string)

  datatype Kind = WholeTable | InsertIntention | Record | Gap | NextKey

  /** One lock as the view shows it. */
  datatype RowLock = RowLock(actor: string, mode: string, status: string, index: string, lockData: string,
                             kind: Kind, explain: string, objectName: string)

  datatype DataRow = DataRow(key: seq<string>, locks: seq<RowLock>, gapLocks: seq<RowLock>)

  datatype Snapshot = Snapshot(at: int, locks: seq<Lock>)

  /** The contents of a table view. */
  datatype View = View(index: string, rows: seq<DataRow>, supremum: seq<RowLock>, unmatched: seq<RowLock>,
                       otherIndex: seq<RowLock>, locksAt: int)

  function IndexOf(s: string, c: char): int {
    if s == "" then -1 else if s[0] == c then 0
    else var i := IndexOf(s[1..], c); if i < 0 then -1 else i + 1
  }

  /** The table a partition belongs to: what is before a '#' that is not the first character. */
  function BaseTable(name: string): string {
    var i := IndexOf(name, '#');
    if 0 < i <= |name| then name[..i] else name
  }

  function KindOf(l: Lock): Kind {
    var mode := Upper(l.mode);
    if EqualFold(l.lockType, "TABLE") then WholeTable
    else if Contains(mode, "INSERT_INTENTION") then InsertIntention
    else if Contains(mode, "REC_NOT_GAP") then Record
    else if Contains(mode, "GAP") then Gap
    else NextKey
  }

  predicate CoversRecord(k: Kind) { k == Record || k == NextKey }

  predicate CoversGap(k: Kind) { k == Gap || k == NextKey || k == InsertIntention }

  function RowLockOf(l: Lock, table: string): RowLock {
    RowLock(l.actor, l.mode, l.status, l.index, l.lockData, KindOf(l), l.explain,
            if EqualFold(l.table, table) then "" else l.table)
  }

  // ---- what names and modes mean

  lemma {:induction false} FirstHash(table: string, rest: string)
    requires '#' !in table
    ensures IndexOf(table, '#') == -1 && IndexOf(table + "#" + rest, '#') == |table|
    decreases |table|
  {
    var name := table + "#" + rest;
    if table == "" {
      assert name[0] == '#';
    } else {
      assert table[0] in table;
      assert name[1..] == table[1..] + "#" + rest;
      FirstHash(table[1..], rest);
    }
  }

  /** A partition belongs to the table its name starts with; any other name is the table's own. */
  lemma PartitionOfTable(table: string, rest: string)
    requires '#' !in table
    ensures BaseTable(table) == table
    ensures BaseTable(table + "#" + rest) == if table == "" then "#" + rest else table
  {
    hide IndexOf;
    FirstHash(table, rest);
    assert (table + "#" + rest)[..|table|] == table;
  }

  /** The flags InnoDB prints after S or X in LOCK_MODE. */
  datatype Flags = NoFlags | GapFlag | RecNotGapFlag | IntentionFlag | GapIntentionFlags

  function ModeText(base: char, f: Flags): string {
    match f
    case NoFlags => [base]
    case GapFlag => [base] + "," + "GAP"
    case RecNotGapFlag => [base] + "," + "REC_NOT_GAP"
    case IntentionFlag => [base] + "," + "INSERT_INTENTION"
    case GapIntentionFlags => [base] + ",GAP," + "INSERT_INTENTION"
  }

  /** Each mode a record lock can be in is read as the kind it is. */
  lemma ModesAreRead(l: Lock, base: char, f: Flags)
    requires l.lockType == "RECORD" && (base == 'S' || base == 'X') && l.mode == ModeText(base, f)
    ensures KindOf(l) == match f
                         case NoFlags => NextKey
                         case GapFlag => Gap
                         case RecNotGapFlag => Record
                         case _ => InsertIntention
  {
    hide Upper, Contains, Lower;
    NotATable();
    CapitalsStay(l.mode);
    TooShortFor(l.mode);
    match f
    case NoFlags =>
    case GapFlag => EndsIn([base] + ",", "GAP");
    case RecNotGapFlag => EndsIn([base] + ",", "REC_NOT_GAP");
    case IntentionFlag => EndsIn([base] + ",", "INSERT_INTENTION");
    case GapIntentionFlags => EndsIn([base] + ",GAP,", "INSERT_INTENTION");
  }

  lemma NotATable()
    ensures !EqualFold("RECORD", "TABLE")
  {
    assert |Lower("RECORD")| != |Lower("TABLE")|;
  }

  lemma CapitalsStay(s: string)
    requires forall c :: c in s ==> !('a' <= c <= 'z')
    ensures Upper(s) == s
  {
    assert forall i :: 0 <= i < |s| ==> s[i] in s;
  }

  lemma EndsIn(head: string, part: string)
    ensures Contains(head + part, part)
  {
    assert FoundAt(head + part, part, |head|);
  }

  lemma TooShortFor(text: string)
    ensures |text| < 16 ==> !Contains(text, "INSERT_INTENTION")
    ensures |text| < 11 ==> !Contains(text, "REC_NOT_GAP")
    ensures |text| < 3 ==> !Contains(text, "GAP")
  {
  }

  // ---- which lists a lock belongs to

  /** What a drawing depends on besides the locks. */
  datatype Sheet = Sheet(table: string, index: string, keys: seq<seq<string>>)

  /** The lists of a view; a row has two. */
  datatype Slot = OtherIndex | Supremum | Unmatched | OnRow(i: nat) | InGap(i: nat)

  predicate Ours(l: Lock, sh: Sheet) {
    EqualFold(BaseTable(l.table), sh.table) && KindOf(l) != WholeTable
  }

  predicate Foreign(index: string, viewIndex: string) {
    index != "" && viewIndex != "" && !EqualFold(index, viewIndex)
  }

  predicate Names(key: seq<string>, lockData: string) { KeyMatches(key, Components(lockData)) }

  predicate IsFirst(keys: seq<seq<string>>, lockData: string, i: nat) {
    i < |keys| && Names(keys[i], lockData) && forall j :: 0 <= j < i ==> !Names(keys[j], lockData)
  }

  predicate Nowhere(keys: seq<seq<string>>, lockData: string) {
    forall j :: 0 <= j < |keys| ==> !Names(keys[j], lockData)
  }

  predicate Goes(l: Lock, sh: Sheet, slot: Slot) {
    && Ours(l, sh)
    && match slot
       case OtherIndex => Foreign(l.index, sh.index)
       case Supremum => !Foreign(l.index, sh.index) && NamesSupremum(l.lockData)
       case Unmatched =>
         !Foreign(l.index, sh.index) && !NamesSupremum(l.lockData) && Nowhere(sh.keys, l.lockData)
       case OnRow(i) =>
         && !Foreign(l.index, sh.index) && !NamesSupremum(l.lockData) && IsFirst(sh.keys, l.lockData, i)
         && CoversRecord(KindOf(l))
       case InGap(i) =>
         && !Foreign(l.index, sh.index) && !NamesSupremum(l.lockData) && IsFirst(sh.keys, l.lockData, i)
         && CoversGap(KindOf(l))
  }

  /** The locks of one list, in the order of the snapshot. */
  function Listed(locks: seq<Lock>, sh: Sheet, slot: Slot): seq<RowLock> {
    if locks == [] then []
    else
      var l := locks[|locks| - 1];
      Listed(locks[..|locks| - 1], sh, slot) + if Goes(l, sh, slot) then [RowLockOf(l, sh.table)] else []
  }

  function KeysOf(rows: seq<DataRow>): seq<seq<string>> {
    seq(|rows|, i requires 0 <= i < |rows| => rows[i].key)
  }

  function SheetOf(v: View, table: string): Sheet { Sheet(table, v.index, KeysOf(v.rows)) }

  /** The view with every list holding exactly its own locks. */
  function Drawn(v: View, table: string, snap: Snapshot): View {
    var sh := SheetOf(v, table);
    View(v.index,
         seq(|v.rows|, i requires 0 <= i < |v.rows| =>
           DataRow(v.rows[i].key, Listed(snap.locks, sh, OnRow(i)), Listed(snap.locks, sh, InGap(i)))),
         Listed(snap.locks, sh, Supremum), Listed(snap.locks, sh, Unmatched), Listed(snap.locks, sh, OtherIndex),
         snap.at)
  }

  // ---- the view as the source has it

  method FindRow(rows: seq<DataRow>, lockIndex: string, viewIndex: string, lockData: string) returns (at: int)
    ensures at < 0 ==> Foreign(lockIndex, viewIndex) || Nowhere(KeysOf(rows), lockData)
    ensures at >= 0 ==> !Foreign(lockIndex, viewIndex) && IsFirst(KeysOf(rows), lockData, at)
  {
    hide Components, KeyMatches, EqualFold;
    if lockIndex != "" && viewIndex != "" && !EqualFold(lockIndex, viewIndex) {
      return -1;
    }
    var want := SplitLockData(lockData);
    if |want| == 0 {
      NothingNamed(KeysOf(rows), lockData);
      return -1;
    }
    for i := 0 to |rows|
      invariant forall j :: 0 <= j < i ==> !Names(KeysOf(rows)[j], lockData)
    {
      var matches := MatchKey(rows[i].key, want);
      if matches {
        return i;
      }
    }
    return -1;
  }

  lemma NothingNamed(keys: seq<seq<string>>, lockData: string)
    requires Components(lockData) == []
    ensures Nowhere(keys, lockData)
  {
    hide Components;
  }

  class TableView {
    const index: string
    var rows: seq<DataRow>
    var supremum: seq<RowLock>
    var unmatched: seq<RowLock>
    var otherIndex: seq<RowLock>
    var locksAt: int

    constructor (index: string, keys: seq<seq<string>>)
      ensures Contents() ==
              View(index, seq(|keys|, i requires 0 <= i < |keys| => DataRow(keys[i], [], [])), [], [], [], 0)
    {
      this.index := index;
      rows := seq(|keys|, i requires 0 <= i < |keys| => DataRow(keys[i], [], []));
      supremum, unmatched, otherIndex, locksAt := [], [], [], 0;
    }

    function Contents(): View
      reads this
    {
      View(index, rows, supremum, unmatched, otherIndex, locksAt)
    }

    /** Draws a snapshot onto this view, in place of whatever was drawn before. */
    method Annotate(table: string, snapshot: Option<Snapshot>)
      modifies this
      ensures Contents() == if snapshot.None? then old(Contents()) else Drawn(old(Contents()), table, snapshot.value)
    {
      hide Goes, Listed, Drawn, AddLock;
      if snapshot.None? {
        return;
      }
      var snap := snapshot.value;
      ghost var sh := SheetOf(Contents(), table);
      locksAt := snap.at;
      supremum, unmatched, otherIndex := [], [], [];
      for i := 0 to |rows|
        invariant KeysOf(rows) == old(KeysOf(rows))
        invariant supremum == unmatched == otherIndex == [] && locksAt == snap.at
        invariant forall j :: 0 <= j < i ==> rows[j].locks == [] && rows[j].gapLocks == []
      {
        rows := rows[i := rows[i].(locks := [], gapLocks := [])];
        assert KeysOf(rows) == old(KeysOf(rows));
      }
      ShowsNothing(Contents(), sh);
      for k := 0 to |snap.locks|
        invariant Shows(Contents(), sh, snap.locks[..k]) && locksAt == snap.at
      {
        ghost var was := Contents();
        DrawLock(table, snap.locks[k]);
        AddLockShows(was, sh, snap.locks[..k], snap.locks[k]);
        assert snap.locks[..k + 1] == snap.locks[..k] + [snap.locks[k]];
      }
      assert snap.locks[..|snap.locks|] == snap.locks;
      ShownIsDrawn(old(Contents()), Contents(), table, snap);
    }

    /** One round of Annotate's loop. */
    method DrawLock(table: string, l: Lock)
      modifies this
      ensures Contents() == AddLock(old(Contents()), SheetOf(old(Contents()), table), l)
    {
      hide Ours, RowLockOf, KindOf, EqualFold, BaseTable, NamesSupremum, IsFirst, Nowhere, CoversGap, CoversRecord;
      ghost var sh := SheetOf(Contents(), table);
      if !EqualFold(BaseTable(l.table), table) || KindOf(l) == WholeTable {
        NotOurs(l, sh);
        return;
      }
      var rl := RowLockOf(l, table);
      OursIs(l, sh);
      if l.index != "" && index != "" && !EqualFold(l.index, index) {
        otherIndex := otherIndex + [rl];
        return;
      }
      if NamesSupremum(l.lockData) {
        supremum := supremum + [rl];
        return;
      }
      var at := FindRow(rows, l.index, index, l.lockData);
      if at < 0 {
        NowhereIsNotFirst(sh.keys, l.lockData);
        unmatched := unmatched + [rl];
        return;
      }
      FirstIsUnique(sh.keys, l.lockData, at);
      if CoversGap(rl.kind) {
        rows := rows[at := rows[at].(gapLocks := rows[at].gapLocks + [rl])];
      }
      if CoversRecord(rl.kind) {
        rows := rows[at := rows[at].(locks := rows[at].locks + [rl])];
      }
    }
  }

  // ---- the loop against the lists

  function AddTo(list: seq<RowLock>, sh: Sheet, slot: Slot, l: Lock): seq<RowLock> {
    if Goes(l, sh, slot) then list + [RowLockOf(l, sh.table)] else list
  }

  function AddToRow(row: DataRow, sh: Sheet, i: nat, l: Lock): DataRow {
    DataRow(row.key, AddTo(row.locks, sh, OnRow(i), l), AddTo(row.gapLocks, sh, InGap(i), l))
  }

  /** The lock added to each list it belongs to. */
  function AddLock(v: View, sh: Sheet, l: Lock): View {
    View(v.index, seq(|v.rows|, i requires 0 <= i < |v.rows| => AddToRow(v.rows[i], sh, i, l)),
         AddTo(v.supremum, sh, Supremum, l), AddTo(v.unmatched, sh, Unmatched, l),
         AddTo(v.otherIndex, sh, OtherIndex, l),
         v.locksAt)
  }

  ghost predicate Shows(v: View, sh: Sheet, locks: seq<Lock>) {
    && v.index == sh.index && KeysOf(v.rows) == sh.keys
    && v.supremum == Listed(locks, sh, Supremum)
    && v.unmatched == Listed(locks, sh, Unmatched)
    && v.otherIndex == Listed(locks, sh, OtherIndex)
    && (forall i: nat :: i < |v.rows| ==>
          v.rows[i].locks == Listed(locks, sh, OnRow(i)) && v.rows[i].gapLocks == Listed(locks, sh, InGap(i)))
  }

  lemma ShowsNothing(v: View, sh: Sheet)
    requires v.index == sh.index && KeysOf(v.rows) == sh.keys
    requires v.supremum == v.unmatched == v.otherIndex == []
    requires forall i :: 0 <= i < |v.rows| ==> v.rows[i].locks == [] && v.rows[i].gapLocks == []
    ensures Shows(v, sh, [])
  {
  }

  lemma ListedSnoc(locks: seq<Lock>, l: Lock, sh: Sheet, slot: Slot)
    ensures Listed(locks + [l], sh, slot) == AddTo(Listed(locks, sh, slot), sh, slot, l)
  {
    hide Goes, RowLockOf;
    assert (locks + [l])[..|locks|] == locks;
  }

  lemma AddLockShows(v: View, sh: Sheet, locks: seq<Lock>, l: Lock)
    requires Shows(v, sh, locks)
    ensures Shows(AddLock(v, sh, l), sh, locks + [l]) && AddLock(v, sh, l).locksAt == v.locksAt
  {
    hide AddTo, Listed, Goes;
    ListedSnoc(locks, l, sh, Supremum);
    ListedSnoc(locks, l, sh, Unmatched);
    ListedSnoc(locks, l, sh, OtherIndex);
    forall i: nat | i < |v.rows|
      ensures Listed(locks + [l], sh, OnRow(i)) == AddTo(v.rows[i].locks, sh, OnRow(i), l)
      ensures Listed(locks + [l], sh, InGap(i)) == AddTo(v.rows[i].gapLocks, sh, InGap(i), l)
    {
      ListedSnoc(locks, l, sh, OnRow(i));
      ListedSnoc(locks, l, sh, InGap(i));
    }
    var t := AddLock(v, sh, l);
    assert KeysOf(t.rows) == KeysOf(v.rows);
  }

  lemma ShownIsDrawn(was: View, v: View, table: string, snap: Snapshot)
    requires Shows(v, SheetOf(was, table), snap.locks) && v.locksAt == snap.at
    ensures v == Drawn(was, table, snap)
  {
    hide Listed;
    var d := Drawn(was, table, snap);
    assert |v.rows| == |KeysOf(v.rows)| == |was.rows|;
    forall i | 0 <= i < |v.rows| ensures v.rows[i] == d.rows[i] {
      assert KeysOf(v.rows)[i] == v.rows[i].key && KeysOf(was.rows)[i] == was.rows[i].key;
    }
    assert v.rows == d.rows;
  }

  lemma NotOurs(l: Lock, sh: Sheet)
    requires !EqualFold(BaseTable(l.table), sh.table) || KindOf(l) == WholeTable
    ensures forall slot :: !Goes(l, sh, slot)
  {
  }

  lemma OursIs(l: Lock, sh: Sheet)
    requires EqualFold(BaseTable(l.table), sh.table) && KindOf(l) != WholeTable
    ensures Ours(l, sh) && RowLockOf(l, sh.table).kind == KindOf(l)
  {
  }

  lemma NowhereIsNotFirst(keys: seq<seq<string>>, lockData: string)
    requires Nowhere(keys, lockData)
    ensures forall i: nat :: !IsFirst(keys, lockData, i)
  {
    hide Names;
  }

  lemma FirstIsUnique(keys: seq<seq<string>>, lockData: string, at: nat)
    requires IsFirst(keys, lockData, at)
    ensures at < |keys| && !Nowhere(keys, lockData) && forall i: nat :: IsFirst(keys, lockData, i) <==> i == at
  {
    hide Names;
  }

  // ---- what a drawing promises

  /** The row a lock is drawn on, in either of the row's lists. */
  predicate Touches(l: Lock, sh: Sheet, i: nat) { Goes(l, sh, OnRow(i)) || Goes(l, sh, InGap(i)) }

  ghost predicate OnSomeRow(l: Lock, sh: Sheet) { exists i: nat :: Touches(l, sh, i) }

  function One(b: bool): nat { if b then 1 else 0 }

  /** A lock of another table, or on a whole table, is drawn nowhere. Every other lock is in exactly
      one place: another index, the supremum, unmatched, or one row. */
  lemma OnePlace(l: Lock, sh: Sheet)
    ensures !Ours(l, sh) ==> forall slot :: !Goes(l, sh, slot)
    ensures Ours(l, sh) ==>
              One(Goes(l, sh, OtherIndex)) + One(Goes(l, sh, Supremum)) + One(Goes(l, sh, Unmatched))
              + (if OnSomeRow(l, sh) then 1 else 0) == 1
    ensures forall i: nat, j: nat :: Touches(l, sh, i) && Touches(l, sh, j) ==> i == j
  {
    hide Ours, Foreign, NamesSupremum, Nowhere, IsFirst;
    forall i: nat, j: nat | Touches(l, sh, i) && Touches(l, sh, j) ensures i == j {
      FirstIsUnique(sh.keys, l.lockData, i);
    }
    if Ours(l, sh) && !Foreign(l.index, sh.index) && !NamesSupremum(l.lockData) {
      RowOrNowhere(l, sh);
    }
  }

  lemma RowOrNowhere(l: Lock, sh: Sheet)
    requires Ours(l, sh) && !Foreign(l.index, sh.index) && !NamesSupremum(l.lockData)
    ensures Nowhere(sh.keys, l.lockData) <==> !OnSomeRow(l, sh)
  {
    hide Foreign, NamesSupremum, Nowhere, IsFirst, KindOf, BaseTable, EqualFold;
    if Nowhere(sh.keys, l.lockData) {
      NowhereIsNotFirst(sh.keys, l.lockData);
    } else {
      var i := FirstRow(sh.keys, l.lockData);
      assert Touches(l, sh, i);
    }
  }

  lemma FirstRow(keys: seq<seq<string>>, lockData: string) returns (i: nat)
    requires !Nowhere(keys, lockData)
    ensures IsFirst(keys, lockData, i)
  {
    hide Names;
    i := 0;
    while !Names(keys[i], lockData)
      invariant i < |keys| && forall j :: 0 <= j < i ==> !Names(keys[j], lockData)
      invariant exists j :: i <= j < |keys| && Names(keys[j], lockData)
      decreases |keys| - i
    {
      i := i + 1;
    }
  }

  /** A lock is drawn somewhere exactly when it is of the view's table or one of its partitions and not
      on the whole table, whatever its mode says. */
  lemma DrawnIff(l: Lock, sh: Sheet)
    ensures (exists slot :: Goes(l, sh, slot)) <==>
              EqualFold(BaseTable(l.table), sh.table) && !EqualFold(l.lockType, "TABLE")
    ensures KindOf(l) == WholeTable <==> EqualFold(l.lockType, "TABLE")
  {
    hide Goes, EqualFold, BaseTable, Contains;
    OnePlace(l, sh);
    if Ours(l, sh) && !Goes(l, sh, OtherIndex) && !Goes(l, sh, Supremum) && !Goes(l, sh, Unmatched) {
      assert OnSomeRow(l, sh);
    }
  }

  /** Which of the lists that is: another index's, the supremum's, or that of the first row whose key
      agrees with the lock data. */
  lemma PlaceIs(l: Lock, sh: Sheet)
    requires EqualFold(BaseTable(l.table), sh.table) && !EqualFold(l.lockType, "TABLE")
    ensures var foreign := l.index != "" && sh.index != "" && !EqualFold(l.index, sh.index);
            var top := Contains(Lower(l.lockData), "supremum");
            && (Goes(l, sh, OtherIndex) <==> foreign)
            && (Goes(l, sh, Supremum) <==> !foreign && top)
            && (Goes(l, sh, Unmatched) <==>
                  && !foreign && !top
                  && forall j :: 0 <= j < |sh.keys| ==> !KeyMatches(sh.keys[j], Components(l.lockData)))
            && (forall i: nat :: Touches(l, sh, i) <==>
                  && !foreign && !top && i < |sh.keys| && KeyMatches(sh.keys[i], Components(l.lockData))
                  && forall j :: 0 <= j < i ==> !KeyMatches(sh.keys[j], Components(l.lockData)))
  {
    hide EqualFold, BaseTable, Contains, KeyMatches, Components;
    assert Ours(l, sh);
    OursCovers(l, sh);
  }

  /** On its row, a lock is in the record list just when it covers the record and in the gap list
      just when it covers the gap, and it covers one of them. */
  lemma RowLists(l: Lock, sh: Sheet, i: nat)
    requires Touches(l, sh, i)
    ensures Goes(l, sh, OnRow(i)) <==> KindOf(l) == Record || KindOf(l) == NextKey
    ensures Goes(l, sh, InGap(i)) <==> KindOf(l) != Record
  {
    hide Foreign, NamesSupremum, IsFirst, BaseTable, EqualFold, Contains;
  }

  // ---- nothing is lost, nothing is invented

  function RowEntries(rows: seq<DataRow>): nat {
    if rows == [] then 0
    else
      var row := rows[|rows| - 1];
      RowEntries(rows[..|rows| - 1]) + |row.locks| + |row.gapLocks|
  }

  function Entries(v: View): nat { |v.supremum| + |v.unmatched| + |v.otherIndex| + RowEntries(v.rows) }

  /** A next-key lock that finds its row is drawn twice, every other lock of this table once. */
  ghost function Share(l: Lock, sh: Sheet): nat {
    if !Ours(l, sh) then 0 else if KindOf(l) == NextKey && OnSomeRow(l, sh) then 2 else 1
  }

  ghost function Shares(locks: seq<Lock>, sh: Sheet): nat {
    if locks == [] then 0 else Shares(locks[..|locks| - 1], sh) + Share(locks[|locks| - 1], sh)
  }

  /** The entries of a drawing are as many as its locks call for. */
  lemma {:induction false} DrawingConserves(v: View, table: string, snap: Snapshot)
    ensures Entries(Drawn(v, table, snap)) == Shares(snap.locks, SheetOf(v, table))
    decreases |snap.locks|
  {
    hide AddLock, Goes, Listed, Share, KeysOf;
    var sh, n := SheetOf(v, table), |snap.locks|;
    if n == 0 {
      NothingDrawn(v, table, snap);
    } else {
      var before := Snapshot(snap.at, snap.locks[..n - 1]);
      var l := snap.locks[n - 1];
      DrawingConserves(v, table, before);
      assert snap.locks == before.locks + [l];
      DrawnShows(v, table, before);
      AddLockShows(Drawn(v, table, before), sh, before.locks, l);
      ShownIsDrawn(v, AddLock(Drawn(v, table, before), sh, l), table, snap);
      SameSheet(v, table, before);
      assert sh.keys == KeysOf(Drawn(v, table, before).rows);
      EntriesGrow(Drawn(v, table, before), sh, l);
    }
  }

  lemma SameSheet(v: View, table: string, snap: Snapshot)
    ensures SheetOf(Drawn(v, table, snap), table) == SheetOf(v, table)
  {
    hide Listed;
    assert KeysOf(Drawn(v, table, snap).rows) == KeysOf(v.rows);
  }

  lemma DrawnShows(v: View, table: string, snap: Snapshot)
    ensures Shows(Drawn(v, table, snap), SheetOf(v, table), snap.locks)
  {
    hide Listed;
    SameSheet(v, table, snap);
  }

  lemma NothingDrawn(v: View, table: string, snap: Snapshot)
    requires snap.locks == []
    ensures Entries(Drawn(v, table, snap)) == 0
  {
    EmptyRows(Drawn(v, table, snap).rows);
  }

  lemma {:induction false} EmptyRows(rows: seq<DataRow>)
    requires forall i :: 0 <= i < |rows| ==> rows[i].locks == [] && rows[i].gapLocks == []
    ensures RowEntries(rows) == 0
    decreases |rows|
  {
    if rows != [] {
      EmptyRows(rows[..|rows| - 1]);
    }
  }

  function RowsWith(rows: seq<DataRow>, sh: Sheet, l: Lock): seq<DataRow> {
    seq(|rows|, i requires 0 <= i < |rows| => AddToRow(rows[i], sh, i, l))
  }

  lemma EntriesGrow(v: View, sh: Sheet, l: Lock)
    requires sh.keys == KeysOf(v.rows)
    ensures Entries(AddLock(v, sh, l)) == Entries(v) + Share(l, sh)
  {
    hide Goes, RowLockOf, RowEntries, AddToRow, Ours, KindOf;
    OnePlace(l, sh);
    assert AddLock(v, sh, l).rows == RowsWith(v.rows, sh, l);
    if i: nat :| Touches(l, sh, i) {
      InRange(l, sh, i);
      RowLists(l, sh, i);
      OneRowGrows(v.rows, sh, l, i);
      TouchedIsOurs(l, sh, i);
    } else {
      NoRowGrows(v.rows, sh, l);
    }
  }

  lemma TouchedIsOurs(l: Lock, sh: Sheet, i: nat)
    requires Touches(l, sh, i)
    ensures Ours(l, sh) && KindOf(l) != WholeTable
  {
  }

  lemma InRange(l: Lock, sh: Sheet, i: nat)
    requires Touches(l, sh, i)
    ensures i < |sh.keys|
  {
    hide Ours, KindOf, NamesSupremum, Names;
  }

  lemma {:induction false} NoRowGrows(rows: seq<DataRow>, sh: Sheet, l: Lock)
    requires forall i: nat :: i < |rows| ==> !Touches(l, sh, i)
    ensures RowEntries(RowsWith(rows, sh, l)) == RowEntries(rows)
    decreases |rows|
  {
    hide Goes, RowLockOf;
    if rows != [] {
      var n := |rows| - 1;
      NoRowGrows(rows[..n], sh, l);
      assert RowsWith(rows, sh, l)[..n] == RowsWith(rows[..n], sh, l);
      assert !Touches(l, sh, n);
    }
  }

  lemma {:induction false} OneRowGrows(rows: seq<DataRow>, sh: Sheet, l: Lock, at: nat)
    requires at < |rows| && forall i: nat :: Touches(l, sh, i) ==> i == at
    ensures RowEntries(RowsWith(rows, sh, l))
         == RowEntries(rows) + One(Goes(l, sh, OnRow(at))) + One(Goes(l, sh, InGap(at)))
    decreases |rows|
  {
    hide Goes, RowLockOf;
    var n := |rows| - 1;
    assert RowsWith(rows, sh, l)[..n] == RowsWith(rows[..n], sh, l);
    if at == n {
      NoRowGrows(rows[..n], sh, l);
    } else {
      OneRowGrows(rows[..n], sh, l, at);
      assert !Touches(l, sh, n);
    }
  }

  // ---- order, and drawing again

  /** The snapshot positions of the locks in one list. */
  function Positions(locks: seq<Lock>, sh: Sheet, slot: Slot): seq<nat> {
    if locks == [] then []
    else
      var k := |locks| - 1;
      Positions(locks[..k], sh, slot) + if Goes(locks[k], sh, slot) then [k] else []
  }

  /** `list` shows the locks at the positions `at`: in order, those that belong, and no others. */
  ghost predicate Picks(locks: seq<Lock>, sh: Sheet, slot: Slot, at: seq<nat>, list: seq<RowLock>) {
    && |at| == |list|
    && (forall j, k :: 0 <= j < k < |at| ==> at[j] < at[k])
    && (forall k: nat :: k in at <==> k < |locks| && Goes(locks[k], sh, slot))
    && (forall j :: 0 <= j < |at| ==> at[j] < |locks| && Pictures(list[j], locks[at[j]], sh.table))
  }

  /** An entry says of its lock everything but the table, and that too if it is only part of the view's. */
  predicate Pictures(rl: RowLock, l: Lock, table: string) {
    && rl.actor == l.actor && rl.mode == l.mode && rl.status == l.status && rl.index == l.index
    && rl.lockData == l.lockData && rl.explain == l.explain && rl.kind == KindOf(l)
    && (EqualFold(l.table, table) ==> rl.objectName == "")
    && (!EqualFold(l.table, table) ==> rl.objectName == l.table)
  }

  lemma EntryPictures(l: Lock, table: string)
    ensures Pictures(RowLockOf(l, table), l, table)
  {
  }

  lemma PicksSnoc(locks: seq<Lock>, l: Lock, sh: Sheet, slot: Slot, at: seq<nat>, list: seq<RowLock>)
    requires Picks(locks, sh, slot, at, list)
    ensures if Goes(l, sh, slot) then Picks(locks + [l], sh, slot, at + [|locks|], list + [RowLockOf(l, sh.table)])
            else Picks(locks + [l], sh, slot, at, list)
  {
    hide Goes, RowLockOf, Pictures;
    EntryPictures(l, sh.table);
    assert forall k: nat :: k in at + [|locks|] <==> k in at || k == |locks|;
  }

  /** A list is the snapshot with the locks that do not belong left out, order kept. */
  lemma {:induction false} ListKeepsOrder(locks: seq<Lock>, sh: Sheet, slot: Slot)
    ensures Picks(locks, sh, slot, Positions(locks, sh, slot), Listed(locks, sh, slot))
    decreases |locks|
  {
    hide Goes, RowLockOf, Picks, Pictures;
    if locks == [] {
      PicksNothing(sh, slot);
    } else {
      var k := |locks| - 1;
      ListKeepsOrder(locks[..k], sh, slot);
      var at, list := Positions(locks[..k], sh, slot), Listed(locks[..k], sh, slot);
      PicksSnoc(locks[..k], locks[k], sh, slot, at, list);
      assert at + [] == at && list + [] == list;
      assert locks[..k] + [locks[k]] == locks;
    }
  }

  lemma PicksNothing(sh: Sheet, slot: Slot)
    ensures Picks([], sh, slot, [], [])
  {
  }

  /** A later drawing leaves nothing of an earlier one; drawing the same snapshot twice changes nothing. */
  lemma RedrawForgets(v: View, table: string, first: Snapshot, second: Snapshot)
    ensures Drawn(Drawn(v, table, first), table, second) == Drawn(v, table, second)
    ensures Drawn(Drawn(v, table, first), table, first) == Drawn(v, table, first)
  {
    hide Listed;
    SameSheet(v, table, first);
  }

  // ---- rows and printed keys

  /** A lock whose data prints a row's key is drawn above the highest key exactly when the data names
      the supremum, and otherwise on that row or an earlier one, never left unmatched; on that row
      exactly when each earlier key differs from the data in a component both have. */
  lemma PrintedKeyIsDrawn(l: Lock, sh: Sheet, i: nat, ts: seq<Token>)
    requires Ours(l, sh) && !Foreign(l.index, sh.index)
    requires i < |sh.keys| && sh.keys[i] != [] && ts != []
    requires PrintsAll(ts, sh.keys[i]) && (forall t :: t in ts ==> WellFormed(t)) && l.lockData == Print(ts)
    ensures Goes(l, sh, Supremum) <==> NamesSupremum(l.lockData)
    ensures OnSomeRow(l, sh) <==> !NamesSupremum(l.lockData)
    ensures !Goes(l, sh, OtherIndex) && !Goes(l, sh, Unmatched)
    ensures !NamesSupremum(l.lockData) ==>
              && (exists j: nat :: j <= i && Touches(l, sh, j))
              && (Touches(l, sh, i) <==> forall j :: 0 <= j < i ==> ToldApart(sh.keys[j], ts))
  {
    hide Ours, Foreign, NamesSupremum, PrintsAll, Components, KeyMatches, Print, CoversRecord, CoversGap, WellFormed,
      ToldApart;
    if !NamesSupremum(l.lockData) {
      RowOfPrintedKey(l, sh, i, ts);
    }
  }

  lemma RowOfPrintedKey(l: Lock, sh: Sheet, i: nat, ts: seq<Token>)
    requires Ours(l, sh) && !Foreign(l.index, sh.index)
    requires i < |sh.keys| && sh.keys[i] != [] && ts != []
    requires PrintsAll(ts, sh.keys[i]) && forall t :: t in ts ==> WellFormed(t)
    requires l.lockData == Print(ts) && !NamesSupremum(l.lockData)
    ensures !Goes(l, sh, Unmatched) && exists j: nat :: j <= i && Touches(l, sh, j)
    ensures Touches(l, sh, i) <==> forall j :: 0 <= j < i ==> ToldApart(sh.keys[j], ts)
  {
    hide Ours, Foreign, NamesSupremum, PrintsAll, Components, KeyMatches, Print, CoversRecord, CoversGap, WellFormed,
      ToldApart;
    PrintedKeyMatches(sh.keys[i], ts);
    assert Names(sh.keys[i], l.lockData);
    OursCovers(l, sh);
    var j := FirstRow(sh.keys, l.lockData);
    assert j <= i && Touches(l, sh, j);
    forall k | 0 <= k < |sh.keys| ensures Names(sh.keys[k], l.lockData) <==> !ToldApart(sh.keys[k], ts) {
      MatchesUnlessToldApart(sh.keys[k], ts);
    }
  }

  lemma OursCovers(l: Lock, sh: Sheet)
    requires Ours(l, sh)
    ensures CoversRecord(KindOf(l)) || CoversGap(KindOf(l))
  {
    hide EqualFold, BaseTable, Contains;
  }

  /** Two rows can both match: the string '0x61' is drawn on the row whose key is a. */
  lemma LookalikeGoesFirst(l: Lock, sh: Sheet)
    requires Ours(l, sh) && !Foreign(l.index, sh.index) && sh.keys == [["a"], ["0x61"]]
    requires l.lockData == Print([Quoted("0x61")])
    ensures Touches(l, sh, 0) && !Touches(l, sh, 1)
  {
    hide Ours, Foreign, NamesSupremum, Components, KeyMatches, CoversRecord, CoversGap;
    HexOfA();
    OursCovers(l, sh);
    assert Names(["a"], l.lockData);
    assert Names(sh.keys[0], l.lockData);
    assert IsFirst(sh.keys, l.lockData, 0);
    assert !IsFirst(sh.keys, l.lockData, 1);
  }

  lemma HexOfA()
    ensures !NamesSupremum(Print([Quoted("0x61")])) && KeyMatches(["a"], Components(Print([Quoted("0x61")])))
  {
    hide NamesSupremum, Components, Print;
    assert WellFormed(Quoted("0x61"));
    SplitUndoesPrint([Quoted("0x61")]);
    TooShort();
    assert Hex("a") == "61" by {
      assert Utf8('a') == [0x61] && HexBytes([0x61]) == "61";
    }
    assert "0x" + Hex("a") == "0x61";
    assert Values([Quoted("0x61")]) == ["0x61"];
  }

  lemma TooShort()
    ensures !NamesSupremum(Print([Quoted("0x61")]))
  {
    DoublePlain("0x61");
    assert |Print([Quoted("0x61")])| == 6;
  }
}
