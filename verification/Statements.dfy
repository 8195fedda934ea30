/**
 The statement map against the server. The decoder drops a statement when it is closed; a server
 drops all of them when it grants a COM_RESET_CONNECTION, which the decoder does not take notice of.
 */
module Statements {
  import opened Bytes
  import opened Decoder
  import opened Dialogue
  import opened Exchanges
  import opened Frames
  import opened Options

  /** The server has reset the session. */
  ghost predicate Resets(x: Exchange) { x.request.ResetConnection? && x.cut.None? }

  /** The server has `id`, with `sql`: prepared, and since then neither closed, replaced nor reset. */
  ghost predicate ServerHas(xs: seq<Exchange>, id: nat, sql: bytes) {
    exists j :: 0 <= j < |xs| && Prepares(xs[j], id, sql)
                && forall k :: j < k < |xs| ==> !Touches(xs[k], id) && !Resets(xs[k])
  }

  /** `id` was prepared at j, the session reset at k, and the id not prepared or closed again. */
  ghost predicate Stale(xs: seq<Exchange>, j: nat, k: nat, id: nat, sql: bytes) {
    j < k < |xs| && Prepares(xs[j], id, sql) && Resets(xs[k]) && forall m :: j < m < |xs| ==> !Touches(xs[m], id)
  }

  /** Nothing prepared before a reset is left. */
  ghost predicate NoneStale(xs: seq<Exchange>) {
    forall j: nat, k: nat, id: nat, sql: bytes :: !Stale(xs, j, k, id, sql)
  }

  lemma StaleIsOpen(xs: seq<Exchange>, j: nat, k: nat, id: nat, sql: bytes)
    requires Stale(xs, j, k, id, sql)
    ensures OpenAs(xs, id, sql) && forall other :: !ServerHas(xs, id, other)
  {
    hide Prepares;
    PreparingTouches(xs[j], id, sql);
    forall other ensures !ServerHas(xs, id, other) {
      if i :| 0 <= i < |xs| && Prepares(xs[i], id, other)
              && forall m :: i < m < |xs| ==> !Touches(xs[m], id) && !Resets(xs[m]) {
        PreparingTouches(xs[i], id, other);
      }
    }
  }

  lemma PreparingTouches(x: Exchange, id: nat, sql: bytes)
    requires Prepares(x, id, sql)
    ensures Touches(x, id)
  {
  }

  lemma ServerHasIsOpen(xs: seq<Exchange>, id: nat, sql: bytes)
    requires ServerHas(xs, id, sql)
    ensures OpenAs(xs, id, sql)
  {
    hide Prepares, Touches;
  }

  lemma OpenIsServerHas(xs: seq<Exchange>, id: nat, sql: bytes)
    requires OpenAs(xs, id, sql) && NoneStale(xs)
    ensures ServerHas(xs, id, sql)
  {
    hide Prepares, Touches, Resets;
    var j: nat :| j < |xs| && Prepares(xs[j], id, sql) && forall k :: j < k < |xs| ==> !Touches(xs[k], id);
    forall k: nat | j < k < |xs| ensures !Resets(xs[k]) {
      assert !Stale(xs, j, k, id, sql);
    }
  }

  /** The decoder's map holds exactly what the server has. */
  ghost predicate MapIsRight(stmts: map<nat, bytes>, xs: seq<Exchange>) {
    forall id: nat, sql: bytes :: Agrees(stmts, xs, id, sql)
  }

  ghost predicate Agrees(stmts: map<nat, bytes>, xs: seq<Exchange>, id: nat, sql: bytes) {
    (id in stmts && stmts[id] == sql) <==> ServerHas(xs, id, sql)
  }

  /** Through any well-formed dialogue the map is what the server has, statement by statement, exactly
      when no statement prepared before a granted reset has been left alone since. */
  lemma MapIsRightIff(dep: bool, s: State, xs: seq<Exchange>)
    requires DialogueFits(dep, xs) && s.stmts == map[]
    ensures MapIsRight(AfterAll(dep, s, xs).stmts, xs) <==> NoneStale(xs)
  {
    hide DialogueFits, AfterAll, OpenAs, ServerHas, Stale;
    var stmts := AfterAll(dep, s, xs).stmts;
    if NoneStale(xs) {
      forall id: nat, sql: bytes ensures Agrees(stmts, xs, id, sql) {
        StatementsAreTheOpenOnes(dep, s, xs, id, sql);
        if OpenAs(xs, id, sql) { OpenIsServerHas(xs, id, sql); }
        if ServerHas(xs, id, sql) { ServerHasIsOpen(xs, id, sql); }
      }
    }
    if j: nat, k: nat, id: nat, sql: bytes :| Stale(xs, j, k, id, sql) {
      StaleIsOpen(xs, j, k, id, sql);
      StatementsAreTheOpenOnes(dep, s, xs, id, sql);
      assert !Agrees(stmts, xs, id, sql);
    }
  }

  /** An execute of a stale id is shown with the SQL the server has dropped. */
  lemma StaleIsShown(dep: bool, s: State, xs: seq<Exchange>, j: nat, k: nat, id: nat, sql: bytes, args: bytes)
    requires DialogueFits(dep, xs) && s.stmts == map[] && id < 0x1_0000_0000 && Stale(xs, j, k, id, sql)
    ensures OnCommand(AfterAll(dep, s, xs), 0, RequestBytes(Execute(id, args))).1.query == sql
    ensures forall other :: !ServerHas(xs, id, other)
  {
    hide OnCommand, DialogueFits, AfterAll, ServerHas, Stale;
    StaleIsOpen(xs, j, k, id, sql);
    ExecuteShowsItsSql(dep, s, xs, id, sql, args);
  }

  /** Prepare, reset, execute. */
  lemma ResetIsNotNoticed(dep: bool, s: State, sql: bytes, args: bytes)
    requires s.stmts == map[]
    ensures var xs := PrepareAndReset(sql);
            && DialogueFits(dep, xs) && (forall other :: !ServerHas(xs, 1, other))
            && OnCommand(AfterAll(dep, s, xs), 0, RequestBytes(Execute(1, args))).1.query == sql
  {
    hide OnCommand, AfterAll, ServerHas;
    PrepareAndResetFit(dep, sql);
    StaleIsShown(dep, s, PrepareAndReset(sql), 0, 1, 1, sql, args);
  }

  function PrepareAndReset(sql: bytes): seq<Exchange> {
    [Exchange(Prepare(sql), PrepareReply(Prepared(1, [], EofInfo(0, 2), [], EofInfo(0, 2), 0)), None),
     Exchange(ResetConnection, Single(OkInfo(0, 0, 2, 0, [])), None)]
  }

  lemma PrepareAndResetFit(dep: bool, sql: bytes)
    ensures DialogueFits(dep, PrepareAndReset(sql)) && Stale(PrepareAndReset(sql), 0, 1, 1, sql)
  {
  }
}
