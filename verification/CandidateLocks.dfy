/**
 MySQL's candidate selection: an unlocked window of due ids, then one SKIP LOCKED statement per id, until the limit
 is met or nothing is left.  Other sessions run before every one of these statements, and each reads the clock anew.
 */
module CandidateLocks {
  import opened Wrappers
  import opened DeliveryRows
  import opened Protocol
  import opened ProtocolInvariants
  import opened ProtocolTheorems
  import opened Interference
  import opened Selection
  import opened Outboxes
  import opened Claims

  /**
   One selection.  `env` and `lags` give what other sessions do and how stale the clock is before each statement; a
   `repeatable` transaction keeps reading its windows from the tables its first window saw.
   */
  datatype Scan = Scan(t: nat, scope: Option<string>, limit: nat, env: seq<seq<Step>>, lags: seq<nat>, repeatable: bool)

  // ----- Readings -----

  function MaxLag(lags: seq<nat>): nat {
    if lags == [] then 0 else if lags[0] > MaxLag(lags[1..]) then lags[0] else MaxLag(lags[1..])
  }

  lemma {:induction false} LagWithin(lags: seq<nat>, k: nat)
    ensures Lag(lags, k) <= MaxLag(lags)
  {
    if 0 < k < |lags| {
      LagWithin(lags[1..], k - 1);
    }
  }

  lemma {:induction false} NoLag(lags: seq<nat>)
    requires forall k :: 0 <= k < |lags| ==> lags[k] == 0
    ensures MaxLag(lags) == 0
  {
    if lags != [] {
      NoLag(lags[1..]);
    }
  }

  /** No statement of a selection that starts at `w` reads an earlier instant. */
  function Floor(c: Scan, w: World): int {
    w.db.clock - MaxLag(c.lags)
  }

  // ----- What is held -----

  /** A candidate this transaction holds: still in scope and due at the reading it was locked under. */
  ghost predicate HeldCandidate(v: World, c: Scan, floor: int, r: int)
    requires c.t in v.txns
  {
    var tx := v.txns[c.t];
    && r in tx.locks && r in tx.candidates && 1 <= r && r in v.db.rows
    && InScope(c.scope, v.db.rows[r].row) && Eligible(v.db.rows[r].row, tx.candidates[r])
    && 0 <= tx.candidates[r] && floor <= tx.candidates[r] <= v.db.clock
  }

  /** A transaction that has locked exactly the ascending candidates `ids` and done nothing else. */
  ghost predicate Holding(v: World, c: Scan, floor: int, ids: seq<int>) {
    && c.t in v.txns && Ascending(ids) && |ids| <= c.limit
    && v.txns[c.t] == FRESH.(locks := v.txns[c.t].locks, candidates := v.txns[c.t].candidates)
    && (forall r :: r in v.txns[c.t].locks <==> r in ids)
    && forall r :: r in ids ==> HeldCandidate(v, c, floor, r)
  }

  lemma HoldingKept(v: World, v': World, c: Scan, floor: int, ids: seq<int>)
    requires Holding(v, c, floor, ids) && Kept(v, v', c.t)
    ensures Holding(v', c, floor, ids)
  {
    forall r | r in ids ensures HeldCandidate(v', c, floor, r) {
      assert HeldCandidate(v, c, floor, r) && SameAt(v.db.rows, v'.db.rows, r);
    }
  }

  lemma HoldingMore(v: World, c: Scan, floor: int, ids: seq<int>, r: int, now: int)
    requires Holding(v, c, floor, ids) && |ids| < c.limit && (forall q :: q in ids ==> q < r) && 1 <= r
    requires Reading(v, now) && floor <= now
    requires r in v.db.rows && InScope(c.scope, v.db.rows[r].row) && Eligible(v.db.rows[r].row, now)
    ensures Holding(Acted(v, c.t, Selected(v.txns[c.t], r, now)), c, floor, ids + [r])
  {
    var v' := Acted(v, c.t, Selected(v.txns[c.t], r, now));
    forall q | q in ids + [r] ensures HeldCandidate(v', c, floor, q) {
      assert q != r ==> HeldCandidate(v, c, floor, q);
    }
    forall i, j | 0 <= i < j < |ids + [r]| ensures (ids + [r])[i] < (ids + [r])[j] {
      assert ids[i] in ids;
    }
  }

  // ----- What is not missed -----

  /** Due and free from the start, and named by no other session while the selection runs. */
  ghost predicate Certain(c: Scan, w: World, r: int) {
    && r in w.db.rows && InScope(c.scope, w.db.rows[r].row) && Eligible(w.db.rows[r].row, Floor(c, w)) && Free(w, c.t, r)
    && forall k :: 0 <= k < |c.env| ==> Spares(c.env[k], r)
  }

  ghost predicate Steady(v: World, c: Scan, w: World) {
    forall r :: Certain(c, w, r) ==> 1 <= r < v.db.nextId && SameAt(w.db.rows, v.db.rows, r) && Free(v, c.t, r)
  }

  ghost predicate Visited(c: Scan, w: World, ids: seq<int>, after: int) {
    forall r :: Certain(c, w, r) && r <= after ==> r in ids
  }

  /** No other session acts and no reading lags. */
  predicate Quiet(c: Scan) {
    (forall k :: 0 <= k < |c.env| ==> c.env[k] == []) && (forall k :: 0 <= k < |c.lags| ==> c.lags[k] == 0)
  }

  /** Part way through a selection that started at `w`: every id up to `after` has been visited. */
  ghost predicate Walked(v: World, c: Scan, w: World, ids: seq<int>, after: int, now: int) {
    && Holding(v, c, Floor(c, w), ids) && (forall q :: q in ids ==> q <= after)
    && Steady(v, c, w) && Visited(c, w, ids, after)
    && 0 <= after < v.db.nextId && Reading(v, now) && w.db.clock <= v.db.clock
    && (Quiet(c) ==> v == Acted(w, c.t, v.txns[c.t]))
  }

  lemma WalkStarts(w: World, c: Scan, now: int)
    requires Inv(w) && c.t in w.txns && w.txns[c.t] == FRESH && Reading(w, now)
    ensures Walked(w, c, w, [], 0, now)
  {
    ActedSame(w, c.t);
    forall r | Certain(c, w, r) ensures 1 <= r < w.db.nextId {
    }
  }

  lemma SteadyWaits(v: World, c: Scan, w: World, k: nat)
    requires Inv(v) && Steady(v, c, w) && Others(c.t, Gap(c.env, k))
    ensures Steady(Run(v, Gap(c.env, k)), c, w)
  {
    OthersKeep(v, Gap(c.env, k), c.t);
    forall r | Certain(c, w, r)
      ensures r < Run(v, Gap(c.env, k)).db.nextId && SameAt(w.db.rows, Run(v, Gap(c.env, k)).db.rows, r) && Free(Run(v, Gap(c.env, k)), c.t, r)
    {
      assert SameAt(w.db.rows, v.db.rows, r);
      OthersSpare(v, Gap(c.env, k), c.t, r);
    }
  }

  /** Whatever other sessions do before a statement, the walk so far stands. */
  lemma WalkWaits(v: World, v': World, c: Scan, w: World, k: nat, ids: seq<int>, after: int, now: int)
    requires Inv(v) && Walked(v, c, w, ids, after, now) && Others(c.t, Gap(c.env, k))
    requires v' == Run(v, Gap(c.env, k))
    ensures Walked(v', c, w, ids, after, now) && (k >= |c.env| || Quiet(c) ==> v' == v)
  {
    OthersKeep(v, Gap(c.env, k), c.t);
    HoldingKept(v, v', c, Floor(c, w), ids);
    SteadyWaits(v, c, w, k);
    assert k >= |c.env| || Quiet(c) ==> Gap(c.env, k) == [];
  }

  lemma SteadyLocks(v: World, c: Scan, w: World, tx: Txn)
    requires Steady(v, c, w) && c.t in v.txns
    ensures Steady(Acted(v, c.t, tx), c, w)
  {
    forall r | Certain(c, w, r) ensures Free(Acted(v, c.t, tx), c.t, r) {
      assert Free(v, c.t, r);
    }
  }

  /** The tables after the lock statement on `r`. */
  function LockTried(v: World, c: Scan, r: int, now: int): World
    requires c.t in v.txns
  {
    if r in Selectable(v, c.t, c.scope, now, InstantDue) then Acted(v, c.t, Selected(v.txns[c.t], r, now)) else v
  }

  lemma CertainLocks(v: World, c: Scan, w: World, r: int, now: int)
    requires Steady(v, c, w) && Certain(c, w, r) && Floor(c, w) <= now
    ensures r in Selectable(v, c.t, c.scope, now, InstantDue)
  {
    assert SameAt(w.db.rows, v.db.rows, r);
  }

  /** A certain row is never skipped, so visiting the next id keeps the walk whole. */
  lemma WalkVisits(v: World, c: Scan, w: World, ids: seq<int>, after: int, r: int, now: int)
    requires Walked(v, c, w, ids, after, now) && |ids| < c.limit && Floor(c, w) <= now
    requires after < r < v.db.nextId && forall q :: Certain(c, w, q) ==> q <= after || r <= q
    ensures Walked(LockTried(v, c, r, now), c, w, if r in Selectable(v, c.t, c.scope, now, InstantDue) then ids + [r] else ids, r, now)
  {
    if r in Selectable(v, c.t, c.scope, now, InstantDue) {
      HoldingMore(v, c, Floor(c, w), ids, r, now);
      SteadyLocks(v, c, w, Selected(v.txns[c.t], r, now));
      ActedTwice(w, c.t, v.txns[c.t], Selected(v.txns[c.t], r, now));
    }
    if Certain(c, w, r) {
      CertainLocks(v, c, w, r, now);
    }
  }

  /** Other sessions run, then a statement starts and reads the clock. */
  method Pause(db: Outbox, c: Scan, k: nat, previous: int, ghost ids: seq<int>, ghost after: int, ghost w: World, ghost origin: World)
    returns (now: int)
    requires db.Valid() && db.AdmitsAll(c.t, c.env) && Leads(origin, db.world) && Walked(db.world, c, w, ids, after, previous)
    modifies db
    ensures db.committed == old(db.committed) && db.world == Run(old(db.world), Gap(c.env, k))
    ensures db.Valid() && Leads(origin, db.world) && Walked(db.world, c, w, ids, after, now)
    ensures now == ReadingAfter(previous, db.world.db.clock, Lag(c.lags, k)) && Floor(c, w) <= now
    ensures old(db.world.db.nextId) <= db.world.db.nextId && (k >= |c.env| ==> db.world.db.nextId == old(db.world.db.nextId))
  {
    ghost var before := db.world;
    db.IsReachable();
    ReachableInv(before);
    db.WaitGap(c.t, c.env, k, origin);
    WalkWaits(before, db.world, c, w, k, ids, after, previous);
    now := ReadingAfter(previous, db.world.db.clock, Lag(c.lags, k));
    LagWithin(c.lags, k);
  }

  /** One lock statement, after whatever other sessions did: the row is locked exactly when it is free, in scope and due then. */
  method TryLock(db: Outbox, c: Scan, r: int, k: nat, previous: int, ids: seq<int>, ghost after: int, ghost w: World, ghost origin: World)
    returns (ids': seq<int>, now: int, ghost v: World)
    requires db.Valid() && db.AdmitsAll(c.t, c.env) && Leads(origin, db.world)
    requires Walked(db.world, c, w, ids, after, previous) && |ids| < c.limit
    requires after < r < db.world.db.nextId && forall q :: Certain(c, w, q) ==> q <= after || r <= q
    modifies db
    ensures db.committed == old(db.committed) && v == Run(old(db.world), Gap(c.env, k))
    ensures db.Valid() && Leads(origin, db.world) && Walked(db.world, c, w, ids', r, now)
    ensures now == ReadingAfter(previous, v.db.clock, Lag(c.lags, k))
    ensures c.t in v.txns && db.world == LockTried(v, c, r, now)
    ensures ids' == if r in Selectable(v, c.t, c.scope, now, InstantDue) then ids + [r] else ids
    ensures old(db.world.db.nextId) <= db.world.db.nextId && (k >= |c.env| ==> db.world.db.nextId == old(db.world.db.nextId))
  {
    now := Pause(db, c, k, previous, ids, after, w, origin);
    v := db.world;
    WalkVisits(v, c, w, ids, after, r, now);
    InstantsAreNeverEarly();
    var locked := LockOne(db, c.t, r, c.scope, now, InstantDue, origin);
    ids' := if locked then ids + [r] else ids;
  }

  // ----- Windows -----

  /** The due ids one window query lists from the tables `view`. */
  function WindowAt(view: World, c: Scan, after: int, now: int): seq<int> {
    First(EligibleIds(view, c.scope, now, InstantDue), after + 1, view.db.nextId, c.limit)
  }

  /** No certain row lies outside a window before its end, or after an empty one. */
  ghost predicate Covers(window: seq<int>, c: Scan, w: World, after: int) {
    forall r :: Certain(c, w, r) && after < r && (window != [] ==> r <= window[|window| - 1]) ==> r in window
  }

  lemma WindowCovers(view: World, c: Scan, w: World, after: int, now: int)
    requires Steady(view, c, w) && Floor(c, w) <= now && c.limit > 0
    ensures Covers(WindowAt(view, c, after, now), c, w, after) && Ascending(WindowAt(view, c, after, now))
    ensures forall i :: 0 <= i < |WindowAt(view, c, after, now)| ==> after < WindowAt(view, c, after, now)[i] < view.db.nextId
  {
    var eligible := EligibleIds(view, c.scope, now, InstantDue);
    FirstIsFirst(eligible, after + 1, view.db.nextId, c.limit);
    forall r | Certain(c, w, r) ensures r in eligible {
      assert SameAt(w.db.rows, view.db.rows, r);
    }
  }

  lemma NextInWindow(window: seq<int>, c: Scan, w: World, after0: int, i: nat)
    requires i < |window| && Ascending(window) && Covers(window, c, w, after0)
    requires forall j :: 0 <= j < |window| ==> after0 < window[j]
    ensures forall q :: Certain(c, w, q) ==> q <= (if i == 0 then after0 else window[i - 1]) || window[i] <= q
  {
    forall q | Certain(c, w, q) ensures q <= (if i == 0 then after0 else window[i - 1]) || window[i] <= q {
      if after0 < q < window[i] {
        assert i < |window| - 1 ==> window[i] < window[|window| - 1];
        var j :| 0 <= j < |window| && window[j] == q;
        assert j < i - 1 ==> window[j] < window[i - 1];
      }
    }
  }

  /** The next id of a window. */
  method LockNext(
    db: Outbox, c: Scan, k: nat, previous: int, window: seq<int>, i: nat, ids: seq<int>, ghost after0: int, ghost w: World, ghost origin: World)
    returns (ids': seq<int>, now: int)
    requires db.Valid() && db.AdmitsAll(c.t, c.env) && Leads(origin, db.world) && i < |window| && |ids| < c.limit
    requires Ascending(window) && Covers(window, c, w, after0) && window[i] < db.world.db.nextId
    requires forall j :: 0 <= j < |window| ==> after0 < window[j]
    requires Walked(db.world, c, w, ids, if i == 0 then after0 else window[i - 1], previous)
    modifies db
    ensures db.committed == old(db.committed)
    ensures db.Valid() && Leads(origin, db.world) && Walked(db.world, c, w, ids', window[i], now)
    ensures old(db.world.db.nextId) <= db.world.db.nextId && (k >= |c.env| ==> db.world.db.nextId == old(db.world.db.nextId))
  {
    NextInWindow(window, c, w, after0, i);
    ghost var v;
    ids', now, v := TryLock(db, c, window[i], k, previous, ids, if i == 0 then after0 else window[i - 1], w, origin);
  }

  /** Lock the ids of one window in turn, skipping those that others hold or that are no longer due, until the limit is met. */
  method LockWindow(
    db: Outbox, c: Scan, k0: nat, previous: int, window: seq<int>, ids0: seq<int>, after0: int, ghost w: World, ghost origin: World)
    returns (ids: seq<int>, after: int, k: nat, now: int)
    requires db.Valid() && db.AdmitsAll(c.t, c.env) && Leads(origin, db.world)
    requires Walked(db.world, c, w, ids0, after0, previous) && |ids0| < c.limit
    requires window != [] && Ascending(window) && Covers(window, c, w, after0)
    requires forall i :: 0 <= i < |window| ==> after0 < window[i] < db.world.db.nextId
    modifies db
    ensures db.committed == old(db.committed) && k0 < k && after0 < after
    ensures db.Valid() && Leads(origin, db.world) && Walked(db.world, c, w, ids, after, now)
    ensures old(db.world.db.nextId) <= db.world.db.nextId && (k0 >= |c.env| ==> db.world.db.nextId == old(db.world.db.nextId))
    ensures |ids| == c.limit || after == window[|window| - 1]
  {
    ids, after, k, now := ids0, after0, k0, previous;
    var i := 0;
    while i < |window| && |ids| < c.limit
      invariant db.committed == old(db.committed) && i <= |window| && (i == 0 ==> ids == ids0)
      invariant db.Valid() && Leads(origin, db.world) && Walked(db.world, c, w, ids, after, now)
      invariant after == (if i == 0 then after0 else window[i - 1]) && k == k0 + i
      invariant old(db.world.db.nextId) <= db.world.db.nextId && (k0 >= |c.env| ==> db.world.db.nextId == old(db.world.db.nextId))
    {
      ids, now := LockNext(db, c, k, now, window, i, ids, after0, w, origin);
      after := window[i];
      i, k := i + 1, k + 1;
    }
  }

  /** The window query, after whatever other sessions did; the first one fixes what a repeatable transaction sees. */
  method Window(db: Outbox, c: Scan, k: nat, previous: int, snapshot: Option<World>, ghost ids: seq<int>, after: int, ghost w: World, ghost origin: World)
    returns (window: seq<int>, now: int, snapshot': Option<World>)
    requires db.Valid() && db.AdmitsAll(c.t, c.env) && Leads(origin, db.world) && c.limit > 0
    requires Walked(db.world, c, w, ids, after, previous)
    requires snapshot.Some? ==> Steady(snapshot.value, c, w) && snapshot.value.db.nextId <= db.world.db.nextId
    modifies db
    ensures db.committed == old(db.committed)
    ensures db.Valid() && Leads(origin, db.world) && Walked(db.world, c, w, ids, after, now)
    ensures old(db.world.db.nextId) <= db.world.db.nextId && (k >= |c.env| ==> db.world.db.nextId == old(db.world.db.nextId))
    ensures snapshot' == Some(if c.repeatable && snapshot.Some? then snapshot.value else db.world)
    ensures Steady(snapshot'.value, c, w) && snapshot'.value.db.nextId <= db.world.db.nextId
    ensures window == WindowAt(snapshot'.value, c, after, now) && Ascending(window) && Covers(window, c, w, after)
    ensures forall i :: 0 <= i < |window| ==> after < window[i] < db.world.db.nextId
  {
    now := Pause(db, c, k, previous, ids, after, w, origin);
    var view := if c.repeatable && snapshot.Some? then snapshot.value else db.world;
    snapshot' := Some(view);
    window := WindowAt(view, c, after, now);
    WindowCovers(view, c, w, after, now);
  }

  /**
   The whole loop.  Whatever other sessions do in between, the candidates are ascending, within the limit, all locked
   by this transaction, in scope and due at their own readings, none of which is older than the start by more than the
   largest lag.  A row that is due and free from the start and that nobody else names is among them unless the limit
   was met by smaller ids.  When nobody disturbs it, the loop locks exactly the rows the single query would.
   */
  method LockCandidates(db: Outbox, c: Scan, k0: nat, ghost origin: World) returns (ids: seq<int>, k: nat)
    requires db.Valid() && db.AdmitsAll(c.t, c.env) && Leads(origin, db.world) && c.t in db.world.txns && db.world.txns[c.t] == FRESH
    modifies db
    ensures db.committed == old(db.committed) && k0 <= k
    ensures db.Valid() && Leads(origin, db.world) && Holding(db.world, c, Floor(c, old(db.world)), ids)
    ensures NoneMissed(c, old(db.world), ids)
    ensures Quiet(c) ==> db.world.db == old(db.world.db) && ids == SingleQuery(c, old(db.world))
  {
    ghost var w := db.world;
    db.IsReachable();
    ReachableInv(w);
    WalkStarts(w, c, 0);
    var after, now, done := 0, 0, false;
    var snapshot := None;
    ids, k := [], k0;
    while |ids| < c.limit && !done
      invariant db.committed == old(db.committed) && k0 <= k
      invariant db.Valid() && Leads(origin, db.world) && Walked(db.world, c, w, ids, after, now)
      invariant snapshot.Some? ==> Steady(snapshot.value, c, w) && snapshot.value.db.nextId <= db.world.db.nextId
      invariant done ==> Covers([], c, w, after)
      decreases !done, if k < |c.env| then |c.env| - k else 0, db.world.db.nextId - after
    {
      var window;
      window, now, snapshot := Window(db, c, k, now, snapshot, ids, after, w, origin);
      if window == [] {
        done, k := true, k + 1;
      } else {
        ids, after, k, now := LockWindow(db, c, k + 1, now, window, ids, after, w, origin);
      }
    }
    db.IsReachable();
    ReachableInv(db.world);
    WalkEnds(db.world, c, w, ids, after, now);
  }

  /** The rows one SKIP LOCKED query would return. */
  function SingleQuery(c: Scan, w: World): seq<int> {
    First(Selectable(w, c.t, c.scope, w.db.clock, InstantDue), 1, w.db.nextId, c.limit)
  }

  ghost predicate NoneMissed(c: Scan, w: World, ids: seq<int>) {
    forall r :: Certain(c, w, r) && r !in ids ==> |ids| == c.limit && forall q :: q in ids ==> q < r
  }

  /** Without interference the certain rows are the selectable ones. */
  lemma QuietSelectable(c: Scan, w: World, r: int)
    requires Quiet(c) && r in Selectable(w, c.t, c.scope, w.db.clock, InstantDue)
    ensures Certain(c, w, r)
  {
    NoLag(c.lags);
  }

  lemma QuietHeld(v: World, c: Scan, w: World, ids: seq<int>, r: int)
    requires Quiet(c) && Inv(v) && Inv(w) && c.t in w.txns && Holding(v, c, Floor(c, w), ids) && v == Acted(w, c.t, v.txns[c.t])
    requires r in ids
    ensures r in Selectable(w, c.t, c.scope, w.db.clock, InstantDue) && 1 <= r < w.db.nextId
  {
    NoLag(c.lags);
    assert HeldCandidate(v, c, Floor(c, w), r);
    OwnRowFree(v, c.t, r);
    SelectableSame(w, c.t, v.txns[c.t], c.scope, w.db.clock, InstantDue);
  }

  lemma QuietAnswer(c: Scan, w: World, ids: seq<int>)
    requires Quiet(c) && NoneMissed(c, w, ids) && Ascending(ids) && |ids| <= c.limit
    requires forall r :: r in ids ==> r in Selectable(w, c.t, c.scope, w.db.clock, InstantDue) && 1 <= r < w.db.nextId
    ensures ids == SingleQuery(c, w)
  {
    var ok := Selectable(w, c.t, c.scope, w.db.clock, InstantDue);
    forall i | 0 <= i < |ids| ensures ids[i] in ok && 1 <= ids[i] < w.db.nextId {
      assert ids[i] in ids;
    }
    forall r | r in ok && r !in ids ensures |ids| == c.limit && (c.limit > 0 ==> ids[c.limit - 1] < r) {
      QuietSelectable(c, w, r);
      assert c.limit > 0 ==> ids[c.limit - 1] in ids;
    }
    FirstIsUnique(ids, ok, 1, w.db.nextId, c.limit);
  }

  lemma WalkEnds(v: World, c: Scan, w: World, ids: seq<int>, after: int, now: int)
    requires Inv(v) && Inv(w) && c.t in w.txns && Walked(v, c, w, ids, after, now) && (|ids| >= c.limit || Covers([], c, w, after))
    ensures NoneMissed(c, w, ids)
    ensures Quiet(c) ==> v.db == w.db && ids == SingleQuery(c, w)
  {
    NoneIsMissed(v, c, w, ids, after, now);
    if Quiet(c) {
      forall r | r in ids ensures r in Selectable(w, c.t, c.scope, w.db.clock, InstantDue) && 1 <= r < w.db.nextId {
        QuietHeld(v, c, w, ids, r);
      }
      QuietAnswer(c, w, ids);
    }
  }

  lemma NoneIsMissed(v: World, c: Scan, w: World, ids: seq<int>, after: int, now: int)
    requires Walked(v, c, w, ids, after, now) && (|ids| >= c.limit || Covers([], c, w, after))
    ensures NoneMissed(c, w, ids)
  {
  }
}
