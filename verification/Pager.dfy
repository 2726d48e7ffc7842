/** Reading the whole outbox page by page, from one snapshot. */
module Pager {
  import opened Wrappers
  import opened Bounds
  import opened Selection

  function Position(cursor: Option<int>): int {
    match cursor
    case None => 0
    case Some(r) => r
  }

  /**
   A pager over the row ids of one repeatable-read snapshot.  `readable` says which rows hydrate; a page with an
   unreadable row fails and moves nothing.
   */
  class SnapshotPager {
    const rows: set<int>
    const readable: int -> bool
    var upperBound: Option<int>
    var cursor: Option<int>
    var exhausted: bool

    // Every id returned so far.
    ghost var returned: seq<int>

    /** All the snapshot's rows, ascending. */
    ghost function Whole(): seq<int>
      reads this
    {
      Ids(rows, 1, Position(upperBound) + 1)
    }

    /** The page a call with this limit asks for. */
    ghost function Ahead(limit: nat): seq<int>
      reads this
    {
      First(rows, Position(cursor) + 1, Position(upperBound) + 1, limit)
    }

    ghost predicate Valid()
      reads this
    {
      && (forall r :: r in rows ==> 1 <= r <= Position(upperBound))
      && (upperBound.Some? ==> upperBound.value in rows)
      && 0 <= Position(cursor) <= Position(upperBound)
      && returned == Ids(rows, 1, Position(cursor) + 1)
      && (exhausted ==> returned == Whole())
      && (!exhausted ==> Position(cursor) < Position(upperBound))
    }

    /** The upper bound is the largest row id the snapshot shows. */
    constructor (snapshot: set<int>, end: int, readable: int -> bool)
      requires forall r :: r in snapshot ==> 1 <= r < end
      ensures Valid() && fresh(this) && rows == snapshot && this.readable == readable
      ensures returned == [] && Whole() == Ids(snapshot, 1, end)
      ensures exhausted <==> snapshot == {}
    {
      var all := Ids(snapshot, 1, end);
      IdsAre(snapshot, 1, end);
      this.rows := snapshot;
      this.readable := readable;
      this.upperBound := if all == [] then None else Some(all[|all| - 1]);
      this.cursor := None;
      this.exhausted := all == [];
      this.returned := [];
      new;
      UpperBoundIsMax(snapshot, end);
    }

    static lemma UpperBoundIsMax(snapshot: set<int>, end: int)
      requires forall r :: r in snapshot ==> 1 <= r < end
      ensures var all := Ids(snapshot, 1, end);
              var upper := if all == [] then 0 else all[|all| - 1];
              && (forall r :: r in snapshot ==> 1 <= r <= upper) && (all != [] ==> upper in snapshot)
              && Ids(snapshot, 1, upper + 1) == all && (all == [] <==> snapshot == {})
    {
      var all := Ids(snapshot, 1, end);
      IdsAre(snapshot, 1, end);
      assert forall r :: r in snapshot ==> r in all;
      if all != [] {
        var upper := all[|all| - 1];
        assert upper in all;
        forall r | r in snapshot ensures r <= upper {
          var i :| 0 <= i < |all| && all[i] == r;
        }
        IdsSplit(snapshot, 1, upper + 1, end);
        NothingAbove(snapshot, upper + 1, end);
      }
    }

    static lemma {:induction false} NothingAbove(ok: set<int>, lo: int, hi: int)
      requires forall r :: r in ok ==> r < lo
      ensures Ids(ok, lo, hi) == []
      decreases hi - lo
    {
      if lo < hi {
        NothingAbove(ok, lo + 1, hi);
      }
    }

    /**
     The next page extends what was returned, in order and within the limit.  A pager that is not exhausted
     always moves on, and an exhausted one has returned the whole snapshot.
     */
    method NextPage(limit: nat) returns (page: Result<seq<int>, Unit>)
      requires Valid() && ValidLimit(limit)
      modifies this`cursor, this`exhausted, this`returned
      ensures Valid() && Whole() == old(Whole())
      ensures page.Ok? ==> returned == old(returned) + page.value && |page.value| <= limit
      ensures page.Ok? ==> (page.value == [] <==> old(exhausted))
      ensures page.Ok? ==> forall r :: r in page.value ==> readable(r)
      ensures old(exhausted) ==> unchanged(this)
      // An unreadable row of the very page that was asked for is the only error.
      ensures page.Err? ==> unchanged(this) && !old(exhausted) && exists r :: r in Ahead(limit) && !readable(r)
    {
      if exhausted {
        return Ok([]);
      }
      var lo := Position(cursor) + 1;
      var found := First(rows, lo, Position(upperBound) + 1, limit);
      PageFollows(limit);
      if !(forall i :: 0 <= i < |found| ==> readable(found[i])) {
        ghost var i :| 0 <= i < |found| && !readable(found[i]);
        ghost var bad := found[i];
        assert bad in Ahead(limit) && !readable(bad);
        return Err(Unit);
      }
      returned := returned + found;
      if found != [] {
        cursor := Some(found[|found| - 1]);
        if |found| < limit || cursor == upperBound {
          exhausted := true;
        }
      } else {
        // The empty page that would mark the pager exhausted.
        assert false;
      }
      return Ok(found);
    }

    lemma PageFollows(limit: nat)
      requires Valid() && !exhausted && limit > 0
      ensures var lo := Position(cursor) + 1;
              var found := First(rows, lo, Position(upperBound) + 1, limit);
              && found != []
              && Position(cursor) < found[|found| - 1] <= Position(upperBound)
              && returned + found == Ids(rows, 1, found[|found| - 1] + 1)
              && (|found| < limit ==> returned + found == Whole())
    {
      var lo, hi := Position(cursor) + 1, Position(upperBound) + 1;
      var found := First(rows, lo, hi, limit);
      FirstReaches(rows, lo, hi, limit);
      LastRemains();
      IdsSplit(rows, 1, lo, hi);
      IdsSplit(rows, 1, lo, found[|found| - 1] + 1);
    }

    lemma LastRemains()
      requires Valid() && !exhausted
      ensures Ids(rows, Position(cursor) + 1, Position(upperBound) + 1) != []
    {
      IdsAre(rows, Position(cursor) + 1, Position(upperBound) + 1);
      assert Position(upperBound) in Ids(rows, Position(cursor) + 1, Position(upperBound) + 1);
    }

    lemma AheadIsOfWhole(limit: nat)
      requires Valid()
      ensures forall r :: r in Ahead(limit) ==> r in Whole()
    {
      IdsAre(rows, 1, Position(upperBound) + 1);
      FirstIsFirst(rows, Position(cursor) + 1, Position(upperBound) + 1, limit);
    }

    lemma UnfinishedIsShort()
      requires Valid() && !exhausted
      ensures |returned| < |Whole()|
    {
      IdsSplit(rows, 1, Position(cursor) + 1, Position(upperBound) + 1);
      LastRemains();
    }

    /** Any sequence of limits as long as the snapshot reads all of it, in order and without repetition. */
    method ReadWith(limits: seq<nat>) returns (all: Result<seq<int>, Unit>)
      requires Valid() && returned == [] && forall i :: 0 <= i < |limits| ==> ValidLimit(limits[i])
      requires |Whole()| <= |limits|
      modifies this`cursor, this`exhausted, this`returned
      ensures all.Ok? ==> all.value == old(Whole()) && Ascending(all.value) && exhausted
      ensures all.Ok? ==> forall r :: r in all.value ==> readable(r)
      ensures all.Err? ==> exists r :: r in old(Whole()) && !readable(r)
    {
      all := Ok([]);
      for i := 0 to |limits|
        invariant Valid() && Whole() == old(Whole()) && all == Ok(returned)
        invariant exhausted || i <= |returned|
        invariant forall r :: r in all.value ==> readable(r)
      {
        var page := NextPage(limits[i]);
        if page.Err? {
          AheadIsOfWhole(limits[i]);
          return Err(Unit);
        }
        all := Ok(all.value + page.value);
      }
      if !exhausted {
        UnfinishedIsShort();
      }
      IdsAre(rows, 1, Position(upperBound) + 1);
    }
  }
}
