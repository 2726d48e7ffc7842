/** Ordered candidate selection: the first rows of a set in ascending id order. */
module Selection {
  /** The first `limit` members of `ok` in [lo, hi), ascending. */
  function First(ok: set<int>, lo: int, hi: int, limit: nat): (ids: seq<int>)
    ensures |ids| <= limit
    decreases hi - lo
  {
    if limit == 0 || lo >= hi then []
    else if lo in ok then [lo] + First(ok, lo + 1, hi, limit - 1)
    else First(ok, lo + 1, hi, limit)
  }

  predicate Ascending(ids: seq<int>) {
    forall i, j :: 0 <= i < j < |ids| ==> ids[i] < ids[j]
  }

  /** An ORDER BY id LIMIT query's meaning: nothing selectable was passed over. */
  ghost predicate IsFirst(ids: seq<int>, ok: set<int>, lo: int, hi: int, limit: nat) {
    && |ids| <= limit
    && Ascending(ids)
    && (forall i :: 0 <= i < |ids| ==> ids[i] in ok && lo <= ids[i] < hi)
    && (forall r :: r in ok && lo <= r < hi && r !in ids ==> |ids| == limit && (limit > 0 ==> ids[limit - 1] < r))
  }

  lemma {:induction false} FirstIsFirst(ok: set<int>, lo: int, hi: int, limit: nat)
    ensures IsFirst(First(ok, lo, hi, limit), ok, lo, hi, limit)
    decreases hi - lo
  {
    if limit > 0 && lo < hi {
      if lo in ok {
        FirstIsFirst(ok, lo + 1, hi, limit - 1);
      } else {
        FirstIsFirst(ok, lo + 1, hi, limit);
      }
    }
  }

  lemma FirstHead(ids: seq<int>, ok: set<int>, lo: int, hi: int, limit: nat)
    requires IsFirst(ids, ok, lo, hi, limit) && lo in ok && lo < hi && limit > 0
    ensures ids != [] && ids[0] == lo && IsFirst(ids[1..], ok, lo + 1, hi, limit - 1)
  {
    var rest := ids[1..];
    forall r | r in ok && lo + 1 <= r < hi && r !in rest ensures r !in ids {
      assert ids == [ids[0]] + rest;
    }
  }

  lemma FirstWithin(ids: seq<int>, ok: set<int>, lo: int, hi: int, limit: nat, i: nat)
    requires IsFirst(ids, ok, lo, hi, limit) && i < |ids|
    ensures lo < hi && limit > 0
  {
    assert ids[i] in ok;
  }

  /** The meaning determines the answer. */
  lemma {:induction false} FirstIsUnique(ids: seq<int>, ok: set<int>, lo: int, hi: int, limit: nat)
    requires IsFirst(ids, ok, lo, hi, limit)
    ensures ids == First(ok, lo, hi, limit)
    decreases hi - lo
  {
    if limit == 0 || lo >= hi {
      if |ids| > 0 {
        FirstWithin(ids, ok, lo, hi, limit, 0);
      }
    } else if lo in ok {
      FirstHead(ids, ok, lo, hi, limit);
      FirstIsUnique(ids[1..], ok, lo + 1, hi, limit - 1);
    } else {
      FirstIsUnique(ids, ok, lo + 1, hi, limit);
    }
  }

  /** A scan may stop at any id and resume with what is left of the limit. */
  lemma {:induction false} FirstSplits(ok: set<int>, lo: int, mid: int, hi: int, limit: nat)
    requires lo <= mid <= hi
    ensures First(ok, lo, hi, limit) == First(ok, lo, mid, limit) + First(ok, mid, hi, limit - |First(ok, lo, mid, limit)|)
    decreases mid - lo
  {
    if limit > 0 && lo < mid {
      if lo in ok {
        FirstSplits(ok, lo + 1, mid, hi, limit - 1);
      } else {
        FirstSplits(ok, lo + 1, mid, hi, limit);
      }
    }
  }

  lemma {:induction false} FirstNothing(ok: set<int>, lo: int, hi: int, limit: nat)
    requires forall r :: lo <= r < hi ==> r !in ok
    ensures First(ok, lo, hi, limit) == []
    decreases hi - lo
  {
    if limit > 0 && lo < hi {
      FirstNothing(ok, lo + 1, hi, limit);
    }
  }

  /** The next id adds itself or nothing. */
  lemma FirstExtends(ok: set<int>, lo: int, r: int, limit: nat)
    requires lo <= r && |First(ok, lo, r, limit)| < limit
    ensures First(ok, lo, r + 1, limit) == First(ok, lo, r, limit) + if r in ok then [r] else []
  {
    FirstSplits(ok, lo, r, r + 1, limit);
    assert First(ok, r + 1, r + 1, limit - |First(ok, lo, r, limit)| - 1) == [];
  }

  /** A scan that has filled its limit or has nothing left to see is the whole answer. */
  lemma FirstComplete(ok: set<int>, lo: int, mid: int, hi: int, limit: nat)
    requires lo <= mid <= hi
    requires |First(ok, lo, mid, limit)| == limit || forall q :: mid <= q < hi ==> q !in ok
    ensures First(ok, lo, mid, limit) == First(ok, lo, hi, limit)
  {
    FirstSplits(ok, lo, mid, hi, limit);
    if |First(ok, lo, mid, limit)| < limit {
      FirstNothing(ok, mid, hi, limit - |First(ok, lo, mid, limit)|);
    }
  }

  /** Every member of `ok` in [lo, hi), ascending. */
  function Ids(ok: set<int>, lo: int, hi: int): seq<int>
    decreases hi - lo
  {
    if lo >= hi then [] else (if lo in ok then [lo] else []) + Ids(ok, lo + 1, hi)
  }

  lemma {:induction false} FirstIsPrefix(ok: set<int>, lo: int, hi: int, limit: nat)
    ensures First(ok, lo, hi, limit) == if limit < |Ids(ok, lo, hi)| then Ids(ok, lo, hi)[..limit] else Ids(ok, lo, hi)
    decreases hi - lo
  {
    if limit > 0 && lo < hi {
      FirstIsPrefix(ok, lo + 1, hi, if lo in ok then limit - 1 else limit);
    }
  }

  lemma {:induction false} IdsSplit(ok: set<int>, lo: int, mid: int, hi: int)
    requires lo <= mid <= hi
    ensures Ids(ok, lo, hi) == Ids(ok, lo, mid) + Ids(ok, mid, hi)
    decreases mid - lo
  {
    if lo < mid {
      IdsSplit(ok, lo + 1, mid, hi);
    }
  }

  lemma {:induction false} IdsAre(ok: set<int>, lo: int, hi: int)
    ensures Ascending(Ids(ok, lo, hi))
    ensures forall r :: r in Ids(ok, lo, hi) <==> r in ok && lo <= r < hi
    decreases hi - lo
  {
    if lo < hi {
      IdsAre(ok, lo + 1, hi);
      var rest := Ids(ok, lo + 1, hi);
      assert forall i :: 0 <= i < |rest| ==> rest[i] in rest;
    }
  }

  /** The first `k` ids are all the ids up to the last of them. */
  lemma {:induction false} IdsPrefix(ok: set<int>, lo: int, hi: int, k: nat)
    requires 0 < k <= |Ids(ok, lo, hi)|
    ensures lo <= Ids(ok, lo, hi)[k - 1] < hi
    ensures Ids(ok, lo, hi)[..k] == Ids(ok, lo, Ids(ok, lo, hi)[k - 1] + 1)
    decreases hi - lo
  {
    if lo !in ok {
      IdsPrefix(ok, lo + 1, hi, k);
    } else if k == 1 {
      assert Ids(ok, lo, hi)[..1] == [lo];
      assert Ids(ok, lo + 1, lo + 1) == [];
    } else {
      IdsPrefix(ok, lo + 1, hi, k - 1);
      assert Ids(ok, lo, hi)[..k] == [lo] + Ids(ok, lo + 1, hi)[..k - 1];
    }
  }

  /** A limited query that is cut short stops at its last id; one that is not has returned everything. */
  lemma FirstReaches(ok: set<int>, lo: int, hi: int, limit: nat)
    ensures var page := First(ok, lo, hi, limit);
            && (|page| < limit ==> page == Ids(ok, lo, hi))
            && (limit > 0 ==> (page == [] <==> Ids(ok, lo, hi) == []))
            && (page != [] ==> lo <= page[|page| - 1] < hi && page == Ids(ok, lo, page[|page| - 1] + 1))
  {
    var page := First(ok, lo, hi, limit);
    FirstIsPrefix(ok, lo, hi, limit);
    if page != [] {
      IdsPrefix(ok, lo, hi, |page|);
    }
  }
}
