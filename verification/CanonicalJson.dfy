/** Sorting the members of every object: one tree for all values that differ only in member order. */
module CanonicalJson {
  import opened Wrappers
  import opened Json
  import opened JsonRoundTrip
  import opened Extensions
  import opened ExtensionCodec

  /** Insertion into a map ordered by name. */
  function PutMember(ms: Members, name: string, value: Json): Members {
    match ms
    case NoMembers => Member(name, value, NoMembers)
    case Member(n, v, rest) =>
      if n == name then Member(n, value, rest)
      else if Less(name, n) then Member(name, value, ms)
      else Member(n, v, PutMember(rest, name, value))
  }

  function Canon(v: Json): Json
    decreases v, 1
  {
    match v
    case Arr(items) => Arr(CanonItems(items))
    case Obj(members) => Obj(CanonMembers(members))
    case _ => v
  }

  function CanonItems(items: Items): Items
    decreases items, 0
  {
    if items.NoItems? then NoItems else Item(Canon(items.head), CanonItems(items.tail))
  }

  function CanonMembers(ms: Members): Members
    decreases ms, 1
  {
    SortedInto(NoMembers, ms)
  }

  /** Members are inserted one by one, their values canonicalized. */
  function SortedInto(into: Members, ms: Members): Members
    decreases ms, 0
  {
    if ms.NoMembers? then into else SortedInto(PutMember(into, ms.name, Canon(ms.value)), ms.rest)
  }

  // ----- Equality up to member order -----

  predicate Same(v: Json, w: Json) {
    match (v, w)
    case (Arr(a), Arr(b)) => SameItems(a, b)
    case (Obj(a), Obj(b)) => Count(a) == Count(b) && SameInto(a, b)
    case (Arr(_), _) => false
    case (Obj(_), _) => false
    case _ => v == w
  }

  predicate SameItems(a: Items, b: Items) {
    match (a, b)
    case (NoItems, NoItems) => true
    case (Item(x, s), Item(y, t)) => Same(x, y) && SameItems(s, t)
    case _ => false
  }

  /** Every member of `a` is in `b` under the same name with the same value. */
  predicate SameInto(a: Members, b: Members) {
    a.Member? ==> Lookup(b, a.name).Some? && Same(a.value, Lookup(b, a.name).value) && SameInto(a.rest, b)
  }

  /** Every object has distinct names, as a parsed one does. */
  predicate WellFormed(v: Json) {
    match v
    case Arr(items) => WellFormedItems(items)
    case Obj(members) => DistinctNames(members) && WellFormedMembers(members)
    case _ => true
  }

  predicate WellFormedItems(items: Items) {
    items.Item? ==> WellFormed(items.head) && WellFormedItems(items.tail)
  }

  predicate WellFormedMembers(ms: Members) {
    ms.Member? ==> WellFormed(ms.value) && WellFormedMembers(ms.rest)
  }

  // ----- Members as a finite map -----

  function Names(ms: Members): set<string> {
    if ms.NoMembers? then {} else {ms.name} + Names(ms.rest)
  }

  lemma {:induction false} LookupNames(ms: Members, name: string)
    ensures name in Names(ms) <==> Lookup(ms, name).Some?
    ensures name in Names(ms) <==> Has(ms, name)
  {
    if ms.Member? {
      LookupNames(ms.rest, name);
    }
  }

  lemma {:induction false} NamesCount(ms: Members)
    requires DistinctNames(ms)
    ensures |Names(ms)| == Count(ms)
  {
    if ms.Member? {
      NamesCount(ms.rest);
      LookupNames(ms.rest, ms.name);
    }
  }

  ghost predicate Ordered(ms: Members) {
    ms.Member? ==> Ordered(ms.rest) && forall n :: n in Names(ms.rest) ==> Less(ms.name, n)
  }

  lemma {:induction false} PutNames(ms: Members, name: string, value: Json)
    ensures Names(PutMember(ms, name, value)) == Names(ms) + {name}
  {
    if ms.Member? && ms.name != name && !Less(name, ms.name) {
      PutNames(ms.rest, name, value);
    }
  }

  lemma {:induction false} PutOrdered(ms: Members, name: string, value: Json)
    requires Ordered(ms)
    ensures Ordered(PutMember(ms, name, value))
  {
    if ms.Member? {
      LessTotal(name, ms.name);
      if Less(name, ms.name) {
        forall n | n in Names(ms) ensures Less(name, n) {
          if n != ms.name {
            LessTrans(name, ms.name, n);
          }
        }
      } else if ms.name != name {
        PutOrdered(ms.rest, name, value);
        PutNames(ms.rest, name, value);
      }
    }
  }

  lemma {:induction false} PutLookup(ms: Members, name: string, value: Json, n: string)
    ensures Lookup(PutMember(ms, name, value), n) == if n == name then Some(value) else Lookup(ms, n)
  {
    if ms.Member? && ms.name != name && !Less(name, ms.name) {
      PutLookup(ms.rest, name, value, n);
    }
  }

  /** Ordered members are determined by what they map each name to. */
  lemma {:induction false} OrderedEqual(a: Members, b: Members)
    requires Ordered(a) && Ordered(b) && forall n :: Lookup(a, n) == Lookup(b, n)
    ensures a == b
  {
    if a.NoMembers? {
      var n := if b.Member? then b.name else "";
      assert Lookup(a, n) == Lookup(b, n);
    } else {
      assert Lookup(a, a.name) == Some(a.value);
      assert b.Member?;
      assert Lookup(b, b.name) == Some(b.value);
      HeadsAgree(a, b);
      forall n ensures Lookup(a.rest, n) == Lookup(b.rest, n) {
        LookupNames(a.rest, n);
        LookupNames(b.rest, n);
        assert Lookup(a, n) == Lookup(b, n);
      }
      OrderedEqual(a.rest, b.rest);
    }
  }

  lemma HeadsAgree(a: Members, b: Members)
    requires Ordered(a) && Ordered(b) && a.Member? && b.Member?
    requires Lookup(b, a.name).Some? && Lookup(a, b.name).Some?
    ensures a.name == b.name
  {
    LookupNames(b, a.name);
    LookupNames(a, b.name);
    LessTotal(a.name, b.name);
  }

  // ----- Canonical members -----

  lemma {:induction false} SortedOrdered(into: Members, ms: Members)
    requires Ordered(into)
    ensures Ordered(SortedInto(into, ms))
    decreases ms
  {
    if ms.Member? {
      PutOrdered(into, ms.name, Canon(ms.value));
      SortedOrdered(PutMember(into, ms.name, Canon(ms.value)), ms.rest);
    }
  }

  function CanonOption(v: Option<Json>): Option<Json> {
    match v
    case None => None
    case Some(x) => Some(Canon(x))
  }

  lemma {:induction false} SortedLookup(into: Members, ms: Members, n: string)
    requires DistinctNames(ms)
    ensures Lookup(SortedInto(into, ms), n) == if Lookup(ms, n).Some? then CanonOption(Lookup(ms, n)) else Lookup(into, n)
    decreases ms
  {
    if ms.Member? {
      var next := PutMember(into, ms.name, Canon(ms.value));
      SortedLookup(next, ms.rest, n);
      PutLookup(into, ms.name, Canon(ms.value), n);
      LookupNames(ms.rest, ms.name);
    }
  }

  lemma CanonLookup(ms: Members, n: string)
    requires DistinctNames(ms)
    ensures Lookup(CanonMembers(ms), n) == CanonOption(Lookup(ms, n))
  {
    SortedLookup(NoMembers, ms, n);
  }

  lemma CanonOrdered(ms: Members)
    ensures Ordered(CanonMembers(ms))
  {
    SortedOrdered(NoMembers, ms);
  }

  lemma {:induction false} OrderedDistinct(ms: Members)
    requires Ordered(ms)
    ensures DistinctNames(ms)
  {
    if ms.Member? {
      OrderedDistinct(ms.rest);
      LookupNames(ms.rest, ms.name);
      LessTotal(ms.name, ms.name);
    }
  }

  /** A member's value is below the member list, so inductions may descend into it. */
  lemma {:induction false} LookupIn(ms: Members, n: string)
    requires Lookup(ms, n).Some? && WellFormedMembers(ms)
    ensures Lookup(ms, n).value < ms && WellFormed(Lookup(ms, n).value)
  {
    if ms.name != n {
      LookupIn(ms.rest, n);
    }
  }

  // ----- Idempotence -----

  lemma {:induction false} CanonTwice(v: Json)
    requires WellFormed(v)
    ensures Canon(Canon(v)) == Canon(v)
    decreases v, 1
  {
    match v
    case Arr(items) => CanonItemsTwice(items);
    case Obj(members) => CanonMembersTwice(members);
    case _ =>
  }

  lemma {:induction false} CanonItemsTwice(items: Items)
    requires WellFormedItems(items)
    ensures CanonItems(CanonItems(items)) == CanonItems(items)
    decreases items, 0
  {
    if items.Item? {
      CanonTwice(items.head);
      CanonItemsTwice(items.tail);
    }
  }

  lemma {:induction false} CanonMembersTwice(ms: Members)
    requires DistinctNames(ms) && WellFormedMembers(ms)
    ensures CanonMembers(CanonMembers(ms)) == CanonMembers(ms)
    decreases ms, 0
  {
    var once := CanonMembers(ms);
    CanonOrdered(ms);
    CanonOrdered(once);
    OrderedDistinct(once);
    forall n ensures Lookup(CanonMembers(once), n) == Lookup(once, n) {
      CanonLookup(once, n);
      CanonLookup(ms, n);
      if Lookup(ms, n).Some? {
        LookupIn(ms, n);
        CanonTwice(Lookup(ms, n).value);
      }
    }
    OrderedEqual(CanonMembers(once), once);
  }

  // ----- Canonical form decides equality up to member order -----

  lemma {:induction false} CanonDecides(v: Json, w: Json)
    requires WellFormed(v) && WellFormed(w)
    ensures Canon(v) == Canon(w) <==> Same(v, w)
    decreases v, 1
  {
    match (v, w)
    case (Arr(a), Arr(b)) => ItemsDecide(a, b);
    case (Obj(a), Obj(b)) => MembersDecide(a, b);
    case _ =>
  }

  lemma {:induction false} ItemsDecide(a: Items, b: Items)
    requires WellFormedItems(a) && WellFormedItems(b)
    ensures CanonItems(a) == CanonItems(b) <==> SameItems(a, b)
    decreases a, 0
  {
    if a.Item? && b.Item? {
      CanonDecides(a.head, b.head);
      ItemsDecide(a.tail, b.tail);
    }
  }

  predicate AgreeAt(a: Members, b: Members, n: string) {
    CanonOption(Lookup(a, n)) == CanonOption(Lookup(b, n))
  }

  lemma {:induction false} IntoDecides(a: Members, b: Members)
    requires DistinctNames(a) && WellFormedMembers(a) && WellFormedMembers(b)
    ensures SameInto(a, b) <==> forall n :: n in Names(a) ==> AgreeAt(a, b, n)
    decreases a, 0
  {
    if a.Member? {
      IntoDecides(a.rest, b);
      LookupNames(a.rest, a.name);
      assert forall n :: n in Names(a.rest) ==> (AgreeAt(a, b, n) <==> AgreeAt(a.rest, b, n));
      if Lookup(b, a.name).Some? {
        LookupIn(b, a.name);
        CanonDecides(a.value, Lookup(b, a.name).value);
      }
      assert AgreeAt(a, b, a.name) <==> Lookup(b, a.name).Some? && Same(a.value, Lookup(b, a.name).value);
      assert forall n :: n in Names(a) <==> n == a.name || n in Names(a.rest);
    }
  }

  lemma SubsetOfSameSize(a: set<string>, b: set<string>)
    requires a <= b && |a| == |b|
    ensures a == b
  {
    assert |b - a| == |b| - |a|;
  }

  lemma {:induction false} MembersDecide(a: Members, b: Members)
    requires DistinctNames(a) && WellFormedMembers(a) && DistinctNames(b) && WellFormedMembers(b)
    ensures CanonMembers(a) == CanonMembers(b) <==> Count(a) == Count(b) && SameInto(a, b)
    decreases a, 1
  {
    IntoDecides(a, b);
    NamesCount(a);
    NamesCount(b);
    if Count(a) == Count(b) && SameInto(a, b) {
      SameNames(a, b);
      forall n ensures Lookup(CanonMembers(a), n) == Lookup(CanonMembers(b), n) {
        CanonLookup(a, n);
        CanonLookup(b, n);
        LookupNames(a, n);
        LookupNames(b, n);
        assert n in Names(a) ==> AgreeAt(a, b, n);
      }
      CanonOrdered(a);
      CanonOrdered(b);
      OrderedEqual(CanonMembers(a), CanonMembers(b));
    }
    if CanonMembers(a) == CanonMembers(b) {
      forall n ensures AgreeAt(a, b, n) && (n in Names(a) <==> n in Names(b)) {
        CanonLookup(a, n);
        CanonLookup(b, n);
        LookupNames(a, n);
        LookupNames(b, n);
      }
      assert Names(a) == Names(b);
    }
  }

  lemma SameNames(a: Members, b: Members)
    requires forall n :: n in Names(a) ==> AgreeAt(a, b, n)
    requires |Names(a)| == |Names(b)|
    ensures Names(a) == Names(b)
  {
    forall n | n in Names(a) ensures n in Names(b) {
      assert AgreeAt(a, b, n);
      LookupNames(a, n);
      LookupNames(b, n);
    }
    SubsetOfSameSize(Names(a), Names(b));
  }

  // ----- Canonicalization keeps the value -----

  lemma {:induction false} CanonWellFormed(v: Json)
    requires WellFormed(v)
    ensures WellFormed(Canon(v))
    decreases v, 1
  {
    match v
    case Arr(items) => CanonItemsWellFormed(items);
    case Obj(members) =>
      CanonOrdered(members);
      OrderedDistinct(CanonMembers(members));
      SortedWellFormed(NoMembers, members);
    case _ =>
  }

  lemma {:induction false} CanonItemsWellFormed(items: Items)
    requires WellFormedItems(items)
    ensures WellFormedItems(CanonItems(items))
    decreases items, 0
  {
    if items.Item? {
      CanonWellFormed(items.head);
      CanonItemsWellFormed(items.tail);
    }
  }

  lemma {:induction false} PutWellFormed(ms: Members, name: string, value: Json)
    requires WellFormedMembers(ms) && WellFormed(value)
    ensures WellFormedMembers(PutMember(ms, name, value))
  {
    if ms.Member? && ms.name != name && !Less(name, ms.name) {
      PutWellFormed(ms.rest, name, value);
    }
  }

  lemma {:induction false} SortedWellFormed(into: Members, ms: Members)
    requires WellFormedMembers(into) && WellFormedMembers(ms)
    ensures WellFormedMembers(SortedInto(into, ms))
    decreases ms, 0
  {
    if ms.Member? {
      CanonWellFormed(ms.value);
      PutWellFormed(into, ms.name, Canon(ms.value));
      SortedWellFormed(PutMember(into, ms.name, Canon(ms.value)), ms.rest);
    }
  }

  /** The canonical tree is the same JSON value. */
  lemma CanonKeepsValue(v: Json)
    requires WellFormed(v)
    ensures Same(v, Canon(v)) && WellFormed(Canon(v))
  {
    CanonTwice(v);
    CanonWellFormed(v);
    CanonDecides(v, Canon(v));
  }
}
