/** The extension set as it is built, written and read. */
module ExtensionSets {
  import opened Wrappers
  import opened Json
  import opened JsonRoundTrip
  import opened Extensions
  import opened ExtensionCodec

  lemma {:induction false} PutFinds(e: Extensions, a: Attribute, name: string)
    ensures Find(Put(e, a), name) == if name == a.name then Some(a.value) else Find(e, name)
  {
    if e != [] {
      assert ([a] + e[1..])[1..] == e[1..] && ([a] + e)[1..] == e;
      if e[0].name != a.name && !Less(a.name, e[0].name) {
        PutFinds(e[1..], a, name);
        assert ([e[0]] + Put(e[1..], a))[1..] == Put(e[1..], a);
      }
    }
  }

  lemma MembersAppend(e: Extensions, i: nat)
    requires i < |e|
    ensures MembersOf(e[..i + 1]) == Append(MembersOf(e[..i]), Member(e[i].name, Tagged(e[i].value), NoMembers))
    decreases i
  {
    if i == 0 {
      assert e[..1][1..] == [] && e[..0] == [];
    } else {
      MembersAppend(e[1..], i - 1);
      assert e[..i + 1][1..] == e[1..][..i] && e[..i][1..] == e[1..][..i - 1];
    }
  }

  lemma PrefixLacksName(e: Extensions, i: nat)
    requires Sorted(e) && i < |e|
    ensures !Has(MembersOf(e[..i]), e[i].name)
  {
    HasName(e[..i], e[i].name);
  }

  class ExtensionSet {
    var entries: Extensions

    predicate Valid()
      reads this
    {
      Sorted(entries)
    }

    constructor ()
      ensures Valid() && entries == []
    {
      entries := [];
    }

    /** A new name is added in order and nothing else changes; a known name is refused and keeps its value. */
    method InsertAttribute(a: Attribute) returns (inserted: bool)
      requires Valid()
      modifies this
      ensures Valid()
      ensures inserted <==> old(Find(entries, a.name)).None?
      ensures !inserted ==> entries == old(entries)
      ensures inserted ==> forall name :: Find(entries, name) == if name == a.name then Some(a.value) else old(Find(entries, name))
    {
      if Find(entries, a.name).Some? {
        return false;
      }
      PutSorted(entries, a);
      forall name ensures Find(Put(entries, a), name) == if name == a.name then Some(a.value) else Find(entries, name) {
        PutFinds(entries, a, name);
      }
      entries := Put(entries, a);
      return true;
    }

    /** The object is built entry by entry; sorted names never collide, so it prints the canonical text. */
    method CanonicalJson() returns (text: string)
      requires Valid()
      ensures text == Canonical(entries)
    {
      var built := NoMembers;
      for i := 0 to |entries|
        invariant built == MembersOf(entries[..i])
      {
        PrefixLacksName(entries, i);
        InsertNew(built, entries[i].name, Tagged(entries[i].value));
        MembersAppend(entries, i);
        built := Insert(built, entries[i].name, Tagged(entries[i].value));
      }
      assert entries[..|entries|] == entries;
      return Print(Obj(built));
    }
  }

  /** Reads a stored text: parse, decode member by member, check the trace context, compare with the canonical text. */
  method FromCanonicalJson(lib: Library, text: string) returns (r: Result<Extensions, DecodeError>)
    ensures r.Ok? <==> exists e :: ValidExtensions(lib, e) && Canonical(e) == text
    ensures r.Ok? ==> ValidExtensions(lib, r.value) && Canonical(r.value) == text
    ensures r == Decode(lib, text)
  {
    var parsed := Parse(text);
    if parsed.None? {
      r := Err(BadJson);
    } else if !parsed.value.Obj? {
      r := Err(InvalidShape);
    } else {
      r := FromMembers(lib, text, parsed.value.members);
    }
    ghost var result := r;
    forall e ensures ValidExtensions(lib, e) && Canonical(e) == text <==> result == Ok(e) {
      AcceptedExactly(lib, text, e);
    }
  }

  method FromMembers(lib: Library, text: string, members: Members) returns (r: Result<Extensions, DecodeError>)
    ensures r == match Gathered(lib, [], members)
                 case Err(error) => Err(error)
                 case Ok(e) =>
                   if !TraceContext(lib, e) then Err(InvalidExtensions)
                   else if Canonical(e) != text then Err(NonCanonical) else Ok(e)
  {
    var e: Extensions := [];
    var left := members;
    while left.Member?
      invariant Gathered(lib, e, left) == Gathered(lib, [], members)
      decreases left
    {
      if !ValidName(left.name) {
        return Err(InvalidName);
      }
      var v := DecodeTagged(lib, left.value);
      if v.Err? {
        return Err(v.error);
      }
      e := Put(e, Attribute(left.name, v.value));
      left := left.rest;
    }
    if !TraceContext(lib, e) {
      return Err(InvalidExtensions);
    }
    if Canonical(e) != text {
      return Err(NonCanonical);
    }
    return Ok(e);
  }
}
