/** The extension codec is exact in both directions. */
module ExtensionCodec {
  import opened Wrappers
  import opened Bounds
  import opened Decimals
  import opened Json
  import opened JsonRoundTrip
  import opened TimeText
  import opened TimeParsing
  import B64 = Base64
  import opened Extensions

  // ----- The set is a sorted map -----

  lemma LessTrans(a: string, b: string, c: string)
    requires Less(a, b) && Less(b, c)
    ensures Less(a, c)
  {
    LeqTrans(a, b, c);
    LeqTotal(a, b);
  }

  lemma LessTotal(a: string, b: string)
    ensures Less(a, b) || a == b || Less(b, a)
    ensures !(Less(a, b) && Less(b, a))
  {
    LeqTotal(a, b);
  }

  lemma {:induction false} PutHolds(e: Extensions, a: Attribute)
    ensures forall x :: x in Put(e, a) ==> x in e || x == a
  {
    if e != [] && e[0].name != a.name && !Less(a.name, e[0].name) {
      PutHolds(e[1..], a);
    }
  }

  lemma SortedTail(e: Extensions)
    requires Sorted(e) && e != []
    ensures Sorted(e[1..]) && forall x :: x in e[1..] ==> Less(e[0].name, x.name)
  {
  }

  lemma SortedCons(a: Attribute, e: Extensions)
    requires Sorted(e) && forall x :: x in e ==> Less(a.name, x.name)
    ensures Sorted([a] + e)
  {
    var t := [a] + e;
    forall i, j | 0 <= i < j < |t| ensures Less(t[i].name, t[j].name) {
      assert t[j] == e[j - 1] && e[j - 1] in e;
      assert i > 0 ==> t[i] == e[i - 1];
    }
  }

  lemma {:induction false} PutSorted(e: Extensions, a: Attribute)
    requires Sorted(e)
    ensures Sorted(Put(e, a))
  {
    if e == [] {
    } else if e[0].name == a.name {
      SortedTail(e);
      SortedCons(a, e[1..]);
    } else if Less(a.name, e[0].name) {
      SortedTail(e);
      forall x | x in e ensures Less(a.name, x.name) {
        if x != e[0] {
          assert e == [e[0]] + e[1..] && x in e[1..];
          LessTrans(a.name, e[0].name, x.name);
        }
      }
      SortedCons(a, e);
    } else {
      SortedTail(e);
      LessTotal(a.name, e[0].name);
      PutSorted(e[1..], a);
      PutHolds(e[1..], a);
      SortedCons(e[0], Put(e[1..], a));
    }
  }

  lemma {:induction false} PutLast(e: Extensions, a: Attribute)
    requires forall x :: x in e ==> Less(x.name, a.name)
    ensures Put(e, a) == e + [a]
  {
    if e != [] {
      assert e[0] in e;
      LessTotal(e[0].name, a.name);
      PutLast(e[1..], a);
      assert e == [e[0]] + e[1..];
    }
  }

  // ----- Single values -----

  lemma KindReads(k: Kind)
    ensures KindNamed(TypeName(k)) == Some(k)
  {
  }

  lemma TimestampReads(t: nat)
    requires ValidInstant(t)
    ensures DecodeTimestamp(TrimmedText(t)) == Ok(Timestamp(t))
  {
    TrimmedTextReads(t);
  }

  lemma PlainReads(lib: Library, v: ExtensionValue)
    requires ValidValue(lib, v) && !v.Timestamp? && !v.Binary?
    ensures DecodeTyped(lib, KindOf(v), JsonOf(v)) == Ok(v)
  {
  }

  lemma TimestampTyped(lib: Library, s: string, v: ExtensionValue)
    requires DecodeTimestamp(s) == Ok(v)
    ensures DecodeTyped(lib, TimestampKind, Str(s)) == Ok(v)
  {
  }

  lemma BinaryReads(lib: Library, b: seq<Byte>)
    ensures DecodeTyped(lib, BinaryKind, Str(B64.Encode(b))) == Ok(Binary(b))
  {
    B64.DecodeEncode(b);
  }

  lemma TypedReads(lib: Library, v: ExtensionValue)
    requires ValidValue(lib, v)
    ensures DecodeTyped(lib, KindOf(v), JsonOf(v)) == Ok(v)
  {
    if v.Timestamp? {
      TimestampReads(v.at);
      TimestampTyped(lib, TrimmedText(v.at), v);
    } else if v.Binary? {
      BinaryReads(lib, v.bytes);
    } else {
      PlainReads(lib, v);
    }
  }

  lemma TaggedReads(lib: Library, v: ExtensionValue)
    requires ValidValue(lib, v)
    ensures DecodeTagged(lib, Tagged(v)) == Ok(v)
  {
    TypedReads(lib, v);
    KindReads(KindOf(v));
    TaggedFields(TypeName(KindOf(v)), JsonOf(v));
  }

  lemma TaggedFields(typeName: string, v: Json)
    ensures var ms := Member("type", Str(typeName), Member("value", v, NoMembers));
            Count(ms) == 2 && Lookup(ms, "type") == Some(Str(typeName)) && Lookup(ms, "value") == Some(v)
  {
    var ms := Member("value", v, NoMembers);
    assert Count(ms) == 1 && Lookup(ms, "value") == Some(v);
  }

  /** Only valid values are decoded. */
  lemma DecodedValid(lib: Library, tagged: Json)
    requires DecodeTagged(lib, tagged).Ok?
    ensures ValidValue(lib, DecodeTagged(lib, tagged).value)
  {
  }

  // ----- The whole set -----

  lemma {:induction false} HasName(e: Extensions, name: string)
    ensures Has(MembersOf(e), name) <==> exists x :: x in e && x.name == name
  {
    if e != [] {
      HasName(e[1..], name);
      assert e == [e[0]] + e[1..];
      assert e[0] in e;
    }
  }

  lemma PrintableTagged(lib: Library, v: ExtensionValue)
    requires ValidValue(lib, v)
    ensures Printable(Tagged(v))
  {
    var ms := Tagged(v).members;
    assert !Has(ms.rest, "type") && DistinctNames(ms.rest);
    assert Printable(JsonOf(v)) && PrintableMembers(ms.rest.rest);
    assert PrintableMembers(ms.rest);
  }

  lemma {:induction false} SetPrintable(lib: Library, e: Extensions)
    requires Sorted(e) && forall i :: 0 <= i < |e| ==> ValidAttribute(lib, e[i])
    ensures DistinctNames(MembersOf(e)) && PrintableMembers(MembersOf(e))
  {
    if e != [] {
      SortedTail(e);
      SetPrintable(lib, e[1..]);
      HasName(e[1..], e[0].name);
      assert ValidAttribute(lib, e[0]);
      PrintableTagged(lib, e[0].value);
    }
  }

  lemma SortedSplit(a: Extensions, b: Extensions)
    requires Sorted(a + b) && b != []
    ensures forall x :: x in a ==> Less(x.name, b[0].name)
  {
    forall x | x in a ensures Less(x.name, b[0].name) {
      var i :| 0 <= i < |a| && a[i] == x;
      assert (a + b)[i] == x && (a + b)[|a|] == b[0];
    }
  }

  lemma GatheredStep(lib: Library, into: Extensions, a: Attribute, ms: Members)
    requires ValidAttribute(lib, a) && forall x :: x in into ==> Less(x.name, a.name)
    ensures Gathered(lib, into, Member(a.name, Tagged(a.value), ms)) == Gathered(lib, into + [a], ms)
  {
    TaggedReads(lib, a.value);
    PutLast(into, a);
    assert Attribute(a.name, a.value) == a;
  }

  lemma {:induction false} GatheredReads(lib: Library, into: Extensions, e: Extensions)
    requires Sorted(into + e) && forall i :: 0 <= i < |e| ==> ValidAttribute(lib, e[i])
    ensures Gathered(lib, into, MembersOf(e)) == Ok(into + e)
    decreases |e|
  {
    if e == [] {
      assert into + e == into;
    } else {
      SortedSplit(into, e);
      assert ValidAttribute(lib, e[0]);
      GatheredStep(lib, into, e[0], MembersOf(e[1..]));
      assert into + [e[0]] + e[1..] == into + e;
      GatheredReads(lib, into + [e[0]], e[1..]);
    }
  }

  lemma {:induction false} GatheredValid(lib: Library, into: Extensions, ms: Members)
    requires Sorted(into) && (forall i :: 0 <= i < |into| ==> ValidAttribute(lib, into[i])) && Gathered(lib, into, ms).Ok?
    ensures var e := Gathered(lib, into, ms).value;
            Sorted(e) && forall i :: 0 <= i < |e| ==> ValidAttribute(lib, e[i])
    decreases ms
  {
    if ms.Member? {
      var a := Attribute(ms.name, DecodeTagged(lib, ms.value).value);
      DecodedValid(lib, ms.value);
      PutSorted(into, a);
      PutHolds(into, a);
      var next := Put(into, a);
      forall i | 0 <= i < |next| ensures ValidAttribute(lib, next[i]) {
        assert next[i] in next;
      }
      GatheredValid(lib, next, ms.rest);
    }
  }

  /** Every valid set reads back from its canonical text. */
  lemma DecodeEncode(lib: Library, e: Extensions)
    requires ValidExtensions(lib, e)
    ensures Decode(lib, Canonical(e)) == Ok(e)
  {
    SetPrintable(lib, e);
    ParsePrint(Obj(MembersOf(e)));
    assert [] + e == e;
    GatheredReads(lib, [], e);
  }

  /** Every accepted text is the canonical text of the valid set it decodes to. */
  lemma EncodeDecode(lib: Library, s: string)
    requires Decode(lib, s).Ok?
    ensures ValidExtensions(lib, Decode(lib, s).value) && Canonical(Decode(lib, s).value) == s
  {
    GatheredValid(lib, [], Parse(s).value.members);
  }

  /** The accepted texts are exactly the encoder's image, one text per set. */
  lemma AcceptedExactly(lib: Library, s: string, e: Extensions)
    ensures Decode(lib, s) == Ok(e) <==> ValidExtensions(lib, e) && Canonical(e) == s
  {
    if Decode(lib, s) == Ok(e) {
      EncodeDecode(lib, s);
    }
    if ValidExtensions(lib, e) && Canonical(e) == s {
      DecodeEncode(lib, e);
    }
  }

  lemma CanonicalInjective(lib: Library, e: Extensions, f: Extensions)
    requires ValidExtensions(lib, e) && ValidExtensions(lib, f)
    ensures Canonical(e) == Canonical(f) <==> e == f
  {
    DecodeEncode(lib, e);
    DecodeEncode(lib, f);
  }

  // ----- Validity, attribute by attribute -----

  lemma {:induction false} FindIs(e: Extensions, name: string, v: ExtensionValue)
    requires Sorted(e)
    ensures Find(e, name) == Some(v) <==> Attribute(name, v) in e
  {
    if e != [] {
      SortedTail(e);
      FindIs(e[1..], name, v);
      assert e == [e[0]] + e[1..] && e[0] == Attribute(e[0].name, e[0].value);
      LessTotal(e[0].name, e[0].name);
    }
  }

  /** The names an extension may not take. */
  predicate TakenName(n: string) {
    || n == "id" || n == "source" || n == "type" || n == "specversion" || n == "subject" || n == "time" || n == "datacontenttype"
    || n == "dataschema" || n == "data" || n == "data_base64" || n == "partitionkey"
  }

  lemma ReservedAre(n: string)
    ensures n in RESERVED <==> TakenName(n)
  {
    assert RESERVED[0] == "id" && RESERVED[1] == "source" && RESERVED[2] == "type" && RESERVED[3] == "specversion";
    assert RESERVED[4] == "subject" && RESERVED[5] == "time" && RESERVED[6] == "datacontenttype" && RESERVED[7] == "dataschema";
    assert RESERVED[8] == "data" && RESERVED[9] == "data_base64" && RESERVED[10] == "partitionkey";
  }

  predicate NamedWell(n: string) {
    1 <= |n| <= 20 && (forall i :: 0 <= i < |n| ==> 'a' <= n[i] <= 'z' || '0' <= n[i] <= '9') && !TakenName(n)
  }

  predicate TraceWell(lib: Library, a: Attribute) {
    && (a.name == "traceparent" ==> a.value.Text? && lib.traceparent(a.value.s))
    && (a.name == "tracestate" ==> a.value.Text? && lib.tracestate(a.value.s))
  }

  /** A set of well-named attributes in strictly ascending order, with a trace parent beside any trace state. */
  ghost predicate WellFormedSet(lib: Library, e: Extensions) {
    && (forall i, j :: 0 <= i < j < |e| ==> Leq(e[i].name, e[j].name) && e[i].name != e[j].name)
    && (forall a :: a in e ==> NamedWell(a.name) && ValidValue(lib, a.value) && TraceWell(lib, a))
    && ((exists a :: a in e && a.name == "tracestate") ==> exists a :: a in e && a.name == "traceparent")
  }

  lemma TraceIs(lib: Library, e: Extensions)
    requires Sorted(e)
    ensures TraceContext(lib, e) <==>
              && (forall a :: a in e ==> TraceWell(lib, a))
              && ((exists a :: a in e && a.name == "tracestate") ==> exists a :: a in e && a.name == "traceparent")
  {
    forall n, v ensures Find(e, n) == Some(v) <==> Attribute(n, v) in e {
      FindIs(e, n, v);
    }
    forall a | a in e ensures Find(e, a.name) == Some(a.value) {
      assert a == Attribute(a.name, a.value);
    }
    if TraceContext(lib, e) && exists a :: a in e && a.name == "tracestate" {
      assert Attribute("traceparent", Find(e, "traceparent").value) in e;
    }
  }

  lemma AttributesWell(lib: Library, e: Extensions)
    ensures (forall i :: 0 <= i < |e| ==> ValidAttribute(lib, e[i])) <==> forall a :: a in e ==> NamedWell(a.name) && ValidValue(lib, a.value)
  {
    forall a | a in e ensures ValidAttribute(lib, a) <==> NamedWell(a.name) && ValidValue(lib, a.value) {
      ReservedAre(a.name);
    }
    forall i | 0 <= i < |e| ensures e[i] in e {
    }
  }

  lemma SetIs(lib: Library, e: Extensions)
    ensures ValidExtensions(lib, e) <==> WellFormedSet(lib, e)
  {
    AttributesWell(lib, e);
    if Sorted(e) {
      TraceIs(lib, e);
    }
  }

  /** A text is accepted exactly when it is the canonical one of a set well formed attribute by attribute. */
  lemma AcceptedMeans(lib: Library, s: string, e: Extensions)
    ensures Decode(lib, s) == Ok(e) <==> WellFormedSet(lib, e) && s == Canonical(e)
  {
    AcceptedExactly(lib, s, e);
    SetIs(lib, e);
  }
}
