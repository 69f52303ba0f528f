/**
 Lists of boxes taken apart: what makes them readable, what they tell, and whether
 their writers give up.
 */
module BoxLemmas {
  import opened Bytes
  import opened Wrappers
  import opened BoxTree
  import opened BoxWalk
  import opened ConfigBytes
  import opened HeaderBoxes

  // ---------- trees that can be written and read ----------

  /** The types of the boxes are what the reader expects; sizes and configurations are another matter. */
  predicate WellTyped(b: Box)
    decreases b
  {
    match b
    case Container(kind, cs) => AllWellTyped(cs) && AllPlaced(kind, cs) && (kind == TRAK || kind == ILST ==> cs != [])
    case Full(kind, cs) => AllWellTyped(cs) && AllPlaced(kind, cs)
    case Opaque(kind, p) => !IsSpecial(kind) && MinSize(kind) <= |p|
    case Large(kind, p) => !IsSpecial(kind) && MinSize(kind) <= |p| && |p| + 16 < TWO63
    case Table(t) => 0 < Count(t) <= MAX_ENTRY_COUNT
    case Header(h) =>
      (h.Tref? ==> h.ids != []) && (h.Stsd? && h.config.Aac? ==> |h.config.asc| < TWO32) && (h.Location? ==> |h.value| < 0x1_0000)
  }

  predicate AllWellTyped(bs: seq<Box>)
    decreases bs
  {
    forall b | b in bs :: WellTyped(b)
  }

  /** Boxes the demuxer steps over. */
  predicate Inert(bs: seq<Box>)
  {
    forall i :: 0 <= i < |bs| ==> (bs[i].Opaque? || bs[i].Large?) && WellTyped(bs[i])
  }

  lemma {:induction false} WellTypedBounded(b: Box)
    requires WellTyped(b)
    ensures Bounded(b)
    decreases b
  {
    if b.Container? || b.Full? {
      forall c | c in b.children ensures Bounded(c) {
        WellTypedBounded(c);
      }
    }
  }

  lemma ChildFits(bs: seq<Box>, c: Box)
    requires AllBounded(bs) && c in bs
    ensures |BoxBytes(c)| <= |AllBytes(bs)|
  {
    hide BoxBytes;
    var k :| 0 <= k < |bs| && bs[k] == c;
    AllBytesNext(bs, k);
  }

  lemma {:induction false} ChildNotRefused(bs: seq<Box>, c: Box)
    requires AllBounded(bs) && RefusalAll(bs).None? && c in bs
    ensures Refusal(c).None?
  {
    hide BoxBytes;
    if bs[0] != c { ChildNotRefused(bs[1..], c); }
  }

  /** A well-typed tree that can be written and fits a 32-bit size can be read back. */
  lemma {:induction false} FitsLegible(b: Box)
    requires WellTyped(b) && Bounded(b) && Refusal(b).None?
    requires |BoxBytes(b)| < TWO32
    ensures Legible(b)
    decreases b
  {
    hide BE32, BE64, HeaderContent, Describable;
    if b.Container? || b.Full? {
      forall c | c in b.children ensures Legible(c) {
        ChildFits(b.children, c);
        ChildNotRefused(b.children, c);
        FitsLegible(c);
      }
    }
  }

  lemma WellTypedConcat(a: seq<Box>, b: seq<Box>, parent: u32)
    requires AllWellTyped(a) && AllWellTyped(b) && AllPlaced(parent, a) && AllPlaced(parent, b)
    ensures AllWellTyped(a + b) && AllPlaced(parent, a + b)
  {
    hide WellTyped, WellPlaced;
  }

  lemma WellTypedOne(b: Box, parent: u32)
    requires WellTyped(b) && WellPlaced(parent, b)
    ensures AllWellTyped([b]) && AllPlaced(parent, [b])
  {
  }

  lemma InertPlaced(bs: seq<Box>, parent: u32)
    requires Inert(bs) && parent != ILST
    ensures AllWellTyped(bs) && AllPlaced(parent, bs)
  {
  }

  // ---------- what they tell ----------

  lemma VisitCons(b: Box, bs: seq<Box>, v: Found, s: Spot)
    ensures VisitAll([b] + bs, v, s) ==
            var next := Visit(b, v, s); if next.None? then None else VisitAll(bs, next.value, s)
    ensures VisitAll([b], v, s) == Visit(b, v, s)
  {
    hide Visit;
    assert ([b] + bs)[1..] == bs && [b][1..] == [];
  }

  lemma VisitNone(v: Found, s: Spot)
    ensures VisitAll([], v, s) == Some(v)
  {
  }

  lemma {:induction false} VisitInert(bs: seq<Box>, v: Found, s: Spot)
    requires Inert(bs)
    ensures VisitAll(bs, v, s) == Some(v)
  {
    if bs != [] {
      VisitInert(bs[1..], v, s);
    }
  }

  lemma VisitOpaque(kind: u32, p: seq<byte>, bs: seq<Box>, v: Found, s: Spot)
    ensures VisitAll([Opaque(kind, p)] + bs, v, s) == VisitAll(bs, v, s)
  {
    VisitCons(Opaque(kind, p), bs, v, s);
  }

  lemma VisitContainer(kind: u32, cs: seq<Box>, v: Found, s: Spot)
    requires kind != TRAK && kind != ILST
    ensures Visit(Container(kind, cs), v, s) == VisitAll(cs, v, Inner(s, kind))
  {
  }

  // ---------- whether the writers give up ----------

  lemma NoneConcat(a: seq<Box>, b: seq<Box>)
    requires AllBounded(a) && AllBounded(b)
    ensures AllBounded(a + b) && (RefusalAll(a + b).None? <==> RefusalAll(a).None? && RefusalAll(b).None?)
  {
    hide RefusalAll, BoxBytes, Bounded;
    RefusalAppend(a, b);
  }

  /** Boxes whose writers never give up. */
  predicate Sturdy(bs: seq<Box>)
  {
    AllBounded(bs) && RefusalAll(bs).None?
  }

  lemma {:induction false} InertNotRefused(bs: seq<Box>)
    requires Inert(bs)
    ensures Sturdy(bs)
  {
    hide BoxBytes;
    if bs != [] {
      InertNotRefused(bs[1..]);
      assert AllBounded(bs) && Refusal(bs[0]).None?;
      assert RefusalAll(bs).None?;
    }
  }

  lemma SturdyConcat(a: seq<Box>, b: seq<Box>)
    requires Sturdy(a) && Sturdy(b)
    ensures Sturdy(a + b)
  {
    hide RefusalAll, BoxBytes, Bounded;
    NoneConcat(a, b);
  }

  lemma SturdyNone()
    ensures Sturdy([])
  {
  }

  lemma SturdyOne(b: Box)
    requires Bounded(b) && Refusal(b).None?
    ensures Sturdy([b])
  {
    RefusalOne(b);
  }

  /** A header box other than a sample description. */
  lemma SturdyHeader(h: HeaderBox)
    requires !h.Stsd?
    ensures Bounded(Header(h)) && Refusal(Header(h)).None? && Sturdy([Header(h)])
  {
    SturdyOne(Header(h));
  }

  lemma ContainerRefused(kind: u32, cs: seq<Box>)
    requires AllBounded(cs)
    ensures Bounded(Container(kind, cs)) && (Refusal(Container(kind, cs)).None? <==> RefusalAll(cs).None?)
    ensures Bounded(Full(kind, cs)) && (Refusal(Full(kind, cs)).None? <==> RefusalAll(cs).None?)
  {
  }

  lemma SturdyContainer(kind: u32, cs: seq<Box>)
    requires Sturdy(cs)
    ensures Sturdy([Container(kind, cs)]) && Sturdy([Full(kind, cs)])
  {
    hide BoxBytes, RefusalAll;
    ContainerRefused(kind, cs);
    RefusalOne(Container(kind, cs));
    RefusalOne(Full(kind, cs));
  }

  /** A box in front that is written whole. */
  lemma NotRefusedCons(b: Box, bs: seq<Box>)
    requires Bounded(b) && Refusal(b).None? && AllBounded(bs)
    ensures AllBounded([b] + bs) && (RefusalAll([b] + bs).None? <==> RefusalAll(bs).None?)
  {
    hide RefusalAll, BoxBytes, Bounded, Refusal;
    RefusalOne(b);
    NoneConcat([b], bs);
  }
}
