/** What the encoder writes is JSON. */
module Printing {
  import opened Values
  import opened Packets

  lemma LeafPrintable<R>(c: Codec, o: PyObj<R>, st: EncodeState)
    requires IsLeaf(o) && EncodeLeaf(c, o, st).Ok?
    ensures Printable(EncodeLeaf(c, o, st).value.0)
  {
  }

  /** No accepted walk writes an infinity or a NaN. */
  lemma {:induction false} WalkPrintable<R>(c: Codec, h: Heap<R>, r: R, depth: nat, st: EncodeState)
    requires Walk(c, h, r, depth, st).Ok?
    ensures Printable(Walk(c, h, r, depth, st).value.0)
    decreases c.Room(depth), 0
  {
    hide EncodeLeaf;
    hide WalkAll;
    hide WalkPairs;
    hide StringKeyed;
    var st1 := st.(elements := st.elements + 1);
    var o := h.view(r);
    if o.OList? || o.OTuple? {
      WalkAllPrintable(c, h, o.items, depth + 1, st1);
    } else if o.ODict? {
      WalkPairsPrintable(c, h, o.entries, depth + 1, st1);
    } else if o.OInstance? {
      WalkPrintable(c, h, o.fields.value, depth + 1, st1);
    } else {
      LeafPrintable(c, o, st1);
    }
  }

  lemma {:induction false} WalkAllPrintable<R>(c: Codec, h: Heap<R>, rs: seq<R>, depth: nat, st: EncodeState)
    requires WalkAll(c, h, rs, depth, st).Ok?
    ensures forall j | j in WalkAll(c, h, rs, depth, st).value.0 :: Printable(j)
    decreases c.Room(depth), 1, |rs|
  {
    hide Walk;
    hide Printable;
    if rs != [] {
      WalkPrintable(c, h, rs[0], depth, st);
      WalkAllPrintable(c, h, rs[1..], depth, Walk(c, h, rs[0], depth, st).value.1);
    }
  }

  lemma {:induction false} WalkPairsPrintable<R>(c: Codec, h: Heap<R>, ps: seq<(R, R)>, depth: nat, st: EncodeState)
    requires WalkPairs(c, h, ps, depth, st).Ok?
    ensures forall j | j in WalkPairs(c, h, ps, depth, st).value.0 :: Printable(j)
    decreases c.Room(depth), 1, |ps|
  {
    hide Walk;
    if ps != [] {
      WalkPrintable(c, h, ps[0].0, depth, st);
      var (k, st1) := Walk(c, h, ps[0].0, depth, st).value;
      WalkPrintable(c, h, ps[0].1, depth, st1);
      var (v, st2) := Walk(c, h, ps[0].1, depth, st1).value;
      WalkPairsPrintable(c, h, ps[1..], depth, st2);
      PairPrintable(k, v);
      hide Printable;
    }
  }

  lemma PairPrintable(k: Json, v: Json)
    requires Printable(k) && Printable(v)
    ensures Printable(JArray([k, v]))
  {
  }

  lemma DescriptorPrintable(d: Descriptor)
    ensures Printable(DescriptorJson(d))
  {
  }

  lemma TablePrintable(ds: seq<Descriptor>)
    ensures Printable(JArray(TableJson(ds)))
  {
    forall x | x in TableJson(ds)
      ensures Printable(x)
    {
      var i :| 0 <= i < |ds| && TableJson(ds)[i] == x;
      DescriptorPrintable(ds[i]);
    }
  }

  /** The whole envelope of every accepted object graph is JSON. */
  lemma EnvelopePrintable<R>(c: Codec, h: Heap<R>, root: R)
    requires Walk(c, h, root, 0, EMPTY_STATE).Ok?
    ensures var (j, st) := Walk(c, h, root, 0, EMPTY_STATE).value; Printable(Envelope(j, st.descriptors))
  {
    var (j, st) := Walk(c, h, root, 0, EMPTY_STATE).value;
    WalkPrintable(c, h, root, 0, EMPTY_STATE);
    TablePrintable(st.descriptors);
    hide Walk;
    hide DescriptorJson;
  }
}
