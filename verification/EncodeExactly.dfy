/** Exactly which object graphs the encoder accepts. */
module EncodeExactly {
  import opened Results
  import opened Values
  import opened Packets
  import opened DecodeLimits
  import opened Linearity

  /** Raw buffers a tree needs. */
  function Buffers(v: Value): nat
    decreases v, 0
  {
    match v
    case VBytes(_) => 1
    case VTensor(_) => 1
    case VList(items) => BuffersAll(items)
    case VTuple(items) => BuffersAll(items)
    case VDict(entries) => BuffersEntries(entries)
    case VCustom(_, fields) => Buffers(fields)
    case _ => 0
  }

  function BuffersAll(vs: seq<Value>): nat
    decreases vs, 0
  {
    if vs == [] then 0 else Buffers(vs[0]) + BuffersAll(vs[1..])
  }

  function BuffersEntry(e: Entry): nat
    decreases e, 1
  {
    Buffers(e.key) + Buffers(e.val)
  }

  function BuffersEntries(es: seq<Entry>): nat
    decreases es, 0
  {
    if es == [] then 0 else BuffersEntry(es[0]) + BuffersEntries(es[1..])
  }

  /** Every instance has a registered class and string-keyed fields. */
  predicate Registered(c: Codec, v: Value) {
    match v
    case VList(items) => forall x | x in items :: Registered(c, x)
    case VTuple(items) => forall x | x in items :: Registered(c, x)
    case VDict(entries) => forall e | e in entries :: Registered(c, e.key) && Registered(c, e.val)
    case VCustom(pyType, fields) => pyType in c.byType && StringFields(fields) && Registered(c, fields)
    case _ => true
  }

  predicate StringFields(fields: Value) {
    fields.VDict? && forall e | e in fields.entries :: e.key.VStr?
  }

  /** The sizes of part of a tree. */
  datatype Need = Need(elements: nat, buffers: nat, bytes: nat, proper: bool)

  const NOTHING := Need(0, 0, 0, true)

  function NeedOf(c: Codec, v: Value): Need {
    Need(Count(v), Buffers(v), |RawOf(v)|, Within(c, v) && Registered(c, v))
  }

  function NeedAll(c: Codec, vs: seq<Value>): Need {
    Need(CountAll(vs), BuffersAll(vs), |RawAll(vs)|, forall v | v in vs :: Within(c, v) && Registered(c, v))
  }

  function NeedEntries(c: Codec, es: seq<Entry>): Need {
    Need(CountEntries(es), BuffersEntries(es), |RawEntries(es)|,
         forall e | e in es :: Within(c, e.key) && Within(c, e.val) && Registered(c, e.key) && Registered(c, e.val))
  }

  /** What is left of the limits covers the need. */
  predicate Affords(c: Codec, st: EncodeState, n: Need) {
    && n.proper
    && st.elements + n.elements <= c.limits.maxContainerElements
    && |st.descriptors| + n.buffers <= c.limits.maxTensorCount
    && st.offset + n.bytes <= c.limits.maxTensorBytes
  }

  predicate Room(c: Codec, st: EncodeState) {
    && st.elements <= c.limits.maxContainerElements
    && |st.descriptors| <= c.limits.maxTensorCount
    && st.offset <= c.limits.maxTensorBytes
  }

  /** Accepted exactly when everything can be read and afforded; the tables
      then grow by exactly the need. */
  ghost predicate Exactly<T>(
    c: Codec, st: EncodeState, readable: bool, n: Need, res: Result<(T, EncodeState)>)
  {
    && (res.Ok? <==> readable && Affords(c, st, n))
    && (res.Ok? ==>
          && res.value.1.elements == st.elements + n.elements
          && |res.value.1.descriptors| == |st.descriptors| + n.buffers
          && res.value.1.offset == st.offset + n.bytes)
  }

  ghost predicate NodeExactly<R>(c: Codec, h: Heap<R>, r: R, depth: nat, st: EncodeState) {
    var v := Unfold(h, r, c.Room(depth));
    Exactly(c, st, v.Some?, if v.Some? then NeedOf(c, v.value) else NOTHING, Walk(c, h, r, depth, st))
  }

  ghost predicate AllExactly<R>(c: Codec, h: Heap<R>, rs: seq<R>, depth: nat, st: EncodeState) {
    var vs := UnfoldAll(h, rs, c.Room(depth));
    Exactly(c, st, vs.Some?, if vs.Some? then NeedAll(c, vs.value) else NOTHING, WalkAll(c, h, rs, depth, st))
  }

  ghost predicate PairsExactly<R>(c: Codec, h: Heap<R>, ps: seq<(R, R)>, depth: nat, st: EncodeState) {
    var es := UnfoldPairs(h, ps, c.Room(depth));
    Exactly(c, st, es.Some?, if es.Some? then NeedEntries(c, es.value) else NOTHING,
            WalkPairs(c, h, ps, depth, st))
  }

  lemma LeafExactly<R>(c: Codec, o: PyObj<R>, st: EncodeState)
    requires IsLeaf(o) && Room(c, st)
    ensures var v := LeafValue(o);
            && (EncodeLeaf(c, o, st).Ok? <==>
                  && v.Some? && Within(c, v.value)
                  && |st.descriptors| + Buffers(v.value) <= c.limits.maxTensorCount
                  && st.offset + |RawOf(v.value)| <= c.limits.maxTensorBytes)
            && (EncodeLeaf(c, o, st).Ok? ==>
                  && Count(v.value) == 1 && Registered(c, v.value)
                  && EncodeLeaf(c, o, st).value.1.elements == st.elements
                  && |EncodeLeaf(c, o, st).value.1.descriptors| == |st.descriptors| + Buffers(v.value)
                  && EncodeLeaf(c, o, st).value.1.offset == st.offset + |RawOf(v.value)|)
            && (v.Some? ==> Count(v.value) == 1 && Registered(c, v.value))
  {
  }

  lemma CountEntriesFront(e: Entry, es: seq<Entry>)
    ensures CountEntries([e] + es) == CountEntry(e) + CountEntries(es)
    decreases |es|
  {
    var all := [e] + es;
    if es != [] {
      CountEntriesFront(e, es[..|es| - 1]);
      assert all[..|all| - 1] == [e] + es[..|es| - 1];
    } else {
      assert all == [e] && all[..0] == [];
    }
  }

  lemma NeedAllFront(c: Codec, v: Value, vs: seq<Value>)
    ensures var a, b, n := NeedOf(c, v), NeedAll(c, vs), NeedAll(c, [v] + vs);
            && n.elements == a.elements + b.elements && n.buffers == a.buffers + b.buffers
            && n.bytes == a.bytes + b.bytes && n.proper == (a.proper && b.proper)
  {
    CountAllFront(v, vs);
    assert ([v] + vs)[1..] == vs;
  }

  lemma NeedEntriesFront(c: Codec, e: Entry, es: seq<Entry>)
    ensures var k, v, b, n := NeedOf(c, e.key), NeedOf(c, e.val), NeedEntries(c, es), NeedEntries(c, [e] + es);
            && n.elements == k.elements + v.elements + b.elements && n.buffers == k.buffers + v.buffers + b.buffers
            && n.bytes == k.bytes + v.bytes + b.bytes && n.proper == (k.proper && v.proper && b.proper)
  {
    CountEntriesFront(e, es);
    var all := [e] + es;
    assert all[0] == e && all[1..] == es;
    assert BuffersEntries(all) == BuffersEntry(e) + BuffersEntries(es);
    assert RawEntries(all) == RawEntry(e) + RawEntries(es);
  }

  lemma {:induction false} WalkExactly<R>(c: Codec, h: Heap<R>, r: R, depth: nat, st: EncodeState)
    requires Room(c, st)
    ensures NodeExactly(c, h, r, depth, st)
    decreases c.Room(depth), 0
  {
    hide EncodeLeaf;
    hide Within;
    hide Registered;
    hide RawOf;
    hide Buffers;
    hide NodeExactly;
    hide AllExactly;
    hide PairsExactly;
    var st1 := st.(elements := st.elements + 1);
    var o := h.view(r);
    if depth > c.limits.maxTreeDepth || st.elements + 1 > c.limits.maxContainerElements {
      Refused(c, h, r, depth, st);
    } else if o.OList? || o.OTuple? {
      WalkAllExactly(c, h, o.items, depth + 1, st1);
      SequenceExactly(c, h, r, depth, st);
    } else if o.ODict? {
      WalkPairsExactly(c, h, o.entries, depth + 1, st1);
      DictionaryExactly(c, h, r, depth, st);
    } else if o.OInstance? {
      if o.fields.Some? {
        WalkExactly(c, h, o.fields.value, depth + 1, st1);
      }
      InstanceExactly(c, h, r, depth, st);
    } else {
      LeafNodeExactly(c, h, r, depth, st);
    }
  }

  lemma Refused<R>(c: Codec, h: Heap<R>, r: R, depth: nat, st: EncodeState)
    requires depth > c.limits.maxTreeDepth || st.elements + 1 > c.limits.maxContainerElements
    ensures NodeExactly(c, h, r, depth, st)
  {
    hide Within;
    hide Registered;
    var v := Unfold(h, r, c.Room(depth));
    assert depth <= c.limits.maxTreeDepth && v.Some? ==> Count(v.value) >= 1;
  }

  lemma LeafNodeExactly<R>(c: Codec, h: Heap<R>, r: R, depth: nat, st: EncodeState)
    requires Room(c, st) && IsLeaf(h.view(r))
    requires depth <= c.limits.maxTreeDepth && st.elements + 1 <= c.limits.maxContainerElements
    ensures NodeExactly(c, h, r, depth, st)
  {
    hide EncodeLeaf;
    hide LeafValue;
    hide Within;
    hide Registered;
    hide RawOf;
    hide Buffers;
    hide Count;
    LeafExactly(c, h.view(r), st.(elements := st.elements + 1));
  }

  lemma SequenceExactly<R>(c: Codec, h: Heap<R>, r: R, depth: nat, st: EncodeState)
    requires h.view(r).OList? || h.view(r).OTuple?
    requires depth <= c.limits.maxTreeDepth && st.elements + 1 <= c.limits.maxContainerElements
    requires AllExactly(c, h, h.view(r).items, depth + 1, st.(elements := st.elements + 1))
    ensures NodeExactly(c, h, r, depth, st)
  {
    hide WalkAll;
    hide UnfoldAll;
    hide CountAll;
    hide BuffersAll;
    hide RawAll;
  }

  lemma DictionaryExactly<R>(c: Codec, h: Heap<R>, r: R, depth: nat, st: EncodeState)
    requires h.view(r).ODict?
    requires depth <= c.limits.maxTreeDepth && st.elements + 1 <= c.limits.maxContainerElements
    requires PairsExactly(c, h, h.view(r).entries, depth + 1, st.(elements := st.elements + 1))
    ensures NodeExactly(c, h, r, depth, st)
  {
    hide WalkPairs;
    hide UnfoldPairs;
    hide CountEntries;
    hide BuffersEntries;
    hide RawEntries;
  }

  lemma InstanceExactly<R>(c: Codec, h: Heap<R>, r: R, depth: nat, st: EncodeState)
    requires h.view(r).OInstance?
    requires depth <= c.limits.maxTreeDepth && st.elements + 1 <= c.limits.maxContainerElements
    requires h.view(r).fields.Some? ==>
               NodeExactly(c, h, h.view(r).fields.value, depth + 1, st.(elements := st.elements + 1))
    ensures NodeExactly(c, h, r, depth, st)
  {
    hide StringFields;
    hide StringKeyed;
    var fields := h.view(r).fields;
    if fields.Some? && Unfold(h, fields.value, c.Room(depth + 1)).Some? {
      StringKeyedExactly(h, fields.value, c.Room(depth + 1));
    }
  }

  lemma StringKeyedExactly<R>(h: Heap<R>, fields: R, fuel: nat)
    requires Unfold(h, fields, fuel).Some?
    ensures StringKeyed(h, fields) <==> StringFields(Unfold(h, fields, fuel).value)
  {
    var o := h.view(fields);
    if o.ODict? {
      UnfoldKeys(h, o.entries, fuel - 1);
      var es := UnfoldPairs(h, o.entries, fuel - 1).value;
      assert forall i | 0 <= i < |es| :: es[i] in es;
    }
  }

  lemma {:induction false} UnfoldKeys<R>(h: Heap<R>, ps: seq<(R, R)>, fuel: nat)
    requires UnfoldPairs(h, ps, fuel).Some?
    ensures var es := UnfoldPairs(h, ps, fuel).value;
            |es| == |ps| && forall i | 0 <= i < |ps| :: es[i].key.VStr? <==> h.view(ps[i].0).OStr?
    decreases |ps|
  {
    if ps != [] {
      UnfoldKeys(h, ps[1..], fuel);
    }
  }

  lemma {:induction false} WalkAllExactly<R>(c: Codec, h: Heap<R>, rs: seq<R>, depth: nat, st: EncodeState)
    requires Room(c, st)
    ensures AllExactly(c, h, rs, depth, st)
    decreases c.Room(depth), 1, |rs|
  {
    hide Walk;
    hide Unfold;
    hide NeedOf;
    if rs != [] {
      hide NeedAll;
      WalkExactly(c, h, rs[0], depth, st);
      var first, rest := Unfold(h, rs[0], c.Room(depth)), UnfoldAll(h, rs[1..], c.Room(depth));
      if first.Some? && rest.Some? {
        NeedAllFront(c, first.value, rest.value);
      }
      var j := Walk(c, h, rs[0], depth, st);
      if j.Ok? {
        WalkAllExactly(c, h, rs[1..], depth, j.value.1);
      }
    }
  }

  lemma {:induction false} WalkPairsExactly<R>(c: Codec, h: Heap<R>, ps: seq<(R, R)>, depth: nat, st: EncodeState)
    requires Room(c, st)
    ensures PairsExactly(c, h, ps, depth, st)
    decreases c.Room(depth), 1, |ps|
  {
    hide Walk;
    hide Unfold;
    hide NeedOf;
    if ps != [] {
      hide NeedEntries;
      WalkExactly(c, h, ps[0].0, depth, st);
      var key, val := Unfold(h, ps[0].0, c.Room(depth)), Unfold(h, ps[0].1, c.Room(depth));
      var rest := UnfoldPairs(h, ps[1..], c.Room(depth));
      if key.Some? && val.Some? && rest.Some? {
        NeedEntriesFront(c, Entry(key.value, val.value), rest.value);
      }
      var k := Walk(c, h, ps[0].0, depth, st);
      if k.Ok? {
        WalkExactly(c, h, ps[0].1, depth, k.value.1);
        var v := Walk(c, h, ps[0].1, depth, k.value.1);
        if v.Ok? {
          WalkPairsExactly(c, h, ps[1..], depth, v.value.1);
        }
      }
    }
  }

  /** The encoder's walk accepts a graph exactly when it is a readable tree
      within the depth limit, every leaf is within its limit, every instance is
      registered with string-keyed fields, and the tree's own counts of
      objects, buffers and bytes are within the limits. Whether `encode` then
      succeeds depends only on the length of the printed metadata. */
  lemma AcceptsExactly<R>(c: Codec, h: Heap<R>, root: R)
    ensures var v := Unfold(h, root, c.limits.maxTreeDepth + 1);
            && (Walk(c, h, root, 0, EMPTY_STATE).Ok? <==>
                  && v.Some? && Within(c, v.value) && Registered(c, v.value)
                  && Count(v.value) <= c.limits.maxContainerElements
                  && Buffers(v.value) <= c.limits.maxTensorCount
                  && |RawOf(v.value)| <= c.limits.maxTensorBytes)
            && (Encode(c, h, root).Ok? <==>
                  && Walk(c, h, root, 0, EMPTY_STATE).Ok?
                  && var (j, st) := Walk(c, h, root, 0, EMPTY_STATE).value;
                     |c.platform.render(Envelope(j, st.descriptors))| <= c.limits.maxMetadataBytes)
  {
    WalkExactly(c, h, root, 0, EMPTY_STATE);
  }
}
