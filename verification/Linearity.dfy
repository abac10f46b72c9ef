/** How a packet's tree refers to its raw region. */
module Linearity {
  import opened Results
  import opened Tensors
  import opened Values
  import opened Packets
  import opened RoundTrip
  import opened DecodeLimits

  // ---------- Buffer references of a node, in pre-order ----------

  function Trace(j: Json): seq<(string, int)> {
    if !j.JObject? || "kind" !in j.fields then []
    else
      var kind := j.fields["kind"];
      if kind == JStr("tensor") || kind == JStr("bytes") then
        if "index" in j.fields && j.fields["index"].JInt? then [(kind.s, j.fields["index"].i)] else []
      else if kind == JStr("list") || kind == JStr("tuple") then
        if "items" in j.fields && j.fields["items"].JArray? then TraceAll(j.fields["items"].items) else []
      else if kind == JStr("dict") then
        if "items" in j.fields && j.fields["items"].JArray? then TracePairs(j.fields["items"].items) else []
      else if kind == JStr("custom") then
        if "fields" in j.fields then Trace(j.fields["fields"]) else []
      else []
  }

  function TraceAll(js: seq<Json>): seq<(string, int)> {
    if js == [] then [] else Trace(js[0]) + TraceAll(js[1..])
  }

  function TracePairs(js: seq<Json>): seq<(string, int)> {
    if js == [] then []
    else (if js[0].JArray? then TraceAll(js[0].items) else []) + TracePairs(js[1..])
  }

  function KindName(d: Descriptor): string {
    if d.BytesDescriptor? then "bytes" else "tensor"
  }

  /** One reference to each descriptor from `from` on, in table order. */
  function InOrder(ds: seq<Descriptor>, from: nat): seq<(string, int)>
    requires from <= |ds|
  {
    seq(|ds| - from, k requires 0 <= k < |ds| - from => (KindName(ds[from + k]), from + k))
  }

  lemma InOrderSplit(a: seq<Descriptor>, b: seq<Descriptor>, from: nat)
    requires from <= |a| && a <= b
    ensures InOrder(b, from) == InOrder(a, from) + InOrder(b, |a|)
  {
  }

  lemma LeafTrace<R>(c: Codec, o: PyObj<R>, st: EncodeState)
    requires IsLeaf(o) && EncodeLeaf(c, o, st).Ok?
    ensures var (j, st') := EncodeLeaf(c, o, st).value;
            st.descriptors <= st'.descriptors && Trace(j) == InOrder(st'.descriptors, |st.descriptors|)
  {
    var (j, st') := EncodeLeaf(c, o, st).value;
    if o.OBytes? || o.OTensor? {
      var d := st'.descriptors[|st.descriptors|];
      assert InOrder(st'.descriptors, |st.descriptors|) == [(KindName(d), |st.descriptors|)];
    } else {
      assert st'.descriptors == st.descriptors && Trace(j) == [];
    }
  }

  /** The encoded tree refers to the buffers it added once each, in table
      order, with the matching kind. */
  lemma {:induction false} WalkTrace<R>(c: Codec, h: Heap<R>, r: R, depth: nat, st: EncodeState)
    requires Walk(c, h, r, depth, st).Ok?
    ensures var (j, st') := Walk(c, h, r, depth, st).value;
            st.descriptors <= st'.descriptors && Trace(j) == InOrder(st'.descriptors, |st.descriptors|)
    decreases c.Room(depth), 0
  {
    hide InOrder;
    hide EncodeLeaf;
    hide WalkAll;
    hide WalkPairs;
    hide TraceAll;
    hide TracePairs;
    hide StringKeyed;
    var st1 := st.(elements := st.elements + 1);
    var o := h.view(r);
    if o.OList? || o.OTuple? {
      WalkAllTrace(c, h, o.items, depth + 1, st1);
    } else if o.ODict? {
      WalkPairsTrace(c, h, o.entries, depth + 1, st1);
    } else if o.OInstance? {
      WalkTrace(c, h, o.fields.value, depth + 1, st1);
    } else {
      LeafTrace(c, o, st1);
    }
  }

  lemma {:induction false} WalkAllTrace<R>(c: Codec, h: Heap<R>, rs: seq<R>, depth: nat, st: EncodeState)
    requires WalkAll(c, h, rs, depth, st).Ok?
    ensures var (js, st') := WalkAll(c, h, rs, depth, st).value;
            st.descriptors <= st'.descriptors && TraceAll(js) == InOrder(st'.descriptors, |st.descriptors|)
    decreases c.Room(depth), 1, |rs|
  {
    hide Walk;
    hide Trace;
    if rs != [] {
      WalkTrace(c, h, rs[0], depth, st);
      var st1 := Walk(c, h, rs[0], depth, st).value.1;
      WalkAllTrace(c, h, rs[1..], depth, st1);
      InOrderSplit(st1.descriptors, WalkAll(c, h, rs, depth, st).value.1.descriptors, |st.descriptors|);
    }
  }

  lemma {:induction false} WalkPairsTrace<R>(c: Codec, h: Heap<R>, ps: seq<(R, R)>, depth: nat, st: EncodeState)
    requires WalkPairs(c, h, ps, depth, st).Ok?
    ensures var (js, st') := WalkPairs(c, h, ps, depth, st).value;
            st.descriptors <= st'.descriptors && TracePairs(js) == InOrder(st'.descriptors, |st.descriptors|)
    decreases c.Room(depth), 1, |ps|
  {
    hide Walk;
    hide Trace;
    if ps != [] {
      WalkTrace(c, h, ps[0].0, depth, st);
      var (k, st1) := Walk(c, h, ps[0].0, depth, st).value;
      WalkTrace(c, h, ps[0].1, depth, st1);
      var (v, st2) := Walk(c, h, ps[0].1, depth, st1).value;
      WalkPairsTrace(c, h, ps[1..], depth, st2);
      var ds := WalkPairs(c, h, ps, depth, st).value.1.descriptors;
      InOrderSplit(st1.descriptors, ds, |st.descriptors|);
      InOrderSplit(st2.descriptors, ds, |st1.descriptors|);
      TraceTwo(k, v);
    }
  }

  lemma TraceTwo(k: Json, v: Json)
    ensures TraceAll([k, v]) == Trace(k) + Trace(v)
  {
    hide Trace;
    assert [k, v][1..] == [v] && [v][1..] == [];
    assert TraceAll([v]) == Trace(v) + TraceAll([]);
  }

  /** Every packet the encoder makes: the tree names buffers `0, 1, 2, ...`
      once each in reading order, kinds agree, and the offsets are the running
      sums that end at the reported total. */
  lemma EncoderLinear<R>(c: Codec, h: Heap<R>, root: R)
    requires Encode(c, h, root).Ok?
    ensures var (j, st) := Walk(c, h, root, 0, EMPTY_STATE).value;
            && Encode(c, h, root).value.metadata == c.platform.render(Envelope(j, st.descriptors))
            && Trace(j) == InOrder(st.descriptors, 0)
            && Sound(c, st) && st.offset == Encode(c, h, root).value.totalTensorBytes
  {
    WalkTrace(c, h, root, 0, EMPTY_STATE);
    WalkSound(c, h, root, 0, EMPTY_STATE);
  }

  // ---------- The raw region of a value ----------

  /** The raw bytes of a tree's leaves, in reading order. */
  function RawOf(v: Value): seq<Byte>
    decreases v, 0
  {
    match v
    case VBytes(data) => data
    case VTensor(t) => t.data
    case VList(items) => RawAll(items)
    case VTuple(items) => RawAll(items)
    case VDict(entries) => RawEntries(entries)
    case VCustom(_, fields) => RawOf(fields)
    case _ => []
  }

  function RawAll(vs: seq<Value>): seq<Byte>
    decreases vs, 0
  {
    if vs == [] then [] else RawOf(vs[0]) + RawAll(vs[1..])
  }

  function RawEntry(e: Entry): seq<Byte>
    decreases e, 1
  {
    RawOf(e.key) + RawOf(e.val)
  }

  function RawEntries(es: seq<Entry>): seq<Byte>
    decreases es, 0
  {
    if es == [] then [] else RawEntry(es[0]) + RawEntries(es[1..])
  }

  lemma {:induction false} RawEntriesAppend(a: seq<Entry>, b: seq<Entry>)
    ensures RawEntries(a + b) == RawEntries(a) + RawEntries(b)
  {
    hide RawEntry;
    var all := a + b;
    if a == [] {
      assert all == b;
    } else {
      RawEntriesAppend(a[1..], b);
      assert all[0] == a[0] && all[1..] == a[1..] + b;
      Reassociate(RawEntry(a[0]), RawEntries(a[1..]), RawEntries(b));
    }
  }

  lemma Reassociate(x: seq<Byte>, y: seq<Byte>, z: seq<Byte>)
    ensures (x + y) + z == x + (y + z)
  {
  }

  lemma RawEntriesOne(a: seq<Entry>, e: Entry)
    ensures RawEntries(a + [e]) == RawEntries(a) + RawEntry(e)
  {
    hide RawEntry;
    RawEntriesAppend(a, [e]);
    assert [e][1..] == [];
    assert RawEntries([e]) == RawEntry(e) + RawEntries([]);
  }

  lemma LeafRaw<R>(c: Codec, o: PyObj<R>, st: EncodeState)
    requires IsLeaf(o) && EncodeLeaf(c, o, st).Ok?
    ensures LeafValue(o).Some?
    ensures Join(EncodeLeaf(c, o, st).value.1.chunks) == Join(st.chunks) + RawOf(LeafValue(o).value)
  {
    if o.OBytes? || o.OTensor? {
      var chunk := RawOf(LeafValue(o).value);
      assert (st.chunks + [chunk])[..|st.chunks|] == st.chunks;
    }
  }

  /** The raw region the encoder produces is determined by the tree alone. */
  lemma {:induction false} WalkRaw<R>(c: Codec, h: Heap<R>, r: R, depth: nat, st: EncodeState)
    requires Walk(c, h, r, depth, st).Ok? && Unfold(h, r, c.Room(depth)).Some?
    ensures Join(Walk(c, h, r, depth, st).value.1.chunks)
              == Join(st.chunks) + RawOf(Unfold(h, r, c.Room(depth)).value)
    decreases c.Room(depth), 0
  {
    hide EncodeLeaf;
    hide Join;
    var st1 := st.(elements := st.elements + 1);
    var o := h.view(r);
    if o.OList? || o.OTuple? {
      WalkAllRaw(c, h, o.items, depth + 1, st1);
    } else if o.ODict? {
      WalkPairsRaw(c, h, o.entries, depth + 1, st1);
    } else if o.OInstance? {
      WalkRaw(c, h, o.fields.value, depth + 1, st1);
    } else {
      LeafRaw(c, o, st1);
    }
  }

  lemma {:induction false} WalkAllRaw<R>(c: Codec, h: Heap<R>, rs: seq<R>, depth: nat, st: EncodeState)
    requires WalkAll(c, h, rs, depth, st).Ok? && UnfoldAll(h, rs, c.Room(depth)).Some?
    ensures Join(WalkAll(c, h, rs, depth, st).value.1.chunks)
              == Join(st.chunks) + RawAll(UnfoldAll(h, rs, c.Room(depth)).value)
    decreases c.Room(depth), 1, |rs|
  {
    hide Walk;
    hide Unfold;
    hide Join;
    hide RawOf;
    if rs != [] {
      WalkRaw(c, h, rs[0], depth, st);
      WalkAllRaw(c, h, rs[1..], depth, Walk(c, h, rs[0], depth, st).value.1);
    }
  }

  lemma {:induction false} WalkPairsRaw<R>(c: Codec, h: Heap<R>, ps: seq<(R, R)>, depth: nat, st: EncodeState)
    requires WalkPairs(c, h, ps, depth, st).Ok? && UnfoldPairs(h, ps, c.Room(depth)).Some?
    ensures Join(WalkPairs(c, h, ps, depth, st).value.1.chunks)
              == Join(st.chunks) + RawEntries(UnfoldPairs(h, ps, c.Room(depth)).value)
    decreases c.Room(depth), 1, |ps|
  {
    hide Walk;
    hide Unfold;
    hide Join;
    hide RawOf;
    if ps != [] {
      WalkRaw(c, h, ps[0].0, depth, st);
      var st1 := Walk(c, h, ps[0].0, depth, st).value.1;
      WalkRaw(c, h, ps[0].1, depth, st1);
      WalkPairsRaw(c, h, ps[1..], depth, Walk(c, h, ps[0].1, depth, st1).value.1);
    }
  }

  // ---------- Decoding a packet that uses its buffers once, in order ----------

  function BufferBytes(b: Buffer): seq<Byte> {
    match b
    case BytesBuffer(data) => data
    case TensorBuffer(t) => t.data
  }

  /** The bytes of one buffer reference. */
  function BytesNamed(buffers: seq<Buffer>, reference: (string, int)): seq<Byte> {
    if 0 <= reference.1 < |buffers| then BufferBytes(buffers[reference.1]) else []
  }

  function BytesAt(buffers: seq<Buffer>, trace: seq<(string, int)>): seq<Byte> {
    if trace == [] then [] else BytesNamed(buffers, trace[0]) + BytesAt(buffers, trace[1..])
  }

  lemma BytesAtStep(buffers: seq<Buffer>, trace: seq<(string, int)>)
    ensures trace == [] ==> BytesAt(buffers, trace) == []
    ensures trace != [] ==> BytesAt(buffers, trace) == BytesNamed(buffers, trace[0]) + BytesAt(buffers, trace[1..])
  {
  }

  lemma {:induction false} BytesAtAppend(buffers: seq<Buffer>, a: seq<(string, int)>, b: seq<(string, int)>)
    ensures BytesAt(buffers, a + b) == BytesAt(buffers, a) + BytesAt(buffers, b)
  {
    hide *;
    var all := a + b;
    BytesAtStep(buffers, a);
    BytesAtStep(buffers, all);
    if a == [] {
      assert all == b;
    } else {
      BytesAtAppend(buffers, a[1..], b);
      assert all[0] == a[0] && all[1..] == a[1..] + b;
      Reassociate(BytesNamed(buffers, a[0]), BytesAt(buffers, a[1..]), BytesAt(buffers, b));
    }
  }

  // ---------- Packets that list fields in the order the classes keep them ----------

  predicate IsStrNode(j: Json) {
    j.JObject? && j.Get("kind") == JStr("str") && j.Get("value").JStr?
  }

  /** A dictionary pair whose key is written as a string. */
  predicate NamesField(p: Json) {
    p.JArray? && |p.items| == 2 && IsStrNode(p.items[0])
  }

  function FieldName(p: Json): string
    requires NamesField(p)
  {
    p.items[0].Get("value").s
  }

  /** A dictionary node whose keys are all written as strings. */
  predicate ListsFields(j: Json) {
    && j.JObject? && j.Get("kind") == JStr("dict") && j.Get("items").JArray?
    && forall i | 0 <= i < |j.Get("items").items| :: NamesField(j.Get("items").items[i])
  }

  /** The field names such a node lists, in its order. */
  function ListedNames(j: Json): seq<string>
    requires ListsFields(j)
  {
    var items := j.Get("items").items;
    seq(|items|, i requires 0 <= i < |items| => FieldName(items[i]))
  }

  /** Fields listed by these names in this order are the fields of the instance. */
  ghost predicate OwnOrder(a: TypeAdapter, names: seq<string>) {
    forall es: seq<Entry> | HasNames(es, names) && a.decodeFields(VDict(es)).Some? ::
      a.decodeFields(VDict(es)) == Some(VCustom(a.pyType, VDict(es)))
  }

  predicate HasNames(es: seq<Entry>, names: seq<string>) {
    |es| == |names| && forall i | 0 <= i < |es| :: es[i].key == VStr(names[i])
  }

  /** Every instance node of a packet lists its fields in its class's own order. */
  ghost predicate KeepsOrder(c: Codec, j: Json) {
    if !j.JObject? || "kind" !in j.fields then true
    else
      var kind := j.fields["kind"];
      if kind == JStr("list") || kind == JStr("tuple") then
        "items" in j.fields && j.fields["items"].JArray? ==>
          forall x | x in j.fields["items"].items :: KeepsOrder(c, x)
      else if kind == JStr("dict") then
        "items" in j.fields && j.fields["items"].JArray? ==>
          forall p | p in j.fields["items"].items && p.JArray? :: forall x | x in p.items :: KeepsOrder(c, x)
      else if kind == JStr("custom") then
        && ("fields" in j.fields ==> KeepsOrder(c, j.fields["fields"]))
        && (j.Get("tag").JStr? && j.Get("tag").s in c.byTag ==>
              && ListsFields(j.Get("fields"))
              && OwnOrder(c.byTag[j.Get("tag").s], ListedNames(j.Get("fields"))))
      else true
  }

  lemma ReadLeafRaw(c: Codec, buffers: seq<Buffer>, j: Json)
    requires j.JObject? && ReadLeaf(c, buffers, j).Ok?
    ensures RawOf(ReadLeaf(c, buffers, j).value) == BytesAt(buffers, Trace(j))
  {
    var kind := j.Get("kind");
    if kind == JStr("tensor") || kind == JStr("bytes") {
      var i := j.Get("index").i;
      assert Trace(j) == [(kind.s, i)] && Trace(j)[1..] == [];
    }
  }

  lemma RebuildRaw(c: Codec, tag: string, fields: Value, names: seq<string>)
    requires tag in c.byTag && Rebuild(c, tag, fields).Ok?
    requires HasNames(fields.entries, names) && OwnOrder(c.byTag[tag], names)
    ensures RawOf(Rebuild(c, tag, fields).value) == RawOf(fields)
  {
    assert c.byTag[tag].decodeFields(VDict(fields.entries)).Some?;
    assert Rebuild(c, tag, fields).value == VCustom(c.byTag[tag].pyType, fields);
  }

  /** A node whose keys are strings is read as a dictionary with those keys. */
  lemma ReadNames(c: Codec, buffers: seq<Buffer>, j: Json, depth: nat, elements: nat)
    requires ListsFields(j) && Read(c, buffers, j, depth, elements).Ok?
    ensures var v := Read(c, buffers, j, depth, elements).value.0;
            v.VDict? && HasNames(v.entries, ListedNames(j))
  {
    hide ReadLeaf;
    hide ReadPairs;
    var pairs := j.Get("items").items;
    ReadPairNames(c, buffers, pairs, depth + 1, elements + 1, []);
    var es := ReadPairs(c, buffers, pairs, depth + 1, elements + 1, []).value.0;
    forall i | 0 <= i < |es|
      ensures es[i].key == VStr(ListedNames(j)[i])
    {
      assert es[0 + i] == es[i];
    }
  }

  lemma {:induction false} ReadPairNames(
    c: Codec, buffers: seq<Buffer>, pairs: seq<Json>, depth: nat, elements: nat, done: seq<Entry>)
    requires ReadPairs(c, buffers, pairs, depth, elements, done).Ok?
    requires forall i | 0 <= i < |pairs| :: NamesField(pairs[i])
    ensures var es := ReadPairs(c, buffers, pairs, depth, elements, done).value.0;
            && |es| == |done| + |pairs| && done <= es
            && forall i | 0 <= i < |pairs| :: es[|done| + i].key == VStr(FieldName(pairs[i]))
    decreases |pairs|
  {
    hide Read;
    if pairs != [] {
      var (k, n) := Read(c, buffers, pairs[0].items[0], depth, elements).value;
      var (v, n1) := Read(c, buffers, pairs[0].items[1], depth, n).value;
      StrNodeRead(c, buffers, pairs[0].items[0], depth, elements);
      ReadPairNames(c, buffers, pairs[1..], depth, n1, done + [Entry(k, v)]);
      var es := ReadPairs(c, buffers, pairs, depth, elements, done).value.0;
      forall i | 0 <= i < |pairs|
        ensures es[|done| + i].key == VStr(FieldName(pairs[i]))
      {
        if i > 0 {
          assert pairs[1..][i - 1] == pairs[i];
        } else {
          assert es[|done|] == (done + [Entry(k, v)])[|done|];
        }
      }
    }
  }

  lemma StrNodeRead(c: Codec, buffers: seq<Buffer>, j: Json, depth: nat, elements: nat)
    requires IsStrNode(j) && Read(c, buffers, j, depth, elements).Ok?
    ensures Read(c, buffers, j, depth, elements).value == (VStr(j.Get("value").s), elements + 1)
  {
  }

  /** The raw bytes of a decoded tree are those of the buffers its node names. */
  lemma {:induction false} ReadRaw(c: Codec, buffers: seq<Buffer>, j: Json, depth: nat, elements: nat)
    requires KeepsOrder(c, j) && Read(c, buffers, j, depth, elements).Ok?
    ensures RawOf(Read(c, buffers, j, depth, elements).value.0) == BytesAt(buffers, Trace(j))
    decreases c.Room(depth), 0
  {
    hide ReadLeaf;
    hide ReadAll;
    hide ReadPairs;
    hide Rebuild;
    hide BytesAt;
    hide TraceAll;
    hide TracePairs;
    hide RawAll;
    var kind := j.Get("kind");
    if (kind == JStr("list") || kind == JStr("tuple")) && j.Get("items").JArray? {
      ReadAllRaw(c, buffers, j.Get("items").items, depth + 1, elements + 1);
    } else if kind == JStr("dict") && j.Get("items").JArray? {
      ReadPairsRaw(c, buffers, j.Get("items").items, depth + 1, elements + 1, []);
    } else if kind == JStr("custom") && j.Get("tag").JStr? {
      ReadRaw(c, buffers, j.Get("fields"), depth + 1, elements + 1);
      ReadNames(c, buffers, j.Get("fields"), depth + 1, elements + 1);
      RebuildRaw(c, j.Get("tag").s, Read(c, buffers, j.Get("fields"), depth + 1, elements + 1).value.0,
                 ListedNames(j.Get("fields")));
    } else {
      ReadLeafRaw(c, buffers, j);
    }
  }

  lemma {:induction false} ReadAllRaw(c: Codec, buffers: seq<Buffer>, js: seq<Json>, depth: nat, elements: nat)
    requires (forall j | j in js :: KeepsOrder(c, j)) && ReadAll(c, buffers, js, depth, elements).Ok?
    ensures RawAll(ReadAll(c, buffers, js, depth, elements).value.0) == BytesAt(buffers, TraceAll(js))
    decreases c.Room(depth), 1, |js|
  {
    hide Read;
    hide Trace;
    hide KeepsOrder;
    if js != [] {
      ReadRaw(c, buffers, js[0], depth, elements);
      ReadAllRaw(c, buffers, js[1..], depth, Read(c, buffers, js[0], depth, elements).value.1);
      BytesAtAppend(buffers, Trace(js[0]), TraceAll(js[1..]));
    }
  }

  lemma PairRaw(buffers: seq<Buffer>, kj: Json, vj: Json, e: Entry)
    requires RawOf(e.key) == BytesAt(buffers, Trace(kj)) && RawOf(e.val) == BytesAt(buffers, Trace(vj))
    ensures RawEntry(e) == BytesAt(buffers, TraceAll([kj, vj]))
  {
    hide Trace;
    hide RawOf;
    hide BytesAt;
    TraceTwo(kj, vj);
    BytesAtAppend(buffers, Trace(kj), Trace(vj));
  }

  lemma {:induction false} ReadPairsRaw(
    c: Codec, buffers: seq<Buffer>, js: seq<Json>, depth: nat, elements: nat, done: seq<Entry>)
    requires forall p | p in js && p.JArray? :: forall j | j in p.items :: KeepsOrder(c, j)
    requires ReadPairs(c, buffers, js, depth, elements, done).Ok?
    ensures RawEntries(ReadPairs(c, buffers, js, depth, elements, done).value.0)
              == RawEntries(done) + BytesAt(buffers, TracePairs(js))
    decreases c.Room(depth), 1, |js|
  {
    hide Read;
    hide Trace;
    hide RawEntries;
    hide RawEntry;
    hide TraceAll;
    hide KeepsOrder;
    if js != [] {
      hide BytesAt;
      var kj, vj := js[0].items[0], js[0].items[1];
      ReadRaw(c, buffers, kj, depth, elements);
      var (k, n) := Read(c, buffers, kj, depth, elements).value;
      ReadRaw(c, buffers, vj, depth, n);
      var (v, n1) := Read(c, buffers, vj, depth, n).value;
      ReadPairsRaw(c, buffers, js[1..], depth, n1, done + [Entry(k, v)]);
      RawEntriesOne(done, Entry(k, v));
      PairRaw(buffers, kj, vj, Entry(k, v));
      assert js[0].items == [kj, vj];
      BytesAtAppend(buffers, TraceAll([kj, vj]), TracePairs(js[1..]));
      Reassociate(RawEntries(done), RawEntry(Entry(k, v)), BytesAt(buffers, TracePairs(js[1..])));
    } else {
      BytesAtStep(buffers, []);
    }
  }

  /** The node names the `n` buffers once each, in table order. */
  ghost predicate NamesInOrder(trace: seq<(string, int)>, n: nat) {
    |trace| == n && forall i | 0 <= i < n :: trace[i].1 == i
  }

  lemma {:induction false} BytesInOrder(
    descs: seq<Json>, buffers: seq<Buffer>, raw: seq<Byte>, trace: seq<(string, int)>, i: nat)
    requires SlicesFrom(buffers, descs, raw, 0) && Sizes(descs) == |raw|
    requires NamesInOrder(trace, |buffers|) && i <= |buffers|
    ensures Sizes(descs[..i]) <= |raw|
    ensures BytesAt(buffers, trace[i..]) == raw[Sizes(descs[..i])..]
    decreases |buffers| - i
  {
    hide *;
    SliceAt(descs, buffers, raw, trace, i);
    BytesAtStep(buffers, trace[i..]);
    if i < |buffers| {
      BytesInOrder(descs, buffers, raw, trace, i + 1);
      assert trace[i..][0] == trace[i] && trace[i..][1..] == trace[i + 1..];
    }
  }

  lemma SliceAt(descs: seq<Json>, buffers: seq<Buffer>, raw: seq<Byte>, trace: seq<(string, int)>, i: nat)
    requires SlicesFrom(buffers, descs, raw, 0) && Sizes(descs) == |raw|
    requires NamesInOrder(trace, |buffers|) && i <= |buffers|
    ensures |descs| == |buffers| == |trace| && Sizes(descs[..i]) <= |raw|
    ensures i == |buffers| ==> Sizes(descs[..i]) == |raw|
    ensures i < |buffers| ==>
              && Sizes(descs[..i]) <= Sizes(descs[..i + 1]) <= |raw|
              && BytesNamed(buffers, trace[i]) == raw[Sizes(descs[..i])..Sizes(descs[..i + 1])]
  {
    hide Size;
    hide Sizes;
    hide IsSlice;
    SizesMonotone(descs, i, |descs|);
    assert descs[..|descs|] == descs;
    if i < |buffers| {
      SizesMonotone(descs, i + 1, |descs|);
      SizesStep(descs, i);
      assert IsSlice(buffers[i], descs[0 + i], raw, Sizes(descs[..0 + i]));
      SliceBytes(buffers[i], descs[i], raw, Sizes(descs[..i]));
    }
  }

  lemma SliceBytes(b: Buffer, d: Json, raw: seq<Byte>, offset: nat)
    requires IsSlice(b, d, raw, offset)
    ensures offset + Size(d) <= |raw| && BufferBytes(b) == raw[offset..offset + Size(d)]
  {
    hide Size;
  }

  /** If an accepted packet names its buffers once each and in order, and lists
      the fields of its instances in the order of their classes, encoding what it
      decodes to reproduces its raw region byte for byte. */
  lemma ReencodeSameRaw(c: Codec, metadata: seq<Byte>, raw: seq<Byte>)
    requires Decode(c, metadata, raw).Ok? && KeepsOrder(c, c.platform.parse(metadata).value.Get("root"))
    requires var envelope := c.platform.parse(metadata).value;
             NamesInOrder(Trace(envelope.Get("root")), |envelope.Get("tensors").items|)
    requires Encode(c, TreeHeap(), Decode(c, metadata, raw).value).Ok?
    ensures Join(Encode(c, TreeHeap(), Decode(c, metadata, raw).value).value.chunks) == raw
  {
    hide Read;
    hide Table;
    hide Walk;
    var envelope := c.platform.parse(metadata).value;
    var descs, root := envelope.Get("tensors").items, envelope.Get("root");
    var v := Decode(c, metadata, raw).value;
    var buffers := Table(c, descs, raw, 0).value.0;
    assert descs[0..] == descs && descs[..0] == [];
    TableExactly(c, descs, raw, 0);
    ReadRaw(c, buffers, root, 0, 0);
    BytesInOrder(descs, buffers, raw, Trace(root), 0);
    assert Trace(root)[0..] == Trace(root);
    WalkSound(c, TreeHeap(), v, 0, EMPTY_STATE);
    UnfoldTree(v, c.limits.maxTreeDepth + 1);
    WalkRaw(c, TreeHeap(), v, 0, EMPTY_STATE);
  }
}
