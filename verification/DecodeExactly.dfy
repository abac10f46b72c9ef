/** Exactly which packets the decoder accepts, and which value each of them
    stands for, told of the JSON tree and the raw bytes alone. */
module DecodeExactly {
  import opened Floats
  import opened Results
  import opened Tensors
  import opened Values
  import opened Packets
  import opened RoundTrip
  import opened DecodeLimits
  import opened FieldOrder

  /** The raw bytes and the table that cuts them. */
  datatype Region = Region(descs: seq<Json>, raw: seq<Byte>)

  // ---------- What a node stands for ----------

  predicate OfKind(j: Json, kind: string) {
    j.JObject? && "kind" in j.fields && j.fields["kind"] == JStr(kind)
  }

  predicate HasItems(j: Json) {
    j.JObject? && "items" in j.fields && j.fields["items"].JArray?
  }

  /** The node names a descriptor, whose bytes are the buffer's. */
  predicate Names(g: Region, index: Json, b: Buffer) {
    && index.JInt? && 0 <= index.i < |g.descs|
    && Offset(g.descs[index.i]) >= 0
    && IsSlice(b, g.descs[index.i], g.raw, Offset(g.descs[index.i]))
  }

  /** A node without children: its kind, and a payload of exactly the right
      type and within its limit. A float may be spelled as an integer. */
  predicate LeafDenotes(c: Codec, g: Region, j: Json, v: Value) {
    j.JObject? &&
    match v
    case VNone => OfKind(j, "none")
    case VBool(b) => OfKind(j, "bool") && j.Get("value") == JBool(b)
    case VInt(i) => OfKind(j, "int") && j.Get("value") == JInt(i) && LeafWithin(c, v)
    case VFloat(f) =>
      && OfKind(j, "float") && LeafWithin(c, v)
      && (j.Get("value") == JFloat(f)
          || (j.Get("value").JInt? && c.platform.intToFloat(j.Get("value").i) == Some(f)))
    case VStr(s) => OfKind(j, "str") && j.Get("value") == JStr(s) && LeafWithin(c, v)
    case VPlaceholder(message) =>
      OfKind(j, "value_error_placeholder") && j.Get("message") == JStr(message) && LeafWithin(c, v)
    case VBytes(data) => OfKind(j, "bytes") && Names(g, j.Get("index"), BytesBuffer(data))
    case VTensor(t) => OfKind(j, "tensor") && Names(g, j.Get("index"), TensorBuffer(t))
    case _ => false
  }

  ghost predicate Denotes(c: Codec, g: Region, j: Json, v: Value)
    decreases j, 0
  {
    || LeafDenotes(c, g, j, v)
    || (OfKind(j, "list") && HasItems(j) && v.VList? && AllDenote(c, g, j.fields["items"].items, v.items))
    || (OfKind(j, "tuple") && HasItems(j) && v.VTuple? && AllDenote(c, g, j.fields["items"].items, v.items))
    || (OfKind(j, "dict") && HasItems(j) && v.VDict? && ProperKeys(v.entries)
        && PairsDenote(c, g, j.fields["items"].items, v.entries))
    || (OfKind(j, "custom") && j.Get("tag").JStr? && "fields" in j.fields
        && exists f :: Denotes(c, g, j.fields["fields"], f) && Builds(c, j.Get("tag").s, f, v))
  }

  ghost predicate AllDenote(c: Codec, g: Region, js: seq<Json>, vs: seq<Value>)
    decreases js, 1
  {
    |js| == |vs| && forall i | 0 <= i < |js| :: Denotes(c, g, js[i], vs[i])
  }

  ghost predicate PairsDenote(c: Codec, g: Region, js: seq<Json>, es: seq<Entry>)
    decreases js, 1
  {
    |js| == |es| && forall i | 0 <= i < |js| :: PairDenotes(c, g, js[i], es[i])
  }

  ghost predicate PairDenotes(c: Codec, g: Region, p: Json, e: Entry)
    decreases p, 1
  {
    p.JArray? && |p.items| == 2 && Denotes(c, g, p.items[0], e.key) && Denotes(c, g, p.items[1], e.val)
  }

  /** No path goes down more than `n` levels of nodes. */
  predicate LevelsAtMost(j: Json, n: int) {
    && n >= 0
    && ((OfKind(j, "list") || OfKind(j, "tuple")) && HasItems(j) ==>
          forall x | x in j.fields["items"].items :: LevelsAtMost(x, n - 1))
    && (OfKind(j, "dict") && HasItems(j) ==>
          forall p | p in j.fields["items"].items && p.JArray? :: forall x | x in p.items :: LevelsAtMost(x, n - 1))
    && (OfKind(j, "custom") && "fields" in j.fields ==> LevelsAtMost(j.fields["fields"], n - 1))
  }

  /** What is left of the limits covers the nodes. */
  predicate Affordable(c: Codec, j: Json, depth: nat, elements: nat) {
    elements + Nodes(j) <= c.limits.maxContainerElements && LevelsAtMost(j, c.limits.maxTreeDepth - depth)
  }

  // ---------- Leaves ----------

  /** The buffers are those the table cuts out. */
  ghost predicate Cut(c: Codec, g: Region, buffers: seq<Buffer>) {
    Tiles(c, g.descs, g.raw) && SlicesFrom(buffers, g.descs, g.raw, 0)
  }

  lemma ShapeUnique(a: seq<nat>, b: seq<nat>)
    requires ShapeJson(a) == ShapeJson(b)
    ensures a == b
  {
    assert |a| == |ShapeJson(a)| == |b|;
    forall i | 0 <= i < |a|
      ensures a[i] == b[i]
    {
      assert ShapeJson(a)[i] == JInt(a[i]) && ShapeJson(b)[i] == JInt(b[i]);
    }
  }

  lemma SliceUnique(d: Json, raw: seq<Byte>, offset: nat, a: Buffer, b: Buffer)
    requires IsSlice(a, d, raw, offset) && IsSlice(b, d, raw, offset)
    ensures a == b
  {
    hide ShapeJson;
    if Kind(d) != JStr("bytes") {
      DtypeTablesInverse(a.t.dtype, d.Get("dtype").s);
      DtypeTablesInverse(b.t.dtype, d.Get("dtype").s);
      ShapeUnique(a.t.shape, b.t.shape);
    }
  }

  /** A buffer node is read as the one buffer its index names. */
  lemma IndexExactly(c: Codec, g: Region, buffers: seq<Buffer>, index: Json, b: Buffer)
    requires Cut(c, g, buffers)
    ensures Names(g, index, b) <==> index.JInt? && 0 <= index.i < |buffers| && buffers[index.i] == b
  {
    hide IsSlice;
    hide WellFormed;
    hide Offset;
    hide Sizes;
    if index.JInt? && 0 <= index.i < |buffers| {
      var k := index.i;
      assert Follows(c, g.descs, k) && Offset(g.descs[k]) == Sizes(g.descs[..k]);
      assert g.descs[0 + k] == g.descs[k] && g.descs[..0 + k] == g.descs[..k];
      assert IsSlice(buffers[k], g.descs[k], g.raw, Offset(g.descs[k]));
      if Names(g, index, b) {
        SliceUnique(g.descs[k], g.raw, Offset(g.descs[k]), buffers[k], b);
      }
    }
  }

  /** A node without children is read exactly as the value it stands for. */
  lemma LeafExactly(c: Codec, g: Region, buffers: seq<Buffer>, j: Json, v: Value)
    requires Cut(c, g, buffers) && j.JObject?
    ensures ReadLeaf(c, buffers, j) == Ok(v) <==> LeafDenotes(c, g, j, v)
    ensures LeafDenotes(c, g, j, v) ==>
              && Nodes(j) == 1 && !OfKind(j, "list") && !OfKind(j, "tuple")
              && !OfKind(j, "dict") && !OfKind(j, "custom")
  {
    hide Names;
    hide Cut;
    hide Utf8Length;
    var index := j.Get("index");
    if v.VBytes? {
      IndexExactly(c, g, buffers, index, BytesBuffer(v.data));
    } else if v.VTensor? {
      IndexExactly(c, g, buffers, index, TensorBuffer(v.t));
    }
  }

  // ---------- Accepted nodes denote what is read ----------

  ghost predicate LevelsEach(js: seq<Json>, n: int) {
    forall x | x in js :: LevelsAtMost(x, n)
  }

  ghost predicate PairLevels(p: Json, n: int) {
    p.JArray? ==> LevelsEach(p.items, n)
  }

  ghost predicate PairLevelsEach(js: seq<Json>, n: int) {
    forall p | p in js :: PairLevels(p, n)
  }

  /** A node is read as the value it stands for, and its nodes fit. */
  lemma {:induction false} ReadSound(c: Codec, g: Region, buffers: seq<Buffer>, j: Json, depth: nat, elements: nat)
    requires Cut(c, g, buffers) && Read(c, buffers, j, depth, elements).Ok?
    ensures var (v, n) := Read(c, buffers, j, depth, elements).value;
            Denotes(c, g, j, v) && Affordable(c, j, depth, elements) && n == elements + Nodes(j)
    decreases c.Room(depth), 0
  {
    hide Cut;
    hide LeafDenotes;
    hide ReadLeaf;
    hide ReadAll;
    hide ReadPairs;
    hide AllDenote;
    hide PairsDenote;
    hide NodesAll;
    hide NodesPairs;
    hide ProperKeys;
    var kind := j.Get("kind");
    if (kind == JStr("list") || kind == JStr("tuple")) && j.Get("items").JArray? {
      ReadAllSound(c, g, buffers, j.Get("items").items, depth + 1, elements + 1);
    } else if kind == JStr("dict") && j.Get("items").JArray? {
      NoKeys();
      ReadPairsSound(c, g, buffers, j.Get("items").items, depth + 1, elements + 1, []);
    } else if kind == JStr("custom") && j.Get("tag").JStr? {
      ReadSound(c, g, buffers, j.Get("fields"), depth + 1, elements + 1);
    } else {
      LeafExactly(c, g, buffers, j, ReadLeaf(c, buffers, j).value);
    }
  }

  lemma {:induction false} ReadAllSound(
    c: Codec, g: Region, buffers: seq<Buffer>, js: seq<Json>, depth: nat, elements: nat)
    requires Cut(c, g, buffers) && ReadAll(c, buffers, js, depth, elements).Ok?
    requires elements <= c.limits.maxContainerElements
    ensures var (vs, n) := ReadAll(c, buffers, js, depth, elements).value;
            && AllDenote(c, g, js, vs) && LevelsEach(js, c.limits.maxTreeDepth - depth)
            && n == elements + NodesAll(js) <= c.limits.maxContainerElements
    decreases c.Room(depth), 2, |js|
  {
    hide Cut;
    hide Read;
    hide Denotes;
    hide Nodes;
    hide LevelsAtMost;
    if js != [] {
      ReadSound(c, g, buffers, js[0], depth, elements);
      var (v, n) := Read(c, buffers, js[0], depth, elements).value;
      ReadAllSound(c, g, buffers, js[1..], depth, n);
      assert js == [js[0]] + js[1..];
    }
  }

  lemma {:induction false} ReadPairsSound(
    c: Codec, g: Region, buffers: seq<Buffer>, js: seq<Json>, depth: nat, elements: nat, done: seq<Entry>)
    requires Cut(c, g, buffers) && ReadPairs(c, buffers, js, depth, elements, done).Ok?
    requires elements <= c.limits.maxContainerElements && ProperKeys(done)
    ensures var (es, n) := ReadPairs(c, buffers, js, depth, elements, done).value;
            && ProperKeys(es) && done <= es && PairsDenote(c, g, js, es[|done|..])
            && PairLevelsEach(js, c.limits.maxTreeDepth - depth)
            && n == elements + NodesPairs(js) <= c.limits.maxContainerElements
    decreases c.Room(depth), 2, |js|
  {
    hide Cut;
    hide Read;
    hide Denotes;
    hide Nodes;
    hide NodesAll;
    hide LevelsAtMost;
    hide PairLevels;
    hide PairDenotes;
    hide ProperKeys;
    if js != [] {
      var (k, n) := Read(c, buffers, js[0].items[0], depth, elements).value;
      var (v, n1) := Read(c, buffers, js[0].items[1], depth, n).value;
      var e := Entry(k, v);
      PairSound(c, g, buffers, js[0], depth, elements);
      ProperMore(done, e);
      ReadPairsSound(c, g, buffers, js[1..], depth, n1, done + [e]);
      var es := ReadPairs(c, buffers, js, depth, elements, done).value.0;
      assert es[|done|] == (done + [e])[|done|];
      assert es[|done|..] == [e] + es[|done| + 1..];
      assert js == [js[0]] + js[1..];
    }
  }

  lemma NoKeys()
    ensures ProperKeys([])
  {
  }

  lemma ProperMore(done: seq<Entry>, e: Entry)
    requires ProperKeys(done)
    ensures Hashable(e.key) && !HasKey(done, e.key) <==> ProperKeys(done + [e])
  {
    hide SameKey;
    hide Hashable;
    if !HasKey(done, e.key) {
      NewKeyStaysDistinct(done, e);
    } else {
      var x :| x in done && SameKey(x.key, e.key);
      var i :| 0 <= i < |done| && done[i] == x;
      assert (done + [e])[i] == x && (done + [e])[|done|] == e;
    }
    assert e in done + [e];
  }

  lemma {:induction false} PairSound(c: Codec, g: Region, buffers: seq<Buffer>, p: Json, depth: nat, elements: nat)
    requires Cut(c, g, buffers) && p.JArray? && |p.items| == 2
    requires Read(c, buffers, p.items[0], depth, elements).Ok?
    requires Read(c, buffers, p.items[1], depth, Read(c, buffers, p.items[0], depth, elements).value.1).Ok?
    ensures var (k, n) := Read(c, buffers, p.items[0], depth, elements).value;
            var (v, n1) := Read(c, buffers, p.items[1], depth, n).value;
            && PairDenotes(c, g, p, Entry(k, v)) && PairLevels(p, c.limits.maxTreeDepth - depth)
            && n1 == elements + NodesAll(p.items) <= c.limits.maxContainerElements
    decreases c.Room(depth), 1
  {
    hide Cut;
    hide Read;
    hide Denotes;
    hide Nodes;
    hide LevelsAtMost;
    var (k, n) := Read(c, buffers, p.items[0], depth, elements).value;
    ReadSound(c, g, buffers, p.items[0], depth, elements);
    ReadSound(c, g, buffers, p.items[1], depth, n);
    PairNodes(p);
  }

  lemma PairNodes(p: Json)
    requires p.JArray? && |p.items| == 2
    ensures NodesAll(p.items) == Nodes(p.items[0]) + Nodes(p.items[1])
  {
    hide Nodes;
    assert NodesAll(p.items[1..]) == Nodes(p.items[1]) + NodesAll(p.items[2..]);
  }

  // ---------- What a fitting node stands for is read ----------

  /** A fitting node that stands for a value is read as that value. */
  lemma {:induction false} ReadComplete(
    c: Codec, g: Region, buffers: seq<Buffer>, j: Json, v: Value, depth: nat, elements: nat)
    requires Cut(c, g, buffers) && Denotes(c, g, j, v) && Affordable(c, j, depth, elements)
    ensures Read(c, buffers, j, depth, elements) == Ok((v, elements + Nodes(j)))
    decreases c.Room(depth), 0
  {
    hide Cut;
    hide LeafDenotes;
    hide ReadLeaf;
    hide ReadAll;
    hide ReadPairs;
    hide AllDenote;
    hide PairsDenote;
    hide NodesAll;
    hide NodesPairs;
    hide ProperKeys;
    if LeafDenotes(c, g, j, v) {
      LeafIsObject(c, g, j, v);
      LeafExactly(c, g, buffers, j, v);
    } else if OfKind(j, "list") || OfKind(j, "tuple") {
      ReadAllComplete(c, g, buffers, j.Get("items").items, v.items, depth + 1, elements + 1);
    } else if OfKind(j, "dict") {
      assert [] + v.entries == v.entries;
      assert PairLevelsEach(j.Get("items").items, c.limits.maxTreeDepth - (depth + 1));
      ReadPairsComplete(c, g, buffers, j.Get("items").items, v.entries, depth + 1, elements + 1, []);
    } else {
      var f :| Denotes(c, g, j.fields["fields"], f) && Builds(c, j.Get("tag").s, f, v);
      ReadComplete(c, g, buffers, j.Get("fields"), f, depth + 1, elements + 1);
    }
  }

  lemma LeafIsObject(c: Codec, g: Region, j: Json, v: Value)
    requires LeafDenotes(c, g, j, v)
    ensures j.JObject?
  {
  }

  lemma {:induction false} ReadAllComplete(
    c: Codec, g: Region, buffers: seq<Buffer>, js: seq<Json>, vs: seq<Value>, depth: nat, elements: nat)
    requires Cut(c, g, buffers) && AllDenote(c, g, js, vs)
    requires elements + NodesAll(js) <= c.limits.maxContainerElements
    requires LevelsEach(js, c.limits.maxTreeDepth - depth)
    ensures ReadAll(c, buffers, js, depth, elements) == Ok((vs, elements + NodesAll(js)))
    decreases c.Room(depth), 2, |js|
  {
    hide Cut;
    hide Read;
    hide Denotes;
    hide Nodes;
    hide LevelsAtMost;
    if js != [] {
      ReadComplete(c, g, buffers, js[0], vs[0], depth, elements);
      ReadAllComplete(c, g, buffers, js[1..], vs[1..], depth, elements + Nodes(js[0]));
      assert vs == [vs[0]] + vs[1..];
    }
  }

  lemma {:induction false} ReadPairsComplete(
    c: Codec, g: Region, buffers: seq<Buffer>, js: seq<Json>, es: seq<Entry>, depth: nat, elements: nat,
    done: seq<Entry>)
    requires Cut(c, g, buffers) && PairsDenote(c, g, js, es) && ProperKeys(done + es)
    requires elements + NodesPairs(js) <= c.limits.maxContainerElements
    requires PairLevelsEach(js, c.limits.maxTreeDepth - depth)
    ensures ReadPairs(c, buffers, js, depth, elements, done) == Ok((done + es, elements + NodesPairs(js)))
    decreases c.Room(depth), 2, |js|
  {
    hide Cut;
    hide Read;
    hide Denotes;
    hide Nodes;
    hide NodesAll;
    hide LevelsAtMost;
    hide PairLevels;
    hide ProperKeys;
    if js == [] {
      assert done + es == done;
    } else {
      var p, e := js[0], es[0];
      assert PairDenotes(c, g, p, e) && PairLevels(p, c.limits.maxTreeDepth - depth);
      PairNodes(p);
      PairComplete(c, g, buffers, p, e, depth, elements);
      assert done + es == (done + [e]) + es[1..];
      ProperPrefix(done + [e], es[1..]);
      ProperPrefix(done, [e]);
      ProperMore(done, e);
      ReadPairsComplete(c, g, buffers, js[1..], es[1..], depth, elements + NodesAll(p.items), done + [e]);
    }
  }

  lemma ProperPrefix(a: seq<Entry>, b: seq<Entry>)
    requires ProperKeys(a + b)
    ensures ProperKeys(a)
  {
    hide SameKey;
    hide Hashable;
    assert forall i | 0 <= i < |a| :: (a + b)[i] == a[i];
    assert forall e | e in a :: e in a + b;
  }

  lemma {:induction false} PairComplete(
    c: Codec, g: Region, buffers: seq<Buffer>, p: Json, e: Entry, depth: nat, elements: nat)
    requires Cut(c, g, buffers) && PairDenotes(c, g, p, e) && PairLevels(p, c.limits.maxTreeDepth - depth)
    requires elements + NodesAll(p.items) <= c.limits.maxContainerElements
    ensures var n := elements + Nodes(p.items[0]);
            && Read(c, buffers, p.items[0], depth, elements) == Ok((e.key, n))
            && Read(c, buffers, p.items[1], depth, n) == Ok((e.val, elements + NodesAll(p.items)))
    decreases c.Room(depth), 1
  {
    hide Cut;
    hide Read;
    hide Denotes;
    hide Nodes;
    hide NodesAll;
    hide LevelsAtMost;
    PairNodes(p);
    ReadComplete(c, g, buffers, p.items[0], e.key, depth, elements);
    ReadComplete(c, g, buffers, p.items[1], e.val, depth, elements + Nodes(p.items[0]));
  }

  // ---------- Whole packets ----------

  /** The number a JSON value compares by. */
  function NumberOf(j: Json): Option<real> {
    match j
    case JBool(b) => Some(if b then 1.0 else 0.0)
    case JInt(i) => Some(i as real)
    case JFloat(f) => if f.Finite? then Some(FloatValue(f)) else None
    case _ => None
  }

  /** An envelope within the packet limits: schema one, and a table of raw
      buffers that tiles the raw bytes. */
  predicate ProperEnvelope(c: Codec, envelope: Json, raw: seq<Byte>) {
    && envelope.JObject?
    && NumberOf(envelope.Get("schema")) == Some(1.0)
    && envelope.Get("tensors").JArray?
    && |envelope.Get("tensors").items| <= c.limits.maxTensorCount
    && Tiles(c, envelope.Get("tensors").items, raw)
  }

  /** For arbitrary bytes: `decode` returns `v` if and only if the packet is
      within its limits, its table tiles the raw bytes, its nodes are within the
      limits on number and depth, and its root stands for `v`. */
  lemma DecodesExactly(c: Codec, metadata: seq<Byte>, raw: seq<Byte>, v: Value)
    ensures Decode(c, metadata, raw) == Ok(v) <==>
              && |metadata| <= c.limits.maxMetadataBytes && |raw| <= c.limits.maxTensorBytes
              && c.platform.parse(metadata).Some?
              && var envelope := c.platform.parse(metadata).value;
                 && ProperEnvelope(c, envelope, raw)
                 && Affordable(c, envelope.Get("root"), 0, 0)
                 && Denotes(c, Region(envelope.Get("tensors").items, raw), envelope.Get("root"), v)
  {
    hide Read;
    hide Table;
    hide WellFormed;
    hide Denotes;
    hide Affordable;
    if |metadata| <= c.limits.maxMetadataBytes && |raw| <= c.limits.maxTensorBytes
       && c.platform.parse(metadata).Some? && c.platform.parse(metadata).value.JObject? {
      var envelope := c.platform.parse(metadata).value;
      if envelope.Get("tensors").JArray? {
        var descs, root := envelope.Get("tensors").items, envelope.Get("root");
        assert descs[0..] == descs && descs[..0] == [];
        TableExactly(c, descs, raw, 0);
        if Tiles(c, descs, raw) {
          RootExactly(c, Region(descs, raw), Table(c, descs, raw, 0).value.0, root, v);
        }
      }
    }
  }

  lemma RootExactly(c: Codec, g: Region, buffers: seq<Buffer>, root: Json, v: Value)
    requires Cut(c, g, buffers)
    ensures (Read(c, buffers, root, 0, 0).Ok? && Read(c, buffers, root, 0, 0).value.0 == v) <==>
              Affordable(c, root, 0, 0) && Denotes(c, g, root, v)
  {
    hide Read;
    hide Cut;
    hide Affordable;
    hide Denotes;
    if Read(c, buffers, root, 0, 0).Ok? {
      ReadSound(c, g, buffers, root, 0, 0);
    }
    if Affordable(c, root, 0, 0) && Denotes(c, g, root, v) {
      ReadComplete(c, g, buffers, root, v, 0, 0);
    }
  }
}
