/** What `encode` accepts, `decode` gives back. */
module RoundTrip {
  import opened Results
  import opened Tensors
  import opened Values
  import opened Packets
  import opened Printing

  // ---------- Values that survive a trip ----------

  /** What Python guarantees of a dictionary (hashable, pairwise different
      keys) and what is asked of an adapter: `decode_fields(encode_fields(x))`
      is `x`, here for every instance inside the value. */
  ghost predicate Faithful(c: Codec, v: Value) {
    match v
    case VList(items) => forall x | x in items :: Faithful(c, x)
    case VTuple(items) => forall x | x in items :: Faithful(c, x)
    case VDict(entries) =>
      && DistinctKeys(entries)
      && forall e | e in entries :: Hashable(e.key) && Faithful(c, e.key) && Faithful(c, e.val)
    case VCustom(pyType, fields) =>
      fields.VDict? && pyType in c.byType && c.byType[pyType].decodeFields(fields) == Some(v) && Faithful(c, fields)
    case _ => true
  }

  ghost predicate DistinctKeys(entries: seq<Entry>) {
    forall i, j | 0 <= i < j < |entries| :: !SameKey(entries[i].key, entries[j].key)
  }

  /** The keys of a dictionary: hashable, and no two the same. */
  ghost predicate ProperKeys(es: seq<Entry>) {
    DistinctKeys(es) && forall e | e in es :: Hashable(e.key)
  }

  // ---------- What the encoder's tables always satisfy ----------

  ghost predicate DescriptorFits(c: Codec, d: Descriptor, chunk: seq<Byte>, offset: nat) {
    && d.offset == offset
    && d.nbytes == |chunk|
    && (d.TensorDescriptor? ==>
          && DtypeByName(d.dtype).Some?
          && |d.shape| <= c.limits.maxTensorRank
          && d.numel == Product(d.shape) <= c.limits.maxTensorElements
          && d.nbytes == d.numel * Width(DtypeByName(d.dtype).value))
  }

  /** Offsets are the running sums of the chunk lengths, the running total is
      the last end, and every limit on the tables holds. */
  ghost predicate Sound(c: Codec, st: EncodeState) {
    && |st.descriptors| == |st.chunks| <= c.limits.maxTensorCount
    && st.offset == |Join(st.chunks)| <= c.limits.maxTensorBytes
    && forall i | 0 <= i < |st.descriptors| ::
         DescriptorFits(c, st.descriptors[i], st.chunks[i], |Join(st.chunks[..i])|)
  }

  ghost predicate Extends(st: EncodeState, st': EncodeState) {
    && st.descriptors <= st'.descriptors
    && st.chunks <= st'.chunks
    && st.elements <= st'.elements
  }

  lemma AddBufferSound(c: Codec, kind: string, d: Descriptor, chunk: seq<Byte>, st: EncodeState)
    requires Sound(c, st) && DescriptorFits(c, d, chunk, st.offset)
    requires AddBuffer(c, kind, d, chunk, st).Ok?
    ensures Sound(c, AddBuffer(c, kind, d, chunk, st).value.1)
    ensures Extends(st, AddBuffer(c, kind, d, chunk, st).value.1)
  {
    var st' := AddBuffer(c, kind, d, chunk, st).value.1;
    assert st'.chunks[..|st.chunks|] == st.chunks;
    forall i | 0 <= i < |st'.descriptors|
      ensures DescriptorFits(c, st'.descriptors[i], st'.chunks[i], |Join(st'.chunks[..i])|)
    {
      if i < |st.descriptors| {
        assert st'.chunks[..i] == st.chunks[..i];
      }
    }
  }

  lemma AddTensorSound(c: Codec, t: View, st: EncodeState)
    requires Sound(c, st) && AddTensor(c, t, st).Ok?
    ensures !t.dtype.Unsupported?
    ensures Sound(c, AddTensor(c, t, st).value.1) && Extends(st, AddTensor(c, t, st).value.1)
  {
    var numel := Product(t.shape);
    DtypeTablesInverse(t.dtype, "");
    AddBufferSound(c, "tensor",
                   TensorDescriptor(DtypeName(t.dtype), t.shape, st.offset, numel * Width(t.dtype), numel),
                   Densify(t).data, st);
  }

  lemma LeafSound<R>(c: Codec, o: PyObj<R>, st: EncodeState)
    requires IsLeaf(o) && Sound(c, st) && EncodeLeaf(c, o, st).Ok?
    ensures Sound(c, EncodeLeaf(c, o, st).value.1)
    ensures Extends(st, EncodeLeaf(c, o, st).value.1)
    ensures LeafValue(o).Some?
  {
    match o
    case OBytes(data) => AddBufferSound(c, "bytes", BytesDescriptor(st.offset, |data|), data, st);
    case OTensor(t) => AddTensorSound(c, t, st);
    case _ =>
  }

  lemma SoundElements(c: Codec, st: EncodeState)
    requires Sound(c, st)
    ensures Sound(c, st.(elements := st.elements + 1))
  {
  }

  lemma SoundLengths(c: Codec, st: EncodeState)
    requires Sound(c, st)
    ensures |st.descriptors| == |st.chunks|
  {
  }

  /** Every accepted walk keeps the tables sound, only appends to them, and has
      read a finite tree no deeper than the limit. */
  lemma {:induction false} WalkSound<R>(c: Codec, h: Heap<R>, r: R, depth: nat, st: EncodeState)
    requires Sound(c, st) && Walk(c, h, r, depth, st).Ok?
    ensures Sound(c, Walk(c, h, r, depth, st).value.1)
    ensures Extends(st, Walk(c, h, r, depth, st).value.1)
    ensures Unfold(h, r, c.Room(depth)).Some?
    decreases c.Room(depth), 0
  {
    hide Sound;
    var st1 := st.(elements := st.elements + 1);
    SoundElements(c, st);
    var o := h.view(r);
    if o.OList? || o.OTuple? {
      WalkAllSound(c, h, o.items, depth + 1, st1);
    } else if o.ODict? {
      WalkPairsSound(c, h, o.entries, depth + 1, st1);
    } else if o.OInstance? {
      WalkSound(c, h, o.fields.value, depth + 1, st1);
    } else {
      LeafSound(c, o, st1);
    }
  }

  lemma {:induction false} WalkAllSound<R>(c: Codec, h: Heap<R>, rs: seq<R>, depth: nat, st: EncodeState)
    requires Sound(c, st) && WalkAll(c, h, rs, depth, st).Ok?
    ensures Sound(c, WalkAll(c, h, rs, depth, st).value.1)
    ensures Extends(st, WalkAll(c, h, rs, depth, st).value.1)
    ensures UnfoldAll(h, rs, c.Room(depth)).Some?
    decreases c.Room(depth), 1, |rs|
  {
    hide Sound;
    if rs != [] {
      WalkSound(c, h, rs[0], depth, st);
      WalkAllSound(c, h, rs[1..], depth, Walk(c, h, rs[0], depth, st).value.1);
    }
  }

  lemma {:induction false} WalkPairsSound<R>(c: Codec, h: Heap<R>, ps: seq<(R, R)>, depth: nat, st: EncodeState)
    requires Sound(c, st) && WalkPairs(c, h, ps, depth, st).Ok?
    ensures Sound(c, WalkPairs(c, h, ps, depth, st).value.1)
    ensures Extends(st, WalkPairs(c, h, ps, depth, st).value.1)
    ensures UnfoldPairs(h, ps, c.Room(depth)).Some?
    decreases c.Room(depth), 1, |ps|
  {
    hide Sound;
    if ps != [] {
      WalkSound(c, h, ps[0].0, depth, st);
      var st1 := Walk(c, h, ps[0].0, depth, st).value.1;
      WalkSound(c, h, ps[0].1, depth, st1);
      WalkPairsSound(c, h, ps[1..], depth, Walk(c, h, ps[0].1, depth, st1).value.1);
    }
  }

  // ---------- Rebuilding the buffers ----------

  ghost predicate BufferHolds(b: Buffer, d: Descriptor, chunk: seq<Byte>) {
    match d
    case BytesDescriptor(_, _) => b == BytesBuffer(chunk)
    case TensorDescriptor(dtype, shape, _, _, _) =>
      b.TensorBuffer? && Some(b.t.dtype) == DtypeByName(dtype) && b.t.shape == shape && b.t.data == chunk
  }

  ghost predicate BuffersHold(buffers: seq<Buffer>, st: EncodeState) {
    && |st.descriptors| == |st.chunks| <= |buffers|
    && forall i | 0 <= i < |st.descriptors| :: BufferHolds(buffers[i], st.descriptors[i], st.chunks[i])
  }

  lemma BuffersHoldPrefix(buffers: seq<Buffer>, st: EncodeState, st': EncodeState)
    requires BuffersHold(buffers, st') && Extends(st, st') && |st.descriptors| == |st.chunks|
    ensures BuffersHold(buffers, st)
  {
  }

  lemma {:induction false} JoinPrefix(chunks: seq<seq<Byte>>, i: nat)
    requires i <= |chunks|
    ensures Join(chunks[..i]) <= Join(chunks)
    decreases |chunks| - i
  {
    if i < |chunks| {
      JoinPrefix(chunks, i + 1);
      assert chunks[..i + 1][..i] == chunks[..i];
    } else {
      assert chunks[..i] == chunks;
    }
  }

  /** The bytes between two consecutive offsets are the chunk. */
  lemma JoinSlice(chunks: seq<seq<Byte>>, i: nat)
    requires i < |chunks|
    ensures |Join(chunks[..i])| + |chunks[i]| == |Join(chunks[..i + 1])| <= |Join(chunks)|
    ensures Join(chunks)[|Join(chunks[..i])|..|Join(chunks[..i])| + |chunks[i]|] == chunks[i]
  {
    JoinPrefix(chunks, i + 1);
    assert chunks[..i + 1][..i] == chunks[..i];
  }

  lemma ShapeJsonRead(shape: seq<nat>)
    ensures NaturalShape(JArray(ShapeJson(shape))) && ShapeOf(ShapeJson(shape)) == shape
  {
  }

  lemma BufferReadBack(c: Codec, st: EncodeState, i: nat)
    requires Sound(c, st) && i < |st.descriptors|
    ensures |Join(st.chunks[..i])| <= |Join(st.chunks)|
    ensures var res := BufferOf(c, DescriptorJson(st.descriptors[i]), Join(st.chunks), |Join(st.chunks[..i])|);
            && res.Ok? && BufferHolds(res.value.0, st.descriptors[i], st.chunks[i])
            && res.value.1 == |Join(st.chunks[..i + 1])|
  {
    JoinSlice(st.chunks, i);
    hide BufferOf;
    hide Join;
    DescriptorReadBack(c, st.descriptors[i], st.chunks[i], Join(st.chunks), |Join(st.chunks[..i])|);
  }

  lemma DescriptorReadBack(c: Codec, d: Descriptor, chunk: seq<Byte>, raw: seq<Byte>, offset: nat)
    requires DescriptorFits(c, d, chunk, offset) && offset + |chunk| <= |raw| && raw[offset..offset + |chunk|] == chunk
    ensures var res := BufferOf(c, DescriptorJson(d), raw, offset);
            res.Ok? && BufferHolds(res.value.0, d, chunk) && res.value.1 == offset + |chunk|
  {
    if d.BytesDescriptor? {
      hide TensorBufferOf;
    } else {
      hide BytesBufferOf;
      ShapeJsonRead(d.shape);
    }
  }

  lemma {:induction false} TableReadBack(c: Codec, st: EncodeState, i: nat)
    requires Sound(c, st) && i <= |st.descriptors|
    ensures |Join(st.chunks[..i])| <= |Join(st.chunks)|
    ensures var res := Table(c, TableJson(st.descriptors)[i..], Join(st.chunks), |Join(st.chunks[..i])|);
            && res.Ok? && res.value.1 == |Join(st.chunks)|
            && |res.value.0| == |st.descriptors| - i
            && forall k | i <= k < |st.descriptors| ::
                 BufferHolds(res.value.0[k - i], st.descriptors[k], st.chunks[k])
    decreases |st.descriptors| - i
  {
    hide BufferOf;
    hide BufferHolds;
    hide Table;
    hide Join;
    JoinPrefix(st.chunks, i);
    var rest := TableJson(st.descriptors)[i..];
    if i < |st.descriptors| {
      BufferReadBack(c, st, i);
      TableReadBack(c, st, i + 1);
      assert rest[0] == DescriptorJson(st.descriptors[i]);
      assert rest[1..] == TableJson(st.descriptors)[i + 1..];
      TableStep(c, rest, Join(st.chunks), |Join(st.chunks[..i])|);
      hide Sound;
    } else {
      assert st.chunks[..i] == st.chunks;
      TableStep(c, rest, Join(st.chunks), |Join(st.chunks[..i])|);
    }
  }

  // ---------- Rebuilding the tree ----------

  lemma BufferNodeReadBack(
    c: Codec, kind: string, d: Descriptor, chunk: seq<Byte>, st: EncodeState, buffers: seq<Buffer>)
    requires |st.descriptors| == |st.chunks| && (kind == "bytes" || kind == "tensor")
    requires AddBuffer(c, kind, d, chunk, st).Ok?
    requires BuffersHold(buffers, AddBuffer(c, kind, d, chunk, st).value.1)
    ensures var (j, st') := AddBuffer(c, kind, d, chunk, st).value;
            && st'.elements == st.elements && IsLeafNode(j)
            && |st.descriptors| < |buffers| && BufferHolds(buffers[|st.descriptors|], d, chunk)
            && ReadLeaf(c, buffers, j) == ReadBuffer(kind, JInt(|st.descriptors|), buffers)
  {
    hide BufferHolds;
    hide ReadBuffer;
    var st' := AddBuffer(c, kind, d, chunk, st).value.1;
    assert BufferHolds(buffers[|st.descriptors|], st'.descriptors[|st.descriptors|], st'.chunks[|st.chunks|]);
  }

  lemma LeafReadBack<R>(c: Codec, o: PyObj<R>, st: EncodeState, buffers: seq<Buffer>)
    requires IsLeaf(o) && |st.descriptors| == |st.chunks|
    requires EncodeLeaf(c, o, st).Ok? && BuffersHold(buffers, EncodeLeaf(c, o, st).value.1)
    ensures LeafValue(o).Some?
    ensures var (j, st') := EncodeLeaf(c, o, st).value;
            && st'.elements == st.elements && IsLeafNode(j)
            && ReadLeaf(c, buffers, j) == Ok(LeafValue(o).value)
  {
    if o.OBytes? {
      hide ReadLeaf;
      hide IsLeafNode;
      BufferNodeReadBack(c, "bytes", BytesDescriptor(st.offset, |o.data|), o.data, st, buffers);
    } else if o.OTensor? {
      hide ReadLeaf;
      hide IsLeafNode;
      DtypeTablesInverse(o.t.dtype, "");
      var numel := Product(o.t.shape);
      BufferNodeReadBack(c, "tensor",
                         TensorDescriptor(DtypeName(o.t.dtype), o.t.shape, st.offset, numel * Width(o.t.dtype), numel),
                         Densify(o.t).data, st, buffers);
    } else {
      hide EncodeLeaf;
      hide ReadLeaf;
      PlainLeafReadBack(c, o, st, buffers);
    }
  }

  lemma PlainLeafReadBack<R>(c: Codec, o: PyObj<R>, st: EncodeState, buffers: seq<Buffer>)
    requires IsLeaf(o) && !o.OBytes? && !o.OTensor? && EncodeLeaf(c, o, st).Ok?
    ensures LeafValue(o).Some?
    ensures var (j, st') := EncodeLeaf(c, o, st).value;
            st' == st && IsLeafNode(j) && ReadLeaf(c, buffers, j) == Ok(LeafValue(o).value)
  {
    hide AddBuffer;
    hide AddTensor;
    hide ReadBuffer;
  }

  predicate IsLeafNode(j: Json) {
    && j.JObject?
    && j.Get("kind") != JStr("list") && j.Get("kind") != JStr("tuple")
    && j.Get("kind") != JStr("dict") && j.Get("kind") != JStr("custom")
  }

  /** The tag of an accepted instance leads back to its own constructor. */
  lemma ReadBackInstance<R>(c: Codec, h: Heap<R>, r: R, depth: nat, st: EncodeState)
    requires c.Consistent() && Walk(c, h, r, depth, st).Ok? && h.view(r).OInstance?
    requires Unfold(h, r, c.Room(depth)).Some? && Faithful(c, Unfold(h, r, c.Room(depth)).value)
    ensures var v := Unfold(h, r, c.Room(depth)).value;
            && v.VCustom? && v.fields.VDict? && v.pyType in c.byType
            && c.byType[v.pyType].tag in c.byTag
            && Rebuild(c, c.byType[v.pyType].tag, v.fields) == Ok(v)
  {
    var fields := h.view(r).fields.value;
    assert StringKeyed(h, fields);
    assert Unfold(h, fields, c.Room(depth) - 1).Some?;
  }

  lemma {:induction false} ReadBack<R>(c: Codec, h: Heap<R>, r: R, depth: nat, st: EncodeState, buffers: seq<Buffer>)
    requires c.Consistent() && Sound(c, st) && Walk(c, h, r, depth, st).Ok?
    requires BuffersHold(buffers, Walk(c, h, r, depth, st).value.1)
    requires Unfold(h, r, c.Room(depth)).Some? && Faithful(c, Unfold(h, r, c.Room(depth)).value)
    ensures var (j, st') := Walk(c, h, r, depth, st).value;
            Read(c, buffers, j, depth, st.elements) == Ok((Unfold(h, r, c.Room(depth)).value, st'.elements))
    decreases c.Room(depth), 0
  {
    hide Sound;
    hide BuffersHold;
    hide Read;
    hide ReadLeaf;
    hide EncodeLeaf;
    hide Rebuild;
    hide IsLeafNode;
    hide Codec.Consistent;
    var st1 := st.(elements := st.elements + 1);
    SoundElements(c, st);
    var o := h.view(r);
    if o.OList? || o.OTuple? {
      ReadBackAll(c, h, o.items, depth + 1, st1, buffers);
      var (js, st2) := WalkAll(c, h, o.items, depth + 1, st1).value;
      ReadSequence(c, buffers, js, depth, st.elements);
    } else if o.ODict? {
      var v := Unfold(h, r, c.Room(depth)).value;
      assert [] + v.entries == v.entries;
      ReadBackPairs(c, h, o.entries, depth + 1, st1, buffers, []);
      var (js, st2) := WalkPairs(c, h, o.entries, depth + 1, st1).value;
      ReadDictionary(c, buffers, js, depth, st.elements);
    } else if o.OInstance? {
      ReadBackInstance(c, h, r, depth, st);
      ReadBack(c, h, o.fields.value, depth + 1, st1, buffers);
      var (j, st2) := Walk(c, h, o.fields.value, depth + 1, st1).value;
      ReadInstance(c, buffers, c.byType[o.pyType].tag, j, depth, st.elements);
    } else {
      SoundLengths(c, st1);
      LeafReadBack(c, o, st1, buffers);
      ReadLeafNode(c, buffers, EncodeLeaf(c, o, st1).value.0, depth, st.elements);
    }
  }

  ghost predicate WithinLimits(c: Codec, depth: nat, elements: nat) {
    depth <= c.limits.maxTreeDepth && elements + 1 <= c.limits.maxContainerElements
  }

  lemma ReadSequence(c: Codec, buffers: seq<Buffer>, js: seq<Json>, depth: nat, elements: nat)
    requires WithinLimits(c, depth, elements) && ReadAll(c, buffers, js, depth + 1, elements + 1).Ok?
    ensures var (vs, n) := ReadAll(c, buffers, js, depth + 1, elements + 1).value;
            && Read(c, buffers, Node1("list", "items", JArray(js)), depth, elements) == Ok((VList(vs), n))
            && Read(c, buffers, Node1("tuple", "items", JArray(js)), depth, elements) == Ok((VTuple(vs), n))
  {
    hide ReadAll;
    hide ReadLeaf;
  }

  lemma ReadDictionary(c: Codec, buffers: seq<Buffer>, js: seq<Json>, depth: nat, elements: nat)
    requires WithinLimits(c, depth, elements) && ReadPairs(c, buffers, js, depth + 1, elements + 1, []).Ok?
    ensures var (es, n) := ReadPairs(c, buffers, js, depth + 1, elements + 1, []).value;
            Read(c, buffers, Node1("dict", "items", JArray(js)), depth, elements) == Ok((VDict(es), n))
  {
    hide ReadPairs;
    hide ReadLeaf;
  }

  lemma ReadInstance(c: Codec, buffers: seq<Buffer>, tag: string, fields: Json, depth: nat, elements: nat)
    requires WithinLimits(c, depth, elements) && tag in c.byTag
    requires Read(c, buffers, fields, depth + 1, elements + 1).Ok?
    requires Rebuild(c, tag, Read(c, buffers, fields, depth + 1, elements + 1).value.0).Ok?
    ensures var (v, n) := Read(c, buffers, fields, depth + 1, elements + 1).value;
            Read(c, buffers, CustomNode(tag, fields), depth, elements) == Ok((Rebuild(c, tag, v).value, n))
  {
    hide Rebuild;
    hide ReadLeaf;
  }

  lemma ReadLeafNode(c: Codec, buffers: seq<Buffer>, j: Json, depth: nat, elements: nat)
    requires WithinLimits(c, depth, elements) && IsLeafNode(j) && ReadLeaf(c, buffers, j).Ok?
    ensures Read(c, buffers, j, depth, elements) == Ok((ReadLeaf(c, buffers, j).value, elements + 1))
  {
    hide ReadLeaf;
  }

  lemma {:induction false} ReadBackAll<R>(
    c: Codec, h: Heap<R>, rs: seq<R>, depth: nat, st: EncodeState, buffers: seq<Buffer>)
    requires c.Consistent() && Sound(c, st) && WalkAll(c, h, rs, depth, st).Ok?
    requires BuffersHold(buffers, WalkAll(c, h, rs, depth, st).value.1)
    requires UnfoldAll(h, rs, c.Room(depth)).Some?
    requires forall v | v in UnfoldAll(h, rs, c.Room(depth)).value :: Faithful(c, v)
    ensures var (js, st') := WalkAll(c, h, rs, depth, st).value;
            ReadAll(c, buffers, js, depth, st.elements) == Ok((UnfoldAll(h, rs, c.Room(depth)).value, st'.elements))
    decreases c.Room(depth), 1, |rs|
  {
    hide Sound;
    hide BuffersHold;
    hide Codec.Consistent;
    if rs != [] {
      var (j, st1) := Walk(c, h, rs[0], depth, st).value;
      WalkSound(c, h, rs[0], depth, st);
      WalkAllSound(c, h, rs[1..], depth, st1);
      SoundLengths(c, st1);
      BuffersHoldPrefix(buffers, st1, WalkAll(c, h, rs, depth, st).value.1);
      ReadBack(c, h, rs[0], depth, st, buffers);
      ReadBackAll(c, h, rs[1..], depth, st1, buffers);
    }
  }

  lemma {:induction false} ReadBackPairs<R>(
    c: Codec, h: Heap<R>, ps: seq<(R, R)>, depth: nat, st: EncodeState, buffers: seq<Buffer>, done: seq<Entry>)
    requires c.Consistent() && Sound(c, st) && WalkPairs(c, h, ps, depth, st).Ok?
    requires BuffersHold(buffers, WalkPairs(c, h, ps, depth, st).value.1)
    requires UnfoldPairs(h, ps, c.Room(depth)).Some?
    requires Faithful(c, VDict(done + UnfoldPairs(h, ps, c.Room(depth)).value))
    ensures var (js, st') := WalkPairs(c, h, ps, depth, st).value;
            ReadPairs(c, buffers, js, depth, st.elements, done)
              == Ok((done + UnfoldPairs(h, ps, c.Room(depth)).value, st'.elements))
    decreases c.Room(depth), 1, |ps|
  {
    hide Sound;
    hide BuffersHold;
    hide Codec.Consistent;
    var es := UnfoldPairs(h, ps, c.Room(depth)).value;
    if ps != [] {
      var (k, st1) := Walk(c, h, ps[0].0, depth, st).value;
      var (v, st2) := Walk(c, h, ps[0].1, depth, st1).value;
      WalkSound(c, h, ps[0].0, depth, st);
      WalkSound(c, h, ps[0].1, depth, st1);
      WalkPairsSound(c, h, ps[1..], depth, st2);
      var st' := WalkPairs(c, h, ps, depth, st).value.1;
      SoundLengths(c, st1);
      SoundLengths(c, st2);
      BuffersHoldPrefix(buffers, st2, st');
      BuffersHoldPrefix(buffers, st1, st');
      assert (done + es)[|done|] == es[0];
      assert es[0] in done + es;
      ReadBack(c, h, ps[0].0, depth, st, buffers);
      ReadBack(c, h, ps[0].1, depth, st1, buffers);
      FirstKeyIsNew(done, es);
      assert done + es == (done + [es[0]]) + es[1..];
      ReadBackPairs(c, h, ps[1..], depth, st2, buffers, done + [es[0]]);
    } else {
      assert done + es == done;
    }
  }

  lemma FirstKeyIsNew(done: seq<Entry>, es: seq<Entry>)
    requires es != [] && DistinctKeys(done + es)
    ensures !HasKey(done, es[0].key)
  {
    forall e | e in done
      ensures !SameKey(e.key, es[0].key)
    {
      var i :| 0 <= i < |done| && done[i] == e;
      assert (done + es)[i] == e && (done + es)[|done|] == es[0];
    }
  }

  // ---------- Main results ----------

  /** Whatever `encode` accepts is a finite tree within the depth limit, and the
      chunks add up to the reported total. */
  lemma EncodedTotal<R>(c: Codec, h: Heap<R>, root: R)
    requires Encode(c, h, root).Ok?
    ensures |Join(Encode(c, h, root).value.chunks)| == Encode(c, h, root).value.totalTensorBytes
    ensures Unfold(h, root, c.limits.maxTreeDepth + 1).Some?
  {
    WalkSound(c, h, root, 0, EMPTY_STATE);
  }

  /** Whatever `encode` accepts, decoding the packet under the same limits and
      adapters raises nothing and gives an equal tree: kinds, order, tags and
      raw bytes included. */
  lemma EncodeDecode<R>(c: Codec, h: Heap<R>, root: R)
    requires c.Consistent() && c.platform.RoundTrips()
    requires Encode(c, h, root).Ok?
    ensures Unfold(h, root, c.limits.maxTreeDepth + 1).Some?
    ensures var p, v := Encode(c, h, root).value, Unfold(h, root, c.limits.maxTreeDepth + 1).value;
            Faithful(c, v) ==> Decode(c, p.metadata, Join(p.chunks)) == Ok(v)
  {
    var (j, st) := Walk(c, h, root, 0, EMPTY_STATE).value;
    assert Sound(c, EMPTY_STATE);
    WalkSound(c, h, root, 0, EMPTY_STATE);
    var p, v := Encode(c, h, root).value, Unfold(h, root, c.limits.maxTreeDepth + 1).value;
    if Faithful(c, v) {
      var raw := Join(st.chunks);
      TableReadBack(c, st, 0);
      assert st.chunks[..0] == [] && TableJson(st.descriptors)[0..] == TableJson(st.descriptors);
      var buffers := Table(c, TableJson(st.descriptors), raw, 0).value.0;
      assert BuffersHold(buffers, st) by {
        forall i | 0 <= i < |st.descriptors|
          ensures BufferHolds(buffers[i], st.descriptors[i], st.chunks[i])
        {
          assert buffers[i - 0] == buffers[i];
        }
      }
      ReadBack(c, h, root, 0, EMPTY_STATE, buffers);
      var envelope := Envelope(j, st.descriptors);
      EnvelopePrintable(c, h, root);
      assert c.platform.parse(p.metadata) == Some(envelope);
      assert envelope.Get("tensors") == JArray(TableJson(st.descriptors));
      assert envelope.Get("root") == j;
      assert SchemaOne(envelope.Get("schema"));
    }
  }

  /** The same for a tree of values: what comes back is the tree itself. */
  lemma EncodeDecodeTree(c: Codec, v: Value)
    requires c.Consistent() && c.platform.RoundTrips() && Faithful(c, v)
    requires Encode(c, TreeHeap(), v).Ok?
    ensures var p := Encode(c, TreeHeap(), v).value;
            Decode(c, p.metadata, Join(p.chunks)) == Ok(v)
  {
    EncodeDecode(c, TreeHeap(), v);
    UnfoldTree(v, c.limits.maxTreeDepth + 1);
  }
}
