/** Two packets that show where decoding leaves the packet: defaults that exceed
    the limits, and fields listed out of order. */
module FieldExamples {
  import opened Floats
  import opened Results
  import opened Tensors
  import opened Values
  import opened Packets
  import opened Printing
  import opened RoundTrip
  import opened DecodeLimits
  import opened Linearity
  import opened Adapters
  import opened FieldOrder

  lemma DecodeEnvelope(c: Codec, root: Json, ds: seq<Descriptor>, raw: seq<Byte>)
    requires c.platform.RoundTrips() && Printable(root)
    requires |c.platform.render(Envelope(root, ds))| <= c.limits.maxMetadataBytes
    requires |raw| <= c.limits.maxTensorBytes && |ds| <= c.limits.maxTensorCount
    requires Table(c, TableJson(ds), raw, 0).Ok? && Table(c, TableJson(ds), raw, 0).value.1 == |raw|
    requires Read(c, Table(c, TableJson(ds), raw, 0).value.0, root, 0, 0).Ok?
    ensures Decode(c, c.platform.render(Envelope(root, ds)), raw)
              == Ok(Read(c, Table(c, TableJson(ds), raw, 0).value.0, root, 0, 0).value.0)
  {
    hide Table;
    hide Read;
    var envelope := Envelope(root, ds);
    TablePrintable(ds);
    assert Printable(envelope);
    assert envelope.Get("tensors") == JArray(TableJson(ds)) && envelope.Get("root") == root;
    assert SchemaOne(envelope.Get("schema"));
  }

  function EmptyFields(): Json {
    Node1("dict", "items", JArray([]))
  }

  function OneField(value: Value): Value {
    VDict([Entry(VStr("xs"), value)])
  }

  /** Limits that let a packet of this size through. */
  predicate Admits(c: Codec, root: Json, ds: seq<Descriptor>, bytes: nat, depth: nat, elements: nat) {
    && |c.platform.render(Envelope(root, ds))| <= c.limits.maxMetadataBytes
    && bytes <= c.limits.maxTensorBytes && |ds| <= c.limits.maxTensorCount
    && depth <= c.limits.maxTreeDepth && elements <= c.limits.maxContainerElements
  }

  lemma EmptyFieldsRead(c: Codec, value: Value)
    requires "t" in c.byTag && c.byTag["t"] == DataclassAdapter("t", "T", Dataclass(["xs"], map["xs" := value]))
    requires 1 <= c.limits.maxTreeDepth && 2 <= c.limits.maxContainerElements
    ensures Read(c, [], CustomNode("t", EmptyFields()), 0, 0) == Ok((VCustom("T", OneField(value)), 2))
  {
    var d := Dataclass(["xs"], map["xs" := value]);
    assert ReadPairs(c, [], [], 2, 2, []) == Ok(([], 2));
    ReadDictionary(c, [], [], 1, 1);
    assert FieldDict([], d.names, d.defaults) == OneField(value).entries;
    assert Construct("T", d, VDict([])) == Some(VCustom("T", OneField(value)));
    assert Rebuild(c, "t", VDict([])) == Ok(VCustom("T", OneField(value)));
    hide Read;
    hide ReadPairs;
    hide Rebuild;
    hide Construct;
    hide FieldDict;
    ReadInstance(c, [], "t", EmptyFields(), 0, 0);
  }

  lemma OneFieldCount(value: Value)
    ensures Count(VCustom("T", OneField(value))) == 3 + Count(value)
  {
    var e := Entry(VStr("xs"), value);
    assert [e][..0] == [] && CountEntries([e]) == CountEntries([]) + CountEntry(e);
    InstanceCount("T", [e]);
  }

  lemma EmptyPrintable()
    ensures Printable(CustomNode("t", EmptyFields()))
  {
    assert Printable(JArray([])) && Printable(EmptyFields());
  }

  lemma NoTable(c: Codec)
    ensures TableJson([]) == [] && Table(c, [], [], 0) == Ok(([], 0))
  {
  }

  /** A packet with an empty field dictionary: the walk counts two nodes, while
      the tree also has whatever the default holds, however large. So the
      element limit does not limit what `decode` returns. */
  lemma DefaultsExceedLimit(c: Codec, value: Value)
    requires "t" in c.byTag && c.byTag["t"] == DataclassAdapter("t", "T", Dataclass(["xs"], map["xs" := value]))
    requires c.platform.RoundTrips() && Admits(c, CustomNode("t", EmptyFields()), [], 0, 1, 2)
    ensures var metadata := c.platform.render(Envelope(CustomNode("t", EmptyFields()), []));
            var v := VCustom("T", OneField(value));
            && Decode(c, metadata, []) == Ok(v) && Count(v) == 3 + Count(value)
            && (Count(value) + 3 > c.limits.maxContainerElements ==> Count(v) > c.limits.maxContainerElements)
  {
    var root := CustomNode("t", EmptyFields());
    assert |c.platform.render(Envelope(root, []))| <= c.limits.maxMetadataBytes;
    EmptyPrintable();
    hide *;
    EmptyFieldsRead(c, value);
    OneFieldCount(value);
    NoTable(c);
    DecodeEnvelope(c, CustomNode("t", EmptyFields()), [], []);
  }

  /** The same packet under a depth limit of one: the default's name is already
      too deep, whatever its value. */
  lemma DefaultsExceedDepth(c: Codec, value: Value)
    requires "t" in c.byTag && c.byTag["t"] == DataclassAdapter("t", "T", Dataclass(["xs"], map["xs" := value]))
    requires c.platform.RoundTrips() && Admits(c, CustomNode("t", EmptyFields()), [], 0, 1, 2)
    requires c.limits.maxTreeDepth == 1
    ensures var metadata := c.platform.render(Envelope(CustomNode("t", EmptyFields()), []));
            var v := VCustom("T", OneField(value));
            Decode(c, metadata, []) == Ok(v) && !HeightAtMost(v, c.limits.maxTreeDepth)
  {
    DefaultsExceedLimit(c, value);
    OneFieldHeight(value, 1);
    hide Decode;
    hide HeightAtMost;
  }

  lemma OneFieldHeight(value: Value, n: int)
    ensures HeightAtMost(VCustom("T", OneField(value)), n) <==> HeightAtMost(value, n - 2)
  {
    var e := Entry(VStr("xs"), value);
    assert OneField(value).entries == [e];
    assert e in OneField(value).entries;
    assert HeightAtMost(OneField(value), n - 1) <==>
             n >= 1 && HeightAtMost(e.key, n - 2) && HeightAtMost(e.val, n - 2);
  }

  /** The same packet with a default that is no number: `decode` returns a float
      it refuses to read and `encode` refuses to send. */
  lemma DefaultsExceedLeaves(c: Codec)
    requires "t" in c.byTag && c.byTag["t"] == DataclassAdapter("t", "T", Dataclass(["xs"], map["xs" := VFloat(NaN)]))
    requires c.platform.RoundTrips() && Admits(c, CustomNode("t", EmptyFields()), [], 0, 1, 2)
    ensures var metadata := c.platform.render(Envelope(CustomNode("t", EmptyFields()), []));
            var v := VCustom("T", OneField(VFloat(NaN)));
            Decode(c, metadata, []) == Ok(v) && !Within(c, v)
  {
    DefaultsExceedLimit(c, VFloat(NaN));
    hide Decode;
    var e := Entry(VStr("xs"), VFloat(NaN));
    assert e in OneField(VFloat(NaN)).entries && !Within(c, e.val);
  }

  function StrNode(s: string): Json {
    Node1("str", "value", JStr(s))
  }

  function BytesNode(index: nat): Json {
    Node1("bytes", "index", JInt(index))
  }

  function NamedField(name: string, index: nat): Json {
    JArray([StrNode(name), BytesNode(index)])
  }

  /** An instance of a class with fields `a` and `b` that lists `b` first. */
  function Swapped(): Json {
    CustomNode("t", Node1("dict", "items", JArray([NamedField("b", 0), NamedField("a", 1)])))
  }

  function TwoDescriptors(x: seq<Byte>, y: seq<Byte>): seq<Descriptor> {
    [BytesDescriptor(0, |x|), BytesDescriptor(|x|, |y|)]
  }

  function TwoFields(a: Value, b: Value): Value {
    VCustom("T", VDict([Entry(VStr("a"), a), Entry(VStr("b"), b)]))
  }

  lemma NamedFieldRead(c: Codec, buffers: seq<Buffer>, name: string, index: nat, depth: nat, elements: nat)
    requires index < |buffers| && buffers[index].BytesBuffer? && |name| == 1 && name[0] < '\U{80}'
    requires depth <= c.limits.maxTreeDepth && elements + 2 <= c.limits.maxContainerElements
    ensures var p := NamedField(name, index);
            && p.JArray? && |p.items| == 2
            && Read(c, buffers, p.items[0], depth, elements) == Ok((VStr(name), elements + 1))
            && Read(c, buffers, p.items[1], depth, elements + 1) == Ok((VBytes(buffers[index].data), elements + 2))
  {
    assert name[1..] == [] && Utf8Length(name) == 1;
  }

  lemma NewKeys(x: Value)
    ensures Hashable(VStr("a")) && Hashable(VStr("b"))
    ensures !HasKey([], VStr("b")) && !HasKey([Entry(VStr("b"), x)], VStr("a"))
  {
  }

  lemma ReadPairsStep(
    c: Codec, buffers: seq<Buffer>, p: Json, rest: seq<Json>, depth: nat, elements: nat, done: seq<Entry>, e: Entry)
    requires p.JArray? && |p.items| == 2 && Hashable(e.key) && !HasKey(done, e.key)
    requires Read(c, buffers, p.items[0], depth, elements) == Ok((e.key, elements + 1))
    requires Read(c, buffers, p.items[1], depth, elements + 1) == Ok((e.val, elements + 2))
    ensures ReadPairs(c, buffers, [p] + rest, depth, elements, done)
              == ReadPairs(c, buffers, rest, depth, elements + 2, done + [e])
  {
    hide Read;
    assert ([p] + rest)[1..] == rest;
  }

  lemma SwappedFieldsRead(c: Codec, x: seq<Byte>, y: seq<Byte>)
    requires 2 <= c.limits.maxTreeDepth && 6 <= c.limits.maxContainerElements
    ensures ReadPairs(c, [BytesBuffer(x), BytesBuffer(y)], [NamedField("b", 0), NamedField("a", 1)], 2, 2, [])
              == Ok(([Entry(VStr("b"), VBytes(x)), Entry(VStr("a"), VBytes(y))], 6))
  {
    hide *;
    var buffers := [BytesBuffer(x), BytesBuffer(y)];
    var p, q := NamedField("b", 0), NamedField("a", 1);
    var e, f := Entry(VStr("b"), VBytes(x)), Entry(VStr("a"), VBytes(y));
    NamedFieldRead(c, buffers, "b", 0, 2, 2);
    NamedFieldRead(c, buffers, "a", 1, 2, 4);
    NewKeys(VBytes(x));
    ReadPairsStep(c, buffers, p, [q], 2, 2, [], e);
    ReadPairsStep(c, buffers, q, [], 2, 4, [e], f);
    NoPairsRead(c, buffers, 2, 6, [e, f]);
    assert [p] + [q] == [p, q] && [q] + [] == [q] && [] + [e] == [e] && [e] + [f] == [e, f];
  }

  lemma NoPairsRead(c: Codec, buffers: seq<Buffer>, depth: nat, elements: nat, done: seq<Entry>)
    ensures ReadPairs(c, buffers, [], depth, elements, done) == Ok((done, elements))
  {
  }

  lemma SwappedRebuild(c: Codec, x: seq<Byte>, y: seq<Byte>)
    requires "t" in c.byTag && c.byTag["t"] == DataclassAdapter("t", "T", Dataclass(["a", "b"], map[]))
    ensures Rebuild(c, "t", VDict([Entry(VStr("b"), VBytes(x)), Entry(VStr("a"), VBytes(y))]))
              == Ok(TwoFields(VBytes(y), VBytes(x)))
  {
    var es := [Entry(VStr("b"), VBytes(x)), Entry(VStr("a"), VBytes(y))];
    FindAt(es, 1, "a");
    FindAt(es, 0, "b");
    hide Find;
    assert FieldDict(es, ["a", "b"], map[]) == [Entry(VStr("a"), VBytes(y)), Entry(VStr("b"), VBytes(x))];
    assert Construct("T", Dataclass(["a", "b"], map[]), VDict(es)) == Some(TwoFields(VBytes(y), VBytes(x)));
  }

  lemma SwappedRead(c: Codec, x: seq<Byte>, y: seq<Byte>)
    requires "t" in c.byTag && c.byTag["t"] == DataclassAdapter("t", "T", Dataclass(["a", "b"], map[]))
    requires 2 <= c.limits.maxTreeDepth && 6 <= c.limits.maxContainerElements
    ensures Read(c, [BytesBuffer(x), BytesBuffer(y)], Swapped(), 0, 0) == Ok((TwoFields(VBytes(y), VBytes(x)), 6))
  {
    hide Read;
    hide ReadPairs;
    hide Rebuild;
    hide NamedField;
    var buffers := [BytesBuffer(x), BytesBuffer(y)];
    var pairs := [NamedField("b", 0), NamedField("a", 1)];
    SwappedFieldsRead(c, x, y);
    ReadDictionary(c, buffers, pairs, 1, 1);
    SwappedRebuild(c, x, y);
    ReadInstance(c, buffers, "t", Node1("dict", "items", JArray(pairs)), 0, 0);
  }

  lemma BytesDescriptorRead(c: Codec, raw: seq<Byte>, i: nat, n: nat)
    requires i + n <= |raw|
    ensures BufferOf(c, DescriptorJson(BytesDescriptor(i, n)), raw, i) == Ok((BytesBuffer(raw[i..i + n]), i + n))
  {
    hide TensorBufferOf;
  }

  lemma TwoBuffersRead(c: Codec, x: seq<Byte>, y: seq<Byte>)
    ensures Table(c, TableJson(TwoDescriptors(x, y)), x + y, 0)
              == Ok(([BytesBuffer(x), BytesBuffer(y)], |x| + |y|))
  {
    var raw, ds := x + y, TwoDescriptors(x, y);
    assert raw[0..|x|] == x && raw[|x|..|x| + |y|] == y;
    var first, second := DescriptorJson(ds[0]), DescriptorJson(ds[1]);
    BytesDescriptorRead(c, raw, 0, |x|);
    BytesDescriptorRead(c, raw, |x|, |y|);
    assert TableJson(ds) == [first, second];
    hide *;
    assert [first, second][1..] == [second] && [second][1..] == [];
    TableStep(c, [first, second], raw, 0);
    TableStep(c, [second], raw, |x|);
    TableStep(c, [], raw, |x| + |y|);
    assert [BytesBuffer(y)] + [] == [BytesBuffer(y)];
    assert [BytesBuffer(x)] + [BytesBuffer(y)] == [BytesBuffer(x), BytesBuffer(y)];
  }

  // ---------- Encoding the instance again ----------

  /** The same instance with its fields in declaration order. */
  function Ordered(): Json {
    CustomNode("t", Node1("dict", "items", JArray([NamedField("a", 0), NamedField("b", 1)])))
  }

  function WithBytes(st: EncodeState, data: seq<Byte>): EncodeState {
    EncodeState(st.descriptors + [BytesDescriptor(st.offset, |data|)], st.chunks + [data],
                st.offset + |data|, st.elements + 2)
  }

  lemma NamedFieldWalk(c: Codec, name: string, data: seq<Byte>, st: EncodeState)
    requires |name| == 1 && name[0] < '\U{80}' && 2 <= c.limits.maxTreeDepth
    requires st.elements + 2 <= c.limits.maxContainerElements
    requires st.offset + |data| <= c.limits.maxTensorBytes && |st.descriptors| < c.limits.maxTensorCount
    ensures var st1 := st.(elements := st.elements + 1);
            && Walk(c, TreeHeap(), VStr(name), 2, st) == Ok((StrNode(name), st1))
            && Walk(c, TreeHeap(), VBytes(data), 2, st1) == Ok((BytesNode(|st.descriptors|), WithBytes(st, data)))
  {
    assert name[1..] == [] && Utf8Length(name) == 1;
  }

  lemma NamedFieldsWalk(
    c: Codec, name: string, data: seq<Byte>, rest: seq<(Value, Value)>, st: EncodeState, js: seq<Json>,
    st': EncodeState)
    requires |name| == 1 && name[0] < '\U{80}' && 2 <= c.limits.maxTreeDepth
    requires st.elements + 2 <= c.limits.maxContainerElements
    requires st.offset + |data| <= c.limits.maxTensorBytes && |st.descriptors| < c.limits.maxTensorCount
    requires WalkPairs(c, TreeHeap(), rest, 2, WithBytes(st, data)) == Ok((js, st'))
    ensures WalkPairs(c, TreeHeap(), [(VStr(name), VBytes(data))] + rest, 2, st)
              == Ok(([NamedField(name, |st.descriptors|)] + js, st'))
  {
    NamedFieldWalk(c, name, data, st);
    hide Walk;
    hide TreeHeap;
    hide WithBytes;
    var ps := [(VStr(name), VBytes(data))] + rest;
    assert ps[0] == (VStr(name), VBytes(data)) && ps[1..] == rest;
  }

  predicate Roomy(c: Codec, bytes: nat) {
    && bytes <= c.limits.maxTensorBytes && 2 <= c.limits.maxTensorCount
    && 2 <= c.limits.maxTreeDepth && 6 <= c.limits.maxContainerElements
  }

  lemma TwoPairsWalk(c: Codec, x: seq<Byte>, y: seq<Byte>)
    requires Roomy(c, |x| + |y|)
    ensures WalkPairs(c, TreeHeap(), [(VStr("a"), VBytes(x)), (VStr("b"), VBytes(y))], 2, EncodeState([], [], 0, 2))
              == Ok(([NamedField("a", 0), NamedField("b", 1)],
                     EncodeState(TwoDescriptors(x, y), [x, y], |x| + |y|, 6)))
  {
    hide Walk;
    hide TreeHeap;
    hide NamedField;
    var st0 := EncodeState([], [], 0, 2);
    var st1 := WithBytes(st0, x);
    var st2 := WithBytes(st1, y);
    assert st1.descriptors == [BytesDescriptor(0, |x|)] && st1.chunks == [x];
    assert st2 == EncodeState(TwoDescriptors(x, y), [x, y], |x| + |y|, 6);
    assert WalkPairs(c, TreeHeap(), [], 2, st2) == Ok(([], st2));
    hide WalkPairs;
    NamedFieldsWalk(c, "b", y, [], st1, [], st2);
    assert [NamedField("b", 1)] + [] == [NamedField("b", 1)];
    assert [(VStr("b"), VBytes(y))] + [] == [(VStr("b"), VBytes(y))];
    NamedFieldsWalk(c, "a", x, [(VStr("b"), VBytes(y))], st0, [NamedField("b", 1)], st2);
    assert [NamedField("a", 0)] + [NamedField("b", 1)] == [NamedField("a", 0), NamedField("b", 1)];
    assert [(VStr("a"), VBytes(x))] + [(VStr("b"), VBytes(y))] == [(VStr("a"), VBytes(x)), (VStr("b"), VBytes(y))];
  }

  lemma OrderedWalk(c: Codec, x: seq<Byte>, y: seq<Byte>)
    requires Roomy(c, |x| + |y|) && "T" in c.byType && c.byType["T"].tag == "t"
    ensures Walk(c, TreeHeap(), TwoFields(VBytes(x), VBytes(y)), 0, EMPTY_STATE)
              == Ok((Ordered(), EncodeState(TwoDescriptors(x, y), [x, y], |x| + |y|, 6)))
  {
    hide EncodeLeaf;
    hide WalkAll;
    hide WalkPairs;
    hide NamedField;
    hide TwoDescriptors;
    TwoPairsWalk(c, x, y);
    var h, v := TreeHeap(), TwoFields(VBytes(x), VBytes(y));
    var ps := [(VStr("a"), VBytes(x)), (VStr("b"), VBytes(y))];
    assert h.view(v.fields).entries == ps;
    assert StringKeyed(h, v.fields);
    assert Walk(c, h, v.fields, 1, EncodeState([], [], 0, 1)).Ok?;
  }

  lemma OrderedEncodes(c: Codec, x: seq<Byte>, y: seq<Byte>)
    requires c.Consistent() && "t" in c.byTag && c.byTag["t"].pyType == "T"
    requires Roomy(c, |x| + |y|) && Admits(c, Ordered(), TwoDescriptors(x, y), |x| + |y|, 2, 6)
    ensures Encode(c, TreeHeap(), TwoFields(VBytes(x), VBytes(y))).Ok?
  {
    OrderedWalk(c, x, y);
    hide Walk;
    hide Ordered;
    hide TwoDescriptors;
  }

  /** A packet that lists a class's fields out of order: it decodes, and encoding
      the result puts the buffers the other way round. */
  lemma SwappedReencodes(c: Codec, x: seq<Byte>, y: seq<Byte>)
    requires "t" in c.byTag && c.byTag["t"] == DataclassAdapter("t", "T", Dataclass(["a", "b"], map[]))
    requires c.Consistent() && c.platform.RoundTrips()
    requires Admits(c, Swapped(), TwoDescriptors(x, y), |x| + |y|, 2, 6)
    requires Admits(c, Ordered(), TwoDescriptors(y, x), |x| + |y|, 2, 6)
    ensures var metadata := c.platform.render(Envelope(Swapped(), TwoDescriptors(x, y)));
            var v := TwoFields(VBytes(y), VBytes(x));
            && Trace(Swapped()) == [("bytes", 0), ("bytes", 1)]
            && Decode(c, metadata, x + y) == Ok(v)
            && Encode(c, TreeHeap(), v).Ok? && Join(Encode(c, TreeHeap(), v).value.chunks) == y + x
  {
    var v := TwoFields(VBytes(y), VBytes(x));
    var ds := TwoDescriptors(x, y);
    assert Admits(c, Swapped(), ds, |x| + |y|, 2, 6);
    assert |c.platform.render(Envelope(Swapped(), ds))| <= c.limits.maxMetadataBytes && |ds| == 2;
    assert Roomy(c, |y| + |x|) && c.byTag["t"].pyType == "T";
    hide *;
    SwappedRead(c, x, y);
    TwoBuffersRead(c, x, y);
    SwappedTrace();
    TwoFieldsRaw(y, x);
    DecodeEnvelope(c, Swapped(), ds, x + y);
    OrderedEncodes(c, y, x);
    EncodedRaw(c, v);
  }

  lemma TwoFieldsRaw(x: seq<Byte>, y: seq<Byte>)
    ensures RawOf(TwoFields(VBytes(x), VBytes(y))) == x + y
  {
    var e, f := Entry(VStr("a"), VBytes(x)), Entry(VStr("b"), VBytes(y));
    assert RawEntry(e) == x && RawEntry(f) == y;
    assert [e, f] == [e] + [f] && [] + [e] == [e];
    RawEntriesOne([], e);
    RawEntriesOne([e], f);
  }

  lemma SwappedNode()
    ensures Swapped() == CustomNode("t", Node1("dict", "items", JArray([NamedField("b", 0), NamedField("a", 1)])))
  {
  }

  lemma SwappedTrace()
    ensures Trace(Swapped()) == [("bytes", 0), ("bytes", 1)] && Printable(Swapped())
  {
    var p, q := NamedField("b", 0), NamedField("a", 1);
    SwappedNode();
    hide *;
    NamedFieldTrace("b", 0);
    NamedFieldTrace("a", 1);
    TwoPairsTrace(p, q);
    DictionaryTrace("t", [p, q]);
    assert [("bytes", 0)] + [("bytes", 1)] == [("bytes", 0), ("bytes", 1)];
  }

  lemma DictionaryTrace(tag: string, pairs: seq<Json>)
    ensures Trace(CustomNode(tag, Node1("dict", "items", JArray(pairs)))) == TracePairs(pairs)
    ensures (forall p | p in pairs :: Printable(p)) ==>
              Printable(CustomNode(tag, Node1("dict", "items", JArray(pairs))))
  {
    hide TracePairs;
    var fields := Node1("dict", "items", JArray(pairs));
    assert Trace(fields) == TracePairs(pairs);
    assert (forall p | p in pairs :: Printable(p)) ==> Printable(JArray(pairs)) && Printable(fields);
  }

  lemma TwoPairsTrace(p: Json, q: Json)
    requires p.JArray? && q.JArray?
    ensures TracePairs([p, q]) == TraceAll(p.items) + TraceAll(q.items)
  {
    hide Trace;
    hide TraceAll;
    assert [p, q][1..] == [q] && [q][1..] == [];
    assert TracePairs([q]) == TraceAll(q.items) + TracePairs([]);
  }

  lemma NamedFieldTrace(name: string, index: nat)
    ensures var p := NamedField(name, index);
            p.JArray? && Printable(p) && TraceAll(p.items) == [("bytes", index)]
  {
    TraceTwo(StrNode(name), BytesNode(index));
  }
}
