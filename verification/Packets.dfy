/** The packet codec as functions: what `encode` and `decode` compute, with the
    counters and tables they update threaded explicitly. */
module Packets {
  import opened Floats
  import opened Results
  import opened Tensors
  import opened Values

  datatype ProtocolLimits = ProtocolLimits(
    maxMetadataBytes: int, maxTensorBytes: int, maxTensorCount: int, maxTreeDepth: int,
    maxContainerElements: int, maxTensorRank: int, maxTensorElements: int, maxStringBytes: int)

  /** Every protocol limit is positive. */
  type Limits = l: ProtocolLimits |
      && l.maxMetadataBytes > 0 && l.maxTensorBytes > 0 && l.maxTensorCount > 0
      && l.maxTreeDepth > 0 && l.maxContainerElements > 0 && l.maxTensorRank > 0
      && l.maxTensorElements > 0 && l.maxStringBytes > 0
    witness ProtocolLimits(1, 1, 1, 1, 1, 1, 1, 1)

  /** A class the codec may rebuild: its tag, its name, and the constructor
      `decode_fields`, which may raise. */
  datatype TypeAdapter = TypeAdapter(tag: string, pyType: string, decodeFields: Value -> Option<Value>)

  /** JSON text and integer-to-double conversion, taken from the platform. */
  datatype Platform = Platform(
    render: Json -> seq<Byte>, parse: seq<Byte> -> Option<Json>, intToFloat: int -> Option<PyFloat>)
  {
    /** Parsing what was printed gives it back, for every tree the JSON grammar
        can express (RFC 8259). */
    ghost predicate RoundTrips() {
      forall j: Json | Printable(j) :: parse(render(j)) == Some(j)
    }
  }

  datatype Codec = Codec(
    limits: Limits, byTag: map<string, TypeAdapter>, byType: map<string, TypeAdapter>, platform: Platform)
  {
    /** The two adapter tables hold the same adapters. */
    ghost predicate Consistent() {
      && (forall tag | tag in byTag :: byTag[tag].tag == tag
            && byTag[tag].pyType in byType && byType[byTag[tag].pyType] == byTag[tag])
      && (forall ty | ty in byType :: byType[ty].pyType == ty
            && byType[ty].tag in byTag && byTag[byType[ty].tag] == byType[ty])
    }

    /** How many more levels the walk may open from `depth`. */
    function Room(depth: nat): nat {
      if depth <= limits.maxTreeDepth then limits.maxTreeDepth + 1 - depth else 0
    }
  }

  datatype Descriptor =
    | BytesDescriptor(offset: nat, nbytes: nat)
    | TensorDescriptor(dtype: string, shape: seq<nat>, offset: nat, nbytes: nat, numel: nat)

  /** The encoder's running tables and counters. */
  datatype EncodeState = EncodeState(
    descriptors: seq<Descriptor>, chunks: seq<seq<Byte>>, offset: nat, elements: nat)

  const EMPTY_STATE := EncodeState([], [], 0, 0)

  datatype Packet = Packet(metadata: seq<Byte>, chunks: seq<seq<Byte>>, totalTensorBytes: nat)

  // ---------- JSON shapes ----------

  function Node(kind: string): Json {
    JObject(map["kind" := JStr(kind)])
  }

  function Node1(kind: string, name: string, payload: Json): Json {
    JObject(map["kind" := JStr(kind), name := payload])
  }

  function CustomNode(tag: string, fields: Json): Json {
    JObject(map["kind" := JStr("custom"), "tag" := JStr(tag), "fields" := fields])
  }

  function ShapeJson(shape: seq<nat>): seq<Json> {
    seq(|shape|, i requires 0 <= i < |shape| => JInt(shape[i]))
  }

  function DescriptorJson(d: Descriptor): Json {
    match d
    case BytesDescriptor(offset, nbytes) =>
      JObject(map["kind" := JStr("bytes"), "offset" := JInt(offset), "nbytes" := JInt(nbytes)])
    case TensorDescriptor(dtype, shape, offset, nbytes, numel) =>
      JObject(map["kind" := JStr("tensor"), "dtype" := JStr(dtype), "shape" := JArray(ShapeJson(shape)),
              "offset" := JInt(offset), "nbytes" := JInt(nbytes), "numel" := JInt(numel)])
  }

  function TableJson(ds: seq<Descriptor>): seq<Json> {
    seq(|ds|, i requires 0 <= i < |ds| => DescriptorJson(ds[i]))
  }

  function Envelope(root: Json, ds: seq<Descriptor>): Json {
    JObject(map["schema" := JInt(1), "root" := root, "tensors" := JArray(TableJson(ds))])
  }

  function Join(chunks: seq<seq<Byte>>): seq<Byte> {
    if chunks == [] then [] else Join(chunks[..|chunks| - 1]) + chunks[|chunks| - 1]
  }

  // ---------- Encoding ----------

  /** Record one raw buffer; its node names the buffer's index. */
  function AddBuffer(c: Codec, kind: string, d: Descriptor, chunk: seq<Byte>, st: EncodeState)
    : Result<(Json, EncodeState)>
  {
    if st.offset + d.nbytes > c.limits.maxTensorBytes then Err(InvalidObject)
    else if |st.descriptors| >= c.limits.maxTensorCount then Err(InvalidObject)
    else
      Ok((Node1(kind, "index", JInt(|st.descriptors|)),
          st.(descriptors := st.descriptors + [d], chunks := st.chunks + [chunk],
              offset := st.offset + d.nbytes)))
  }

  function AddTensor(c: Codec, t: View, st: EncodeState): Result<(Json, EncodeState)> {
    if t.dtype.Unsupported? then Err(InvalidObject)
    else if |t.shape| > c.limits.maxTensorRank || Product(t.shape) > c.limits.maxTensorElements then
      Err(InvalidObject)
    else
      var numel := Product(t.shape);
      var d := TensorDescriptor(DtypeName(t.dtype), t.shape, st.offset, numel * Width(t.dtype), numel);
      AddBuffer(c, "tensor", d, Densify(t).data, st)
  }

  predicate StringKeyed<R>(h: Heap<R>, fields: R) {
    var o := h.view(fields);
    o.ODict? && forall i | 0 <= i < |o.entries| :: h.view(o.entries[i].0).OStr?
  }

  /** The node of an object without references, once it has been counted. */
  function EncodeLeaf<R>(c: Codec, o: PyObj<R>, st: EncodeState): Result<(Json, EncodeState)>
    requires IsLeaf(o)
  {
    match o
    case ONone => Ok((Node("none"), st))
    case OBool(b) => Ok((Node1("bool", "value", JBool(b)), st))
    case OInt(i) =>
      if -0x8000_0000_0000_0000 <= i < 0x8000_0000_0000_0000 then
        Ok((Node1("int", "value", JInt(i)), st))
      else Err(InvalidObject)
    case OFloat(f) =>
      if f.Finite? then Ok((Node1("float", "value", JFloat(f)), st)) else Err(InvalidObject)
    case OStr(s) =>
      if Utf8Length(s) > c.limits.maxStringBytes then Err(InvalidObject)
      else Ok((Node1("str", "value", JStr(s)), st))
    case OBytes(data) => AddBuffer(c, "bytes", BytesDescriptor(st.offset, |data|), data, st)
    case OTensor(t) => AddTensor(c, t, st)
    case OValueError(message) =>
      if Utf8Length(message) > c.limits.maxStringBytes then Err(InvalidObject)
      else Ok((Node1("value_error_placeholder", "message", JStr(message)), st))
  }

  function Walk<R>(c: Codec, h: Heap<R>, r: R, depth: nat, st: EncodeState): Result<(Json, EncodeState)>
    decreases c.Room(depth), 0
  {
    if depth > c.limits.maxTreeDepth then Err(InvalidObject)
    else if st.elements + 1 > c.limits.maxContainerElements then Err(InvalidObject)
    else
      var st1 := st.(elements := st.elements + 1);
      var o := h.view(r);
      if o.OList? then
        var (js, st2) :- WalkAll(c, h, o.items, depth + 1, st1);
        Ok((Node1("list", "items", JArray(js)), st2))
      else if o.OTuple? then
        var (js, st2) :- WalkAll(c, h, o.items, depth + 1, st1);
        Ok((Node1("tuple", "items", JArray(js)), st2))
      else if o.ODict? then
        var (js, st2) :- WalkPairs(c, h, o.entries, depth + 1, st1);
        Ok((Node1("dict", "items", JArray(js)), st2))
      else if o.OInstance? then
        if o.pyType !in c.byType then Err(InvalidObject)
        else if o.fields.None? then Err(Uncaught)
        else if !StringKeyed(h, o.fields.value) then Err(InvalidObject)
        else
          var (j, st2) :- Walk(c, h, o.fields.value, depth + 1, st1);
          Ok((CustomNode(c.byType[o.pyType].tag, j), st2))
      else EncodeLeaf(c, o, st1)
  }

  function WalkAll<R>(c: Codec, h: Heap<R>, rs: seq<R>, depth: nat, st: EncodeState)
    : (res: Result<(seq<Json>, EncodeState)>)
    ensures res.Ok? ==> |res.value.0| == |rs|
    decreases c.Room(depth), 1, |rs|
  {
    if rs == [] then Ok(([], st))
    else
      var (j, st1) :- Walk(c, h, rs[0], depth, st);
      var (js, st2) :- WalkAll(c, h, rs[1..], depth, st1);
      Ok(([j] + js, st2))
  }

  function WalkPairs<R>(c: Codec, h: Heap<R>, ps: seq<(R, R)>, depth: nat, st: EncodeState)
    : (res: Result<(seq<Json>, EncodeState)>)
    ensures res.Ok? ==> |res.value.0| == |ps|
    decreases c.Room(depth), 1, |ps|
  {
    if ps == [] then Ok(([], st))
    else
      var (k, st1) :- Walk(c, h, ps[0].0, depth, st);
      var (v, st2) :- Walk(c, h, ps[0].1, depth, st1);
      var (js, st3) :- WalkPairs(c, h, ps[1..], depth, st2);
      Ok(([JArray([k, v])] + js, st3))
  }

  function Encode<R>(c: Codec, h: Heap<R>, root: R): Result<Packet> {
    var (j, st) :- Walk(c, h, root, 0, EMPTY_STATE);
    var metadata := c.platform.render(Envelope(j, st.descriptors));
    if |metadata| > c.limits.maxMetadataBytes then Err(InvalidObject)
    else Ok(Packet(metadata, st.chunks, st.offset))
  }

  // ---------- Decoding ----------

  datatype Buffer = BytesBuffer(data: seq<Byte>) | TensorBuffer(t: Dense)

  predicate NaturalShape(shape: Json) {
    shape.JArray? && forall x | x in shape.items :: x.JInt? && x.i >= 0
  }

  function ShapeOf(items: seq<Json>): seq<nat>
    requires forall x | x in items :: x.JInt? && x.i >= 0
  {
    seq(|items|, i requires 0 <= i < |items| => items[i].i)
  }

  function BytesBufferOf(desc: Json, raw: seq<Byte>, previousEnd: nat): Result<(Buffer, nat)>
    requires desc.JObject? && previousEnd <= |raw|
  {
    var offset, nbytes := desc.Get("offset"), desc.Get("nbytes");
    if !offset.JInt? || !nbytes.JInt? || offset.i < 0 || nbytes.i < 0
       || offset.i != previousEnd || offset.i + nbytes.i > |raw| then Err(InvalidObject)
    else
      var end := offset.i + nbytes.i;
      Ok((BytesBuffer(raw[offset.i..end]), end))
  }

  function TensorBufferOf(c: Codec, desc: Json, raw: seq<Byte>, previousEnd: nat): Result<(Buffer, nat)>
    requires desc.JObject? && previousEnd <= |raw|
  {
    var dtypeName := desc.Get("dtype");
    if dtypeName.JArray? || dtypeName.JObject? then Err(Uncaught)  // unhashable: `in` raises TypeError
    else if !dtypeName.JStr? || DtypeByName(dtypeName.s).None? then Err(InvalidObject)
    else
      var dtype := DtypeByName(dtypeName.s).value;
      var shape, offset, nbytes, numel :=
        desc.Get("shape"), desc.Get("offset"), desc.Get("nbytes"), desc.Get("numel");
      if !NaturalShape(shape) || |shape.items| > c.limits.maxTensorRank
         || !offset.JInt? || !nbytes.JInt? || !numel.JInt?
         || offset.i < 0 || nbytes.i < 0 || numel.i < 0 then Err(InvalidObject)
      else
        var dims := ShapeOf(shape.items);
        var end := offset.i + nbytes.i;
        if Product(dims) != numel.i || Product(dims) * Width(dtype) != nbytes.i
           || offset.i != previousEnd || end > |raw| || numel.i > c.limits.maxTensorElements then
          Err(InvalidObject)
        else
          DtypeTablesInverse(dtype, dtypeName.s);
          Ok((TensorBuffer(DenseTensor(dtype, dims, raw[offset.i..end])), end))
  }

  function BufferOf(c: Codec, desc: Json, raw: seq<Byte>, previousEnd: nat): (res: Result<(Buffer, nat)>)
    requires previousEnd <= |raw|
    ensures res.Ok? ==> previousEnd <= res.value.1 <= |raw|
  {
    if !desc.JObject? then Err(InvalidObject)
    else
      var kind := if "kind" in desc.fields then desc.fields["kind"] else JStr("tensor");
      if kind == JStr("bytes") then BytesBufferOf(desc, raw, previousEnd)
      else if kind != JStr("tensor") then Err(InvalidObject)
      else TensorBufferOf(c, desc, raw, previousEnd)
  }

  /** The buffers a descriptor table cuts out of `raw[previousEnd..]`, with the
      end of the last one. */
  function Table(c: Codec, descs: seq<Json>, raw: seq<Byte>, previousEnd: nat)
    : (res: Result<(seq<Buffer>, nat)>)
    requires previousEnd <= |raw|
    ensures res.Ok? ==> |res.value.0| == |descs| && previousEnd <= res.value.1 <= |raw|
  {
    if descs == [] then Ok(([], previousEnd))
    else
      var (b, end) :- BufferOf(c, descs[0], raw, previousEnd);
      var (bs, last) :- Table(c, descs[1..], raw, end);
      Ok(([b] + bs, last))
  }

  lemma TableStep(c: Codec, descs: seq<Json>, raw: seq<Byte>, previousEnd: nat)
    requires previousEnd <= |raw|
    ensures descs == [] ==> Table(c, descs, raw, previousEnd) == Ok(([], previousEnd))
    ensures descs != [] ==>
              var b := BufferOf(c, descs[0], raw, previousEnd);
              if b.Err? then Table(c, descs, raw, previousEnd).Err?
              else
                var bs := Table(c, descs[1..], raw, b.value.1);
                if bs.Err? then Table(c, descs, raw, previousEnd).Err?
                else Table(c, descs, raw, previousEnd) == Ok(([b.value.0] + bs.value.0, bs.value.1))
  {
    hide BufferOf;
  }

  /** A float node holds a double, or an integer that is converted to one. */
  function ReadFloat(c: Codec, j: Json): Result<Value> {
    if j.JFloat? then (if j.f.Finite? then Ok(VFloat(j.f)) else Err(InvalidObject))
    else if j.JInt? then
      var f := c.platform.intToFloat(j.i);
      if f.None? then Err(Uncaught) else if f.value.Finite? then Ok(VFloat(f.value)) else Err(InvalidObject)
    else Err(InvalidObject)
  }

  function ReadBuffer(kind: string, index: Json, buffers: seq<Buffer>): Result<Value> {
    if index.JInt? && 0 <= index.i < |buffers| then
      match buffers[index.i]
      case TensorBuffer(t) => if kind == "tensor" then Ok(VTensor(t)) else Err(InvalidObject)
      case BytesBuffer(data) => if kind == "bytes" then Ok(VBytes(data)) else Err(InvalidObject)
    else Err(InvalidObject)
  }

  /** A node without children; every other node falls through to the error. */
  function ReadLeaf(c: Codec, buffers: seq<Buffer>, node: Json): Result<Value>
    requires node.JObject?
  {
    var kind := node.Get("kind");
    if kind == JStr("none") then Ok(VNone)
    else if kind == JStr("bool") && node.Get("value").JBool? then Ok(VBool(node.Get("value").b))
    else if kind == JStr("int") && node.Get("value").JInt?
            && -0x8000_0000_0000_0000 <= node.Get("value").i < 0x8000_0000_0000_0000 then
      Ok(VInt(node.Get("value").i))
    else if kind == JStr("float") then ReadFloat(c, node.Get("value"))
    else if kind == JStr("str") && node.Get("value").JStr?
            && Utf8Length(node.Get("value").s) <= c.limits.maxStringBytes then
      Ok(VStr(node.Get("value").s))
    else if kind == JStr("tensor") || kind == JStr("bytes") then
      ReadBuffer(kind.s, node.Get("index"), buffers)
    else if kind == JStr("value_error_placeholder") && node.Get("message").JStr?
            && Utf8Length(node.Get("message").s) <= c.limits.maxStringBytes then
      Ok(VPlaceholder(node.Get("message").s))
    else Err(InvalidObject)
  }

  function Rebuild(c: Codec, tag: string, fields: Value): Result<Value>
    requires tag in c.byTag
  {
    if !fields.VDict? then Err(InvalidObject)
    else
      var v := c.byTag[tag].decodeFields(fields);
      if v.None? then Err(InvalidObject) else Ok(v.value)
  }

  function Read(c: Codec, buffers: seq<Buffer>, node: Json, depth: nat, elements: nat): Result<(Value, nat)>
    decreases c.Room(depth), 0
  {
    if depth > c.limits.maxTreeDepth then Err(InvalidObject)
    else if elements + 1 > c.limits.maxContainerElements || !node.JObject? then Err(InvalidObject)
    else
      var kind := node.Get("kind");
      if kind == JStr("list") && node.Get("items").JArray? then
        var (vs, n) :- ReadAll(c, buffers, node.Get("items").items, depth + 1, elements + 1);
        Ok((VList(vs), n))
      else if kind == JStr("tuple") && node.Get("items").JArray? then
        var (vs, n) :- ReadAll(c, buffers, node.Get("items").items, depth + 1, elements + 1);
        Ok((VTuple(vs), n))
      else if kind == JStr("dict") && node.Get("items").JArray? then
        var (es, n) :- ReadPairs(c, buffers, node.Get("items").items, depth + 1, elements + 1, []);
        Ok((VDict(es), n))
      else if kind == JStr("custom") && node.Get("tag").JStr? then
        if node.Get("tag").s !in c.byTag then Err(InvalidObject)
        else
          var (fields, n) :- Read(c, buffers, node.Get("fields"), depth + 1, elements + 1);
          var v :- Rebuild(c, node.Get("tag").s, fields);
          Ok((v, n))
      else
        var v :- ReadLeaf(c, buffers, node);
        Ok((v, elements + 1))
  }

  function ReadAll(c: Codec, buffers: seq<Buffer>, nodes: seq<Json>, depth: nat, elements: nat)
    : Result<(seq<Value>, nat)>
    decreases c.Room(depth), 1, |nodes|
  {
    if nodes == [] then Ok(([], elements))
    else
      var (v, n) :- Read(c, buffers, nodes[0], depth, elements);
      var (vs, n1) :- ReadAll(c, buffers, nodes[1..], depth, n);
      Ok(([v] + vs, n1))
  }

  /** Dictionary entries are added to `done` one by one; a key already there,
      or one that cannot be hashed, is refused. */
  function ReadPairs(c: Codec, buffers: seq<Buffer>, pairs: seq<Json>, depth: nat, elements: nat, done: seq<Entry>)
    : Result<(seq<Entry>, nat)>
    decreases c.Room(depth), 1, |pairs|
  {
    if pairs == [] then Ok((done, elements))
    else if !pairs[0].JArray? || |pairs[0].items| != 2 then Err(InvalidObject)
    else
      var (k, n) :- Read(c, buffers, pairs[0].items[0], depth, elements);
      var (v, n1) :- Read(c, buffers, pairs[0].items[1], depth, n);
      if !Hashable(k) || HasKey(done, k) then Err(InvalidObject)
      else ReadPairs(c, buffers, pairs[1..], depth, n1, done + [Entry(k, v)])
  }

  /** `1`, `1.0` and `True` all compare equal to the schema number. */
  predicate SchemaOne(j: Json) {
    j == JInt(1) || j == JBool(true) || (j.JFloat? && j.f.Finite? && FloatValue(j.f) == 1.0)
  }

  function Decode(c: Codec, metadata: seq<Byte>, raw: seq<Byte>): Result<Value> {
    if |metadata| > c.limits.maxMetadataBytes || |raw| > c.limits.maxTensorBytes then Err(InvalidObject)
    else
      var parsed := c.platform.parse(metadata);
      if parsed.None? || !parsed.value.JObject? || !SchemaOne(parsed.value.Get("schema")) then
        Err(InvalidObject)
      else
        var descs := parsed.value.Get("tensors");
        if !descs.JArray? || |descs.items| > c.limits.maxTensorCount then Err(InvalidObject)
        else
          var (buffers, end) :- Table(c, descs.items, raw, 0);
          if end != |raw| then Err(InvalidObject)
          else
            var (v, _) :- Read(c, buffers, parsed.value.Get("root"), 0, 0);
            Ok(v)
  }
}
