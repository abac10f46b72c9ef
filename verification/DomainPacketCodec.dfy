/** The codec in its own form: adapter tables filled by registration, and two
    recursive walks that update shared counters and tables. Each method is
    proved to compute the function of the same name in `Packets`, and a ghost
    counter ties its calls, those of refused runs included, to the cost functions. */
module DomainPacketCodecs {
  import opened Results
  import opened Tensors
  import opened Values
  import opened Packets
  import opened EncodeLimits
  import opened DecodeWork

  /** A partial result followed by the rest of the same traversal. */
  ghost function Continue<T, S>(done: seq<T>, rest: Result<(seq<T>, S)>): Result<(seq<T>, S)> {
    if rest.Err? then rest else Ok((done + rest.value.0, rest.value.1))
  }

  lemma ContinueLaws<T, S>(done: seq<T>, x: T, rest: Result<(seq<T>, S)>)
    ensures Continue([], rest) == rest
    ensures Continue(done, Continue([x], rest)) == Continue(done + [x], rest)
  {
    if rest.Ok? {
      assert [] + rest.value.0 == rest.value.0;
      assert done + ([x] + rest.value.0) == (done + [x]) + rest.value.0;
    }
  }

  /** One run of `encode`: the tables and counters its inner walk updates. */
  class EncodeRun<R> {
    const codec: Codec
    const heap: Heap<R>
    var descriptors: seq<Descriptor>
    var chunks: seq<seq<Byte>>
    var offset: nat
    var elements: nat
    ghost var cost: Cost

    constructor (codec: Codec, heap: Heap<R>)
      ensures this.codec == codec && this.heap == heap && State() == EMPTY_STATE && cost == Cost(0, 0)
    {
      this.codec, this.heap := codec, heap;
      descriptors, chunks, offset, elements := [], [], 0, 0;
      cost := Cost(0, 0);
    }

    function State(): EncodeState
      reads this
    {
      EncodeState(descriptors, chunks, offset, elements)
    }

    method Append(kind: string, d: Descriptor, chunk: seq<Byte>) returns (res: Result<Json>)
      modifies this
      ensures cost == old(cost)
      ensures match AddBuffer(codec, kind, d, chunk, old(State()))
              case Ok((j, st)) => res == Ok(j) && State() == st
              case Err(e) => res == Err(e)
    {
      if offset + d.nbytes > codec.limits.maxTensorBytes {
        return Err(InvalidObject);
      }
      var index := |descriptors|;
      if index >= codec.limits.maxTensorCount {
        return Err(InvalidObject);
      }
      descriptors := descriptors + [d];
      chunks := chunks + [chunk];
      offset := offset + d.nbytes;
      return Ok(Node1(kind, "index", JInt(index)));
    }

    method VisitLeaf(o: PyObj<R>) returns (res: Result<Json>)
      requires IsLeaf(o)
      modifies this
      ensures cost == old(cost)
      ensures match EncodeLeaf(codec, o, old(State()))
              case Ok((j, st)) => res == Ok(j) && State() == st
              case Err(e) => res == Err(e)
    {
      match o
      case ONone =>
        return Ok(Node("none"));
      case OBool(b) =>
        return Ok(Node1("bool", "value", JBool(b)));
      case OInt(i) =>
        if !(-0x8000_0000_0000_0000 <= i < 0x8000_0000_0000_0000) {
          return Err(InvalidObject);
        }
        return Ok(Node1("int", "value", JInt(i)));
      case OFloat(f) =>
        if !f.Finite? {
          return Err(InvalidObject);
        }
        return Ok(Node1("float", "value", JFloat(f)));
      case OStr(text) =>
        if Utf8Length(text) > codec.limits.maxStringBytes {
          return Err(InvalidObject);
        }
        return Ok(Node1("str", "value", JStr(text)));
      case OBytes(data) =>
        res := Append("bytes", BytesDescriptor(offset, |data|), data);
      case OTensor(t) =>
        if t.dtype.Unsupported? {
          return Err(InvalidObject);
        }
        if |t.shape| > codec.limits.maxTensorRank || Product(t.shape) > codec.limits.maxTensorElements {
          return Err(InvalidObject);
        }
        var snapshot := Densify(t);
        var numel := Product(snapshot.shape);
        var nbytes := numel * Width(snapshot.dtype);
        res := Append("tensor",
                      TensorDescriptor(DtypeName(snapshot.dtype), snapshot.shape, offset, nbytes, numel),
                      snapshot.data);
      case OValueError(message) =>
        if Utf8Length(message) > codec.limits.maxStringBytes {
          return Err(InvalidObject);
        }
        return Ok(Node1("value_error_placeholder", "message", JStr(message)));
    }

    method Visit(r: R, depth: nat) returns (res: Result<Json>)
      modifies this
      ensures match Walk(codec, heap, r, depth, old(State()))
              case Ok((j, st)) => res == Ok(j) && State() == st
              case Err(e) => res == Err(e)
      ensures cost == old(cost).Then(WalkCost(codec, heap, r, depth, old(State())))
      decreases codec.Room(depth), 0
    {
      hide EncodeLeaf;
      cost := cost.Then(Cost(1, depth));
      if depth > codec.limits.maxTreeDepth {
        return Err(InvalidObject);
      }
      elements := elements + 1;
      if elements > codec.limits.maxContainerElements {
        return Err(InvalidObject);
      }
      var o := heap.view(r);
      if o.OList? {
        var js :- VisitAll(o.items, depth + 1);
        return Ok(Node1("list", "items", JArray(js)));
      } else if o.OTuple? {
        var js :- VisitAll(o.items, depth + 1);
        return Ok(Node1("tuple", "items", JArray(js)));
      } else if o.ODict? {
        var js :- VisitPairs(o.entries, depth + 1);
        return Ok(Node1("dict", "items", JArray(js)));
      } else if o.OInstance? {
        if o.pyType !in codec.byType {
          return Err(InvalidObject);
        }
        if o.fields.None? {
          return Err(Uncaught);
        }
        if !StringKeyed(heap, o.fields.value) {
          return Err(InvalidObject);
        }
        var j :- Visit(o.fields.value, depth + 1);
        return Ok(CustomNode(codec.byType[o.pyType].tag, j));
      } else {
        res := VisitLeaf(o);
      }
    }

    method VisitAll(rs: seq<R>, depth: nat) returns (res: Result<seq<Json>>)
      modifies this
      ensures match WalkAll(codec, heap, rs, depth, old(State()))
              case Ok((js, st)) => res == Ok(js) && State() == st
              case Err(e) => res == Err(e)
      ensures cost == old(cost).Then(WalkAllCost(codec, heap, rs, depth, old(State())))
      decreases codec.Room(depth), 1
    {
      hide Walk;
      hide WalkCost;
      var js: seq<Json> := [];
      assert rs[0..] == rs;
      ContinueLaws(js, JNull, WalkAll(codec, heap, rs, depth, State()));
      for i := 0 to |rs|
        invariant WalkAll(codec, heap, rs, depth, old(State()))
                  == Continue(js, WalkAll(codec, heap, rs[i..], depth, State()))
        invariant old(cost).Then(WalkAllCost(codec, heap, rs, depth, old(State())))
                  == cost.Then(WalkAllCost(codec, heap, rs[i..], depth, State()))
      {
        assert rs[i..][1..] == rs[i + 1..];
        var j :- Visit(rs[i], depth);
        ContinueLaws(js, j, WalkAll(codec, heap, rs[i + 1..], depth, State()));
        js := js + [j];
      }
      assert js + [] == js;
      return Ok(js);
    }

    method VisitPairs(ps: seq<(R, R)>, depth: nat) returns (res: Result<seq<Json>>)
      modifies this
      ensures match WalkPairs(codec, heap, ps, depth, old(State()))
              case Ok((js, st)) => res == Ok(js) && State() == st
              case Err(e) => res == Err(e)
      ensures cost == old(cost).Then(WalkPairsCost(codec, heap, ps, depth, old(State())))
      decreases codec.Room(depth), 1
    {
      hide Walk;
      hide WalkCost;
      var js: seq<Json> := [];
      assert ps[0..] == ps;
      ContinueLaws(js, JNull, WalkPairs(codec, heap, ps, depth, State()));
      for i := 0 to |ps|
        invariant WalkPairs(codec, heap, ps, depth, old(State()))
                  == Continue(js, WalkPairs(codec, heap, ps[i..], depth, State()))
        invariant old(cost).Then(WalkPairsCost(codec, heap, ps, depth, old(State())))
                  == cost.Then(WalkPairsCost(codec, heap, ps[i..], depth, State()))
      {
        assert ps[i..][1..] == ps[i + 1..];
        var k :- Visit(ps[i].0, depth);
        var v :- Visit(ps[i].1, depth);
        ContinueLaws(js, JArray([k, v]), WalkPairs(codec, heap, ps[i + 1..], depth, State()));
        js := js + [JArray([k, v])];
      }
      assert js + [] == js;
      return Ok(js);
    }
  }

  /** One run of `decode` over rebuilt buffers: its element counter. */
  class DecodeRun {
    const codec: Codec
    const buffers: seq<Buffer>
    var elements: nat
    ghost var cost: Cost

    constructor (codec: Codec, buffers: seq<Buffer>)
      ensures this.codec == codec && this.buffers == buffers && elements == 0 && cost == Cost(0, 0)
    {
      this.codec, this.buffers := codec, buffers;
      elements := 0;
      cost := Cost(0, 0);
    }

    method Visit(node: Json, depth: nat) returns (res: Result<Value>)
      modifies this
      ensures match Read(codec, buffers, node, depth, old(elements))
              case Ok((v, n)) => res == Ok(v) && elements == n
              case Err(e) => res == Err(e)
      ensures cost == old(cost).Then(ReadCost(codec, buffers, node, depth, old(elements)))
      decreases codec.Room(depth), 0
    {
      hide ReadLeaf;
      hide ReadAll;
      hide ReadPairs;
      hide Rebuild;
      hide ReadAllCost;
      hide ReadPairsCost;
      cost := cost.Then(Cost(1, depth));
      if depth > codec.limits.maxTreeDepth {
        return Err(InvalidObject);
      }
      elements := elements + 1;
      if elements > codec.limits.maxContainerElements || !node.JObject? {
        return Err(InvalidObject);
      }
      var kind := node.Get("kind");
      if kind == JStr("list") && node.Get("items").JArray? {
        var vs :- VisitAll(node.Get("items").items, depth + 1);
        return Ok(VList(vs));
      } else if kind == JStr("tuple") && node.Get("items").JArray? {
        var vs :- VisitAll(node.Get("items").items, depth + 1);
        return Ok(VTuple(vs));
      } else if kind == JStr("dict") && node.Get("items").JArray? {
        var es :- VisitPairs(node.Get("items").items, depth + 1);
        return Ok(VDict(es));
      } else if kind == JStr("custom") && node.Get("tag").JStr? {
        if node.Get("tag").s !in codec.byTag {
          return Err(InvalidObject);
        }
        var fields :- Visit(node.Get("fields"), depth + 1);
        res := Rebuild(codec, node.Get("tag").s, fields);
      } else {
        res := ReadLeaf(codec, buffers, node);
      }
    }

    method VisitAll(nodes: seq<Json>, depth: nat) returns (res: Result<seq<Value>>)
      modifies this
      ensures match ReadAll(codec, buffers, nodes, depth, old(elements))
              case Ok((vs, n)) => res == Ok(vs) && elements == n
              case Err(e) => res == Err(e)
      ensures cost == old(cost).Then(ReadAllCost(codec, buffers, nodes, depth, old(elements)))
      decreases codec.Room(depth), 1
    {
      hide Read;
      hide ReadCost;
      var vs: seq<Value> := [];
      assert nodes[0..] == nodes;
      ContinueLaws(vs, VNone, ReadAll(codec, buffers, nodes, depth, elements));
      for i := 0 to |nodes|
        invariant ReadAll(codec, buffers, nodes, depth, old(elements))
                  == Continue(vs, ReadAll(codec, buffers, nodes[i..], depth, elements))
        invariant old(cost).Then(ReadAllCost(codec, buffers, nodes, depth, old(elements)))
                  == cost.Then(ReadAllCost(codec, buffers, nodes[i..], depth, elements))
      {
        assert nodes[i..][1..] == nodes[i + 1..];
        var v :- Visit(nodes[i], depth);
        ContinueLaws(vs, v, ReadAll(codec, buffers, nodes[i + 1..], depth, elements));
        vs := vs + [v];
      }
      assert vs + [] == vs;
      return Ok(vs);
    }

    /** The dictionary is filled in place, one entry at a time. */
    method VisitPairs(pairs: seq<Json>, depth: nat) returns (res: Result<seq<Entry>>)
      modifies this
      ensures match ReadPairs(codec, buffers, pairs, depth, old(elements), [])
              case Ok((es, n)) => res == Ok(es) && elements == n
              case Err(e) => res == Err(e)
      ensures cost == old(cost).Then(ReadPairsCost(codec, buffers, pairs, depth, old(elements), []))
      decreases codec.Room(depth), 1
    {
      hide Read;
      hide ReadCost;
      var result: seq<Entry> := [];
      for i := 0 to |pairs|
        invariant ReadPairs(codec, buffers, pairs, depth, old(elements), [])
                  == ReadPairs(codec, buffers, pairs[i..], depth, elements, result)
        invariant old(cost).Then(ReadPairsCost(codec, buffers, pairs, depth, old(elements), []))
                  == cost.Then(ReadPairsCost(codec, buffers, pairs[i..], depth, elements, result))
      {
        assert pairs[i..][1..] == pairs[i + 1..];
        if !pairs[i].JArray? || |pairs[i].items| != 2 {
          return Err(InvalidObject);
        }
        var key :- Visit(pairs[i].items[0], depth);
        var val :- Visit(pairs[i].items[1], depth);
        if !Hashable(key) || HasKey(result, key) {
          return Err(InvalidObject);
        }
        result := result + [Entry(key, val)];
      }
      return Ok(result);
    }
  }

  class DomainPacketCodec {
    const limits: Limits
    const platform: Platform
    var byTag: map<string, TypeAdapter>
    var byType: map<string, TypeAdapter>

    function Tables(): Codec
      reads this
    {
      Codec(limits, byTag, byType, platform)
    }

    ghost predicate Valid()
      reads this
    {
      Tables().Consistent()
    }

    constructor (limits: Limits, platform: Platform)
      ensures Valid() && byTag == map[] && byType == map[]
      ensures this.limits == limits && this.platform == platform
    {
      this.limits, this.platform := limits, platform;
      byTag, byType := map[], map[];
    }

    /** Refused exactly when the tag is empty or taken or the class is taken;
        otherwise both tables gain the adapter and stay in step. */
    method RegisterAdapter(adapter: TypeAdapter) returns (accepted: bool)
      requires Valid()
      modifies this
      ensures Valid()
      ensures accepted <==>
                adapter.tag != "" && adapter.tag !in old(byTag) && adapter.pyType !in old(byType)
      ensures accepted ==>
                && byTag == old(byTag)[adapter.tag := adapter]
                && byType == old(byType)[adapter.pyType := adapter]
      ensures !accepted ==> byTag == old(byTag) && byType == old(byType)
    {
      if adapter.tag == "" || adapter.tag in byTag {
        return false;
      }
      if adapter.pyType in byType {
        return false;
      }
      byTag := byTag[adapter.tag := adapter];
      byType := byType[adapter.pyType := adapter];
      return true;
    }

    method Encode<R>(heap: Heap<R>, root: R) returns (res: Result<Packet>, ghost cost: Cost)
      ensures res == Packets.Encode(Tables(), heap, root)
      ensures cost.calls <= limits.maxContainerElements + 1 && cost.deepest <= limits.maxTreeDepth + 1
    {
      var run := new EncodeRun(Tables(), heap);
      var visited := run.Visit(root, 0);
      cost := run.cost;
      EncodeBounded(Tables(), heap, root);
      var j :- visited;
      var metadata := platform.render(Envelope(j, run.descriptors));
      if |metadata| > limits.maxMetadataBytes {
        return Err(InvalidObject), cost;
      }
      return Ok(Packet(metadata, run.chunks, run.offset)), cost;
    }

    method ReadTable(descs: seq<Json>, raw: seq<Byte>) returns (res: Result<(seq<Buffer>, nat)>)
      ensures res == Table(Tables(), descs, raw, 0)
    {
      hide BufferOf;
      var buffers: seq<Buffer> := [];
      var previousEnd: nat := 0;
      assert descs[0..] == descs;
      ContinueLaws(buffers, BytesBuffer([]), Table(Tables(), descs, raw, 0));
      for i := 0 to |descs|
        invariant previousEnd <= |raw|
        invariant Table(Tables(), descs, raw, 0)
                  == Continue(buffers, Table(Tables(), descs[i..], raw, previousEnd))
      {
        assert descs[i..][1..] == descs[i + 1..];
        var next :- BufferOf(Tables(), descs[i], raw, previousEnd);
        previousEnd := next.1;
        ContinueLaws(buffers, next.0, Table(Tables(), descs[i + 1..], raw, previousEnd));
        buffers := buffers + [next.0];
      }
      assert buffers + [] == buffers;
      return Ok((buffers, previousEnd));
    }

    method Decode(metadata: seq<Byte>, raw: seq<Byte>) returns (res: Result<Value>, ghost cost: Cost)
      ensures res == Packets.Decode(Tables(), metadata, raw)
      ensures cost.calls <= limits.maxContainerElements + 1 && cost.deepest <= limits.maxTreeDepth + 1
    {
      cost := Cost(0, 0);
      if |metadata| > limits.maxMetadataBytes || |raw| > limits.maxTensorBytes {
        return Err(InvalidObject), cost;
      }
      var envelope := platform.parse(metadata);
      if envelope.None? || !envelope.value.JObject? || !SchemaOne(envelope.value.Get("schema")) {
        return Err(InvalidObject), cost;
      }
      var descs := envelope.value.Get("tensors");
      if !descs.JArray? || |descs.items| > limits.maxTensorCount {
        return Err(InvalidObject), cost;
      }
      var table :- ReadTable(descs.items, raw);
      if table.1 != |raw| {
        return Err(InvalidObject), cost;
      }
      var run := new DecodeRun(Tables(), table.0);
      res := run.Visit(envelope.value.Get("root"), 0);
      cost := run.cost;
      DecodeBounded(Tables(), table.0, envelope.value.Get("root"));
    }
  }
}
