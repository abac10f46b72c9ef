/** What the limits buy the decoder: bounded work on every packet, accepted or
    refused. */
module DecodeWork {
  import opened Results
  import opened Values
  import opened Packets
  import opened EncodeLimits

  /** The `walk` calls of one run over an untrusted tree, those that raise
      included. */
  function ReadCost(c: Codec, buffers: seq<Buffer>, node: Json, depth: nat, elements: nat): Cost
    decreases c.Room(depth), 0
  {
    var here := Cost(1, depth);
    if depth > c.limits.maxTreeDepth || elements + 1 > c.limits.maxContainerElements || !node.JObject? then here
    else
      var kind := node.Get("kind");
      if (kind == JStr("list") || kind == JStr("tuple")) && node.Get("items").JArray? then
        here.Then(ReadAllCost(c, buffers, node.Get("items").items, depth + 1, elements + 1))
      else if kind == JStr("dict") && node.Get("items").JArray? then
        here.Then(ReadPairsCost(c, buffers, node.Get("items").items, depth + 1, elements + 1, []))
      else if kind == JStr("custom") && node.Get("tag").JStr? && node.Get("tag").s in c.byTag then
        here.Then(ReadCost(c, buffers, node.Get("fields"), depth + 1, elements + 1))
      else here
  }

  function ReadAllCost(c: Codec, buffers: seq<Buffer>, nodes: seq<Json>, depth: nat, elements: nat): Cost
    decreases c.Room(depth), 1, |nodes|
  {
    if nodes == [] then Cost(0, 0)
    else
      var first := ReadCost(c, buffers, nodes[0], depth, elements);
      var v := Read(c, buffers, nodes[0], depth, elements);
      if v.Err? then first else first.Then(ReadAllCost(c, buffers, nodes[1..], depth, v.value.1))
  }

  function ReadPairsCost(
    c: Codec, buffers: seq<Buffer>, pairs: seq<Json>, depth: nat, elements: nat, done: seq<Entry>): Cost
    decreases c.Room(depth), 1, |pairs|
  {
    if pairs == [] || !pairs[0].JArray? || |pairs[0].items| != 2 then Cost(0, 0)
    else
      var key := ReadCost(c, buffers, pairs[0].items[0], depth, elements);
      var k := Read(c, buffers, pairs[0].items[0], depth, elements);
      if k.Err? then key
      else
        var both := key.Then(ReadCost(c, buffers, pairs[0].items[1], depth, k.value.1));
        var v := Read(c, buffers, pairs[0].items[1], depth, k.value.1);
        if v.Err? || !Hashable(k.value.0) || HasKey(done, k.value.0) then both
        else
          both.Then(ReadPairsCost(c, buffers, pairs[1..], depth, v.value.1, done + [Entry(k.value.0, v.value.0)]))
  }

  /** An accepted walk counts one element per call; a refused one stops within
      one call of the element limit. */
  ghost predicate WorkFits<T>(c: Codec, cost: Cost, before: nat, res: Result<(T, nat)>) {
    && cost.deepest <= c.limits.maxTreeDepth + 1
    && match res
       case Ok((_, n)) => n == before + cost.calls <= c.limits.maxContainerElements
       case Err(_) => before + cost.calls <= c.limits.maxContainerElements + 1
  }

  lemma {:induction false} ReadBounded(c: Codec, buffers: seq<Buffer>, node: Json, depth: nat, elements: nat)
    requires elements <= c.limits.maxContainerElements && depth <= c.limits.maxTreeDepth + 1
    ensures WorkFits(c, ReadCost(c, buffers, node, depth, elements), elements, Read(c, buffers, node, depth, elements))
    decreases c.Room(depth), 0
  {
    hide ReadLeaf;
    hide Rebuild;
    hide ReadAll;
    hide ReadPairs;
    hide ReadAllCost;
    hide ReadPairsCost;
    if depth <= c.limits.maxTreeDepth && elements + 1 <= c.limits.maxContainerElements && node.JObject? {
      var kind := node.Get("kind");
      if (kind == JStr("list") || kind == JStr("tuple")) && node.Get("items").JArray? {
        ReadAllBounded(c, buffers, node.Get("items").items, depth + 1, elements + 1);
      } else if kind == JStr("dict") && node.Get("items").JArray? {
        ReadPairsBounded(c, buffers, node.Get("items").items, depth + 1, elements + 1, []);
      } else if kind == JStr("custom") && node.Get("tag").JStr? && node.Get("tag").s in c.byTag {
        ReadBounded(c, buffers, node.Get("fields"), depth + 1, elements + 1);
      }
    }
  }

  lemma {:induction false} ReadAllBounded(c: Codec, buffers: seq<Buffer>, nodes: seq<Json>, depth: nat, elements: nat)
    requires elements <= c.limits.maxContainerElements && depth <= c.limits.maxTreeDepth + 1
    ensures WorkFits(c, ReadAllCost(c, buffers, nodes, depth, elements), elements,
                     ReadAll(c, buffers, nodes, depth, elements))
    decreases c.Room(depth), 1, |nodes|
  {
    hide Read;
    hide ReadCost;
    if nodes != [] {
      ReadBounded(c, buffers, nodes[0], depth, elements);
      var v := Read(c, buffers, nodes[0], depth, elements);
      if v.Ok? {
        ReadAllBounded(c, buffers, nodes[1..], depth, v.value.1);
      }
    }
  }

  lemma {:induction false} ReadPairsBounded(
    c: Codec, buffers: seq<Buffer>, pairs: seq<Json>, depth: nat, elements: nat, done: seq<Entry>)
    requires elements <= c.limits.maxContainerElements && depth <= c.limits.maxTreeDepth + 1
    ensures WorkFits(c, ReadPairsCost(c, buffers, pairs, depth, elements, done), elements,
                     ReadPairs(c, buffers, pairs, depth, elements, done))
    decreases c.Room(depth), 1, |pairs|
  {
    hide Read;
    hide ReadCost;
    if pairs != [] && pairs[0].JArray? && |pairs[0].items| == 2 {
      ReadBounded(c, buffers, pairs[0].items[0], depth, elements);
      var k := Read(c, buffers, pairs[0].items[0], depth, elements);
      if k.Ok? {
        ReadBounded(c, buffers, pairs[0].items[1], depth, k.value.1);
        var v := Read(c, buffers, pairs[0].items[1], depth, k.value.1);
        if v.Ok? && Hashable(k.value.0) && !HasKey(done, k.value.0) {
          ReadPairsBounded(c, buffers, pairs[1..], depth, v.value.1, done + [Entry(k.value.0, v.value.0)]);
        }
      }
    }
  }

  /** Whatever the packet says, rebuilding its tree takes at most one call more
      than the element limit and goes at most one level past the depth limit. */
  lemma DecodeBounded(c: Codec, buffers: seq<Buffer>, root: Json)
    ensures ReadCost(c, buffers, root, 0, 0).calls <= c.limits.maxContainerElements + 1
    ensures ReadCost(c, buffers, root, 0, 0).deepest <= c.limits.maxTreeDepth + 1
  {
    ReadBounded(c, buffers, root, 0, 0);
  }
}
