/** What acceptance by `decode` says about arbitrary, untrusted packets. */
module DecodeLimits {
  import opened Results
  import opened Tensors
  import opened Values
  import opened Packets
  import opened RoundTrip

  // ---------- The descriptor table tiles the raw region ----------

  function Kind(d: Json): Json
    requires d.JObject?
  {
    if "kind" in d.fields then d.fields["kind"] else JStr("tensor")
  }

  function Size(d: Json): nat {
    if d.JObject? && d.Get("nbytes").JInt? && d.Get("nbytes").i >= 0 then d.Get("nbytes").i else 0
  }

  function Offset(d: Json): int {
    if d.JObject? && d.Get("offset").JInt? then d.Get("offset").i else -1
  }

  function Sizes(descs: seq<Json>): nat {
    if descs == [] then 0 else Sizes(descs[..|descs| - 1]) + Size(descs[|descs| - 1])
  }

  /** A descriptor is well formed on its own, whatever comes before it. */
  predicate WellFormed(c: Codec, d: Json) {
    && d.JObject?
    && d.Get("offset").JInt? && d.Get("nbytes").JInt? && d.Get("nbytes").i >= 0
    && (Kind(d) == JStr("bytes")
        || (Kind(d) == JStr("tensor")
            && d.Get("dtype").JStr? && DtypeByName(d.Get("dtype").s).Some?
            && NaturalShape(d.Get("shape")) && |d.Get("shape").items| <= c.limits.maxTensorRank
            && d.Get("numel").JInt? && d.Get("numel").i <= c.limits.maxTensorElements
            && var dims := ShapeOf(d.Get("shape").items);
               d.Get("numel").i == Product(dims)
               && d.Get("nbytes").i == Product(dims) * Width(DtypeByName(d.Get("dtype").s).value)))
  }

  /** Descriptor `k` is well formed and starts where the ones before it end. */
  predicate Follows(c: Codec, descs: seq<Json>, k: nat)
    requires k < |descs|
  {
    WellFormed(c, descs[k]) && Offset(descs[k]) == Sizes(descs[..k])
  }

  predicate Tiles(c: Codec, descs: seq<Json>, raw: seq<Byte>) {
    (forall k | 0 <= k < |descs| :: Follows(c, descs, k)) && Sizes(descs) == |raw|
  }

  /** The buffer a well-formed descriptor stands for is the slice it names. */
  predicate IsSlice(b: Buffer, d: Json, raw: seq<Byte>, offset: nat) {
    && d.JObject? && offset + Size(d) <= |raw|
    && var bytes := raw[offset..offset + Size(d)];
       if Kind(d) == JStr("bytes") then b == BytesBuffer(bytes)
       else
         b.TensorBuffer? && d.Get("dtype") == JStr(DtypeName(b.t.dtype))
         && d.Get("shape") == JArray(ShapeJson(b.t.shape)) && b.t.data == bytes
  }

  lemma ShapeJsonOf(items: seq<Json>)
    requires NaturalShape(JArray(items))
    ensures ShapeJson(ShapeOf(items)) == items
  {
  }

  lemma BufferExactly(c: Codec, d: Json, raw: seq<Byte>, offset: nat)
    requires offset <= |raw|
    ensures BufferOf(c, d, raw, offset).Ok? <==>
              WellFormed(c, d) && Offset(d) == offset && offset + Size(d) <= |raw|
    ensures BufferOf(c, d, raw, offset).Ok? ==>
              && BufferOf(c, d, raw, offset).value.1 == offset + Size(d)
              && IsSlice(BufferOf(c, d, raw, offset).value.0, d, raw, offset)
  {
    if d.JObject? && Kind(d) == JStr("tensor") {
      if d.Get("dtype").JStr? && DtypeByName(d.Get("dtype").s).Some? {
        DtypeTablesInverse(Bool, d.Get("dtype").s);
      }
      if NaturalShape(d.Get("shape")) {
        ShapeJsonOf(d.Get("shape").items);
      }
    }
  }

  lemma {:induction false} SizesMonotone(descs: seq<Json>, i: nat, j: nat)
    requires i <= j <= |descs|
    ensures Sizes(descs[..i]) <= Sizes(descs[..j])
    ensures i < j ==> Sizes(descs[..i]) + Size(descs[i]) <= Sizes(descs[..j])
    decreases j
  {
    if i < j {
      SizesMonotone(descs, i, j - 1);
      assert descs[..j][..j - 1] == descs[..j - 1];
    }
  }

  lemma SizesStep(descs: seq<Json>, i: nat)
    requires i < |descs|
    ensures Sizes(descs[..i + 1]) == Sizes(descs[..i]) + Size(descs[i])
  {
    hide Size;
    assert descs[..i + 1][..i] == descs[..i];
  }

  ghost predicate SlicesFrom(bs: seq<Buffer>, descs: seq<Json>, raw: seq<Byte>, i: nat) {
    && |bs| + i == |descs|
    && forall k | 0 <= k < |bs| :: IsSlice(bs[k], descs[i + k], raw, Sizes(descs[..i + k]))
  }

  /** The table read from position `i` on is accepted up to the end of `raw`
      exactly when the remaining descriptors tile the remaining bytes, and its
      buffers are then the slices they name. */
  lemma {:induction false} TableExactly(c: Codec, descs: seq<Json>, raw: seq<Byte>, i: nat)
    requires i <= |descs| && Sizes(descs[..i]) <= |raw|
    ensures var res := Table(c, descs[i..], raw, Sizes(descs[..i]));
            && (res.Ok? && res.value.1 == |raw| <==>
                  (forall k | i <= k < |descs| :: Follows(c, descs, k)) && Sizes(descs) == |raw|)
            && (res.Ok? && res.value.1 == |raw| ==> SlicesFrom(res.value.0, descs, raw, i))
    decreases |descs| - i
  {
    hide BufferOf;
    hide Table;
    hide WellFormed;
    hide Size;
    hide Offset;
    hide IsSlice;
    var at := Sizes(descs[..i]);
    TableStep(c, descs[i..], raw, at);
    if i == |descs| {
      assert descs[..i] == descs && descs[i..] == [];
    } else {
      assert descs[i..][0] == descs[i] && descs[i..][1..] == descs[i + 1..];
      assert descs[..i + 1][..i] == descs[..i];
      BufferExactly(c, descs[i], raw, at);
      SizesMonotone(descs, i, |descs|);
      assert descs[..|descs|] == descs;
      var b := BufferOf(c, descs[i], raw, at);
      if b.Ok? {
        TableExactly(c, descs, raw, i + 1);
        var rest := Table(c, descs[i + 1..], raw, b.value.1);
        if rest.Ok? && rest.value.1 == |raw| {
          SlicesCons(b.value.0, rest.value.0, descs, raw, i);
        }
      }
      assert Follows(c, descs, i) && Sizes(descs) == |raw| ==> b.Ok?;
    }
  }

  lemma SlicesCons(b: Buffer, bs: seq<Buffer>, descs: seq<Json>, raw: seq<Byte>, i: nat)
    requires i < |descs| && SlicesFrom(bs, descs, raw, i + 1)
    requires IsSlice(b, descs[i], raw, Sizes(descs[..i]))
    ensures SlicesFrom([b] + bs, descs, raw, i)
  {
    hide IsSlice;
    hide Sizes;
    hide Size;
    forall k | 0 <= k < |bs| + 1
      ensures IsSlice(([b] + bs)[k], descs[i + k], raw, Sizes(descs[..i + k]))
    {
      if k > 0 {
        assert descs[i + 1 + (k - 1)] == descs[i + k];
        assert descs[..i + 1 + (k - 1)] == descs[..i + k];
      }
    }
  }

  /** For arbitrary bytes: acceptance means the parsed descriptors tile the raw
      region exactly and within every limit. */
  lemma AcceptedTiles(c: Codec, metadata: seq<Byte>, raw: seq<Byte>)
    requires Decode(c, metadata, raw).Ok?
    ensures |metadata| <= c.limits.maxMetadataBytes && |raw| <= c.limits.maxTensorBytes
    ensures var envelope := c.platform.parse(metadata);
            && envelope.Some? && envelope.value.JObject? && SchemaOne(envelope.value.Get("schema"))
            && envelope.value.Get("tensors").JArray?
            && var descs := envelope.value.Get("tensors").items;
               |descs| <= c.limits.maxTensorCount && Tiles(c, descs, raw)
  {
    hide Read;
    hide Table;
    hide WellFormed;
    var descs := c.platform.parse(metadata).value.Get("tensors").items;
    assert descs[0..] == descs && descs[..0] == [];
    TableExactly(c, descs, raw, 0);
  }

  predicate Covers(d: Json, k: nat) {
    Offset(d) <= k < Offset(d) + Size(d)
  }

  ghost predicate Covered(descs: seq<Json>, k: nat) {
    exists i | 0 <= i < |descs| :: Covers(descs[i], k)
  }

  /** Tiling ranges do not overlap, and every raw byte lies in one of them. */
  lemma TilesPartition(c: Codec, descs: seq<Json>, raw: seq<Byte>)
    requires Tiles(c, descs, raw)
    ensures forall i, j | 0 <= i < j < |descs| :: Offset(descs[i]) + Size(descs[i]) <= Offset(descs[j])
    ensures forall k: nat | k < |raw| :: Covered(descs, k)
  {
    hide WellFormed;
    hide Size;
    hide Offset;
    forall i, j | 0 <= i < j < |descs|
      ensures Offset(descs[i]) + Size(descs[i]) <= Offset(descs[j])
    {
      SizesMonotone(descs, i, j);
      assert Follows(c, descs, i) && Follows(c, descs, j);
    }
    forall k: nat | k < |raw|
      ensures Covered(descs, k)
    {
      assert descs[..|descs|] == descs;
      var i := RangeOf(descs, |descs|, k);
      assert Follows(c, descs, i);
      assert Covers(descs[i], k);
    }
  }

  lemma {:induction false} RangeOf(descs: seq<Json>, n: nat, k: nat) returns (i: nat)
    requires n <= |descs| && k < Sizes(descs[..n])
    ensures i < n && Sizes(descs[..i]) <= k < Sizes(descs[..i]) + Size(descs[i])
    decreases n
  {
    assert n > 0 && descs[..n][..n - 1] == descs[..n - 1];
    if k < Sizes(descs[..n - 1]) {
      i := RangeOf(descs, n - 1, k);
    } else {
      i := n - 1;
    }
  }

  // ---------- The tree stays within the limits ----------

  function Count(v: Value): nat {
    match v
    case VList(items) => 1 + CountAll(items)
    case VTuple(items) => 1 + CountAll(items)
    case VDict(entries) => 1 + CountEntries(entries)
    case VCustom(_, fields) => 1 + Count(fields)
    case _ => 1
  }

  function CountAll(vs: seq<Value>): nat {
    if vs == [] then 0 else CountAll(vs[..|vs| - 1]) + Count(vs[|vs| - 1])
  }

  function CountEntries(es: seq<Entry>): nat {
    if es == [] then 0
    else CountEntries(es[..|es| - 1]) + CountEntry(es[|es| - 1])
  }

  function CountEntry(e: Entry): nat {
    Count(e.key) + Count(e.val)
  }

  /** No path from the root of `v` goes down more than `n` levels. */
  predicate HeightAtMost(v: Value, n: int) {
    && n >= 0
    && match v
       case VList(items) => forall x | x in items :: HeightAtMost(x, n - 1)
       case VTuple(items) => forall x | x in items :: HeightAtMost(x, n - 1)
       case VDict(entries) => forall e | e in entries :: HeightAtMost(e.key, n - 1) && HeightAtMost(e.val, n - 1)
       case VCustom(_, fields) => HeightAtMost(fields, n - 1)
       case _ => true
  }

  /** A leaf the protocol can carry. */
  predicate LeafWithin(c: Codec, v: Value) {
    match v
    case VInt(i) => -0x8000_0000_0000_0000 <= i < 0x8000_0000_0000_0000
    case VFloat(f) => f.Finite?
    case VStr(s) => Utf8Length(s) <= c.limits.maxStringBytes
    case VPlaceholder(message) => Utf8Length(message) <= c.limits.maxStringBytes
    case VTensor(t) => |t.shape| <= c.limits.maxTensorRank && Product(t.shape) <= c.limits.maxTensorElements
    case _ => true
  }

  /** Every leaf of the tree is within the limits on strings, numbers and tensors. */
  predicate Within(c: Codec, v: Value) {
    match v
    case VList(items) => forall x | x in items :: Within(c, x)
    case VTuple(items) => forall x | x in items :: Within(c, x)
    case VDict(entries) => forall e | e in entries :: Within(c, e.key) && Within(c, e.val)
    case VCustom(_, fields) => Within(c, fields)
    case _ => LeafWithin(c, v)
  }

  ghost predicate BuffersWithin(c: Codec, buffers: seq<Buffer>) {
    forall b | b in buffers && b.TensorBuffer? :: LeafWithin(c, VTensor(b.t))
  }

  lemma {:induction false} TableWithin(c: Codec, descs: seq<Json>, raw: seq<Byte>, previousEnd: nat)
    requires previousEnd <= |raw| && Table(c, descs, raw, previousEnd).Ok?
    ensures BuffersWithin(c, Table(c, descs, raw, previousEnd).value.0)
    decreases |descs|
  {
    hide BufferOf;
    if descs != [] {
      BufferWithin(c, descs[0], raw, previousEnd);
      TableWithin(c, descs[1..], raw, BufferOf(c, descs[0], raw, previousEnd).value.1);
    }
  }

  lemma BufferWithin(c: Codec, d: Json, raw: seq<Byte>, previousEnd: nat)
    requires previousEnd <= |raw| && BufferOf(c, d, raw, previousEnd).Ok?
    ensures BuffersWithin(c, [BufferOf(c, d, raw, previousEnd).value.0])
  {
  }

  // ---------- What is asked of adapters ----------

  /** The instances a codec can build: those its constructors make from
      dictionaries with pairwise different keys. */
  predicate Builds(c: Codec, tag: string, f: Value, x: Value) {
    tag in c.byTag && f.VDict? && c.byTag[tag].decodeFields(f) == Some(x)
  }

  /** An adapter's constructor makes an instance of its class that it would make
      again from the instance's own fields. */
  ghost predicate AdaptersRebuild(c: Codec) {
    && c.Consistent()
    && forall tag, f, x | Builds(c, tag, f, x) && DistinctKeys(f.entries) :: Rebuilds(c, c.byTag[tag], f, x)
  }

  ghost predicate Rebuilds(c: Codec, a: TypeAdapter, f: Value, x: Value) {
    && x.VCustom? && x.fields.VDict? && x.pyType == a.pyType && a.decodeFields(x.fields) == Some(x)
    && (Faithful(c, f) ==> Faithful(c, x.fields))
  }

  /** Instances have no leaf outside the limits unless their fields had. */
  ghost predicate AdaptersKeepLeaves(c: Codec) {
    forall tag, f, x | Builds(c, tag, f, x) && DistinctKeys(f.entries) :: Within(c, f) ==> Within(c, x)
  }

  /** Instances are no larger and no deeper than the fields they are given. */
  ghost predicate AdaptersKeepSize(c: Codec) {
    forall tag, f, x | Builds(c, tag, f, x) && DistinctKeys(f.entries) :: KeepsSize(f, x)
  }

  ghost predicate KeepsSize(f: Value, x: Value) {
    Count(x) == 1 + Count(f) && forall n: int | HeightAtMost(f, n) :: HeightAtMost(x, n + 1)
  }

  // ---------- What the walk builds ----------

  ghost predicate Proper(c: Codec, v: Value, depth: nat) {
    && Faithful(c, v)
    && (AdaptersKeepLeaves(c) ==> Within(c, v))
    && (AdaptersKeepSize(c) ==> HeightAtMost(v, c.limits.maxTreeDepth - depth))
  }

  /** The counter has moved by the size of what was built. */
  ghost predicate Counted(c: Codec, size: nat, before: nat, after: nat) {
    after <= c.limits.maxContainerElements && (AdaptersKeepSize(c) ==> after == before + size)
  }

  ghost predicate Fits(c: Codec, v: Value, depth: nat, before: nat, after: nat) {
    Proper(c, v, depth) && Counted(c, Count(v), before, after)
  }

  /** Whatever node the walk accepts, the tree it builds has proper dictionaries
      and instances; as far as adapters keep leaves and sizes, every leaf is
      within its limit, the tree is no deeper than the limit and the elements
      counted are its objects. */
  lemma {:induction false} ReadFits(c: Codec, buffers: seq<Buffer>, node: Json, depth: nat, elements: nat)
    requires AdaptersRebuild(c) && BuffersWithin(c, buffers) && Read(c, buffers, node, depth, elements).Ok?
    ensures var (v, n) := Read(c, buffers, node, depth, elements).value;
            Fits(c, v, depth, elements, n)
    decreases c.Room(depth), 0
  {
    hide ReadLeaf;
    hide ReadAll;
    hide ReadPairs;
    hide Rebuild;
    hide AdaptersRebuild;
    hide Proper;
    hide Counted;
    var kind := node.Get("kind");
    if (kind == JStr("list") || kind == JStr("tuple")) && node.Get("items").JArray? {
      ReadAllFits(c, buffers, node.Get("items").items, depth + 1, elements + 1);
      var (vs, n) := ReadAll(c, buffers, node.Get("items").items, depth + 1, elements + 1).value;
      SequenceFits(c, vs, depth, elements, n);
    } else if kind == JStr("dict") && node.Get("items").JArray? {
      ReadPairsFits(c, buffers, node.Get("items").items, depth + 1, elements + 1, []);
      var (es, n) := ReadPairs(c, buffers, node.Get("items").items, depth + 1, elements + 1, []).value;
      DictionaryFits(c, es, depth, elements, n);
    } else if kind == JStr("custom") && node.Get("tag").JStr? {
      ReadFits(c, buffers, node.Get("fields"), depth + 1, elements + 1);
      var (fields, n) := Read(c, buffers, node.Get("fields"), depth + 1, elements + 1).value;
      RebuildFits(c, node.Get("tag").s, fields, depth, elements, n);
    } else {
      LeafFits(c, buffers, node, depth, elements);
    }
  }

  lemma SequenceFits(c: Codec, vs: seq<Value>, depth: nat, elements: nat, n: nat)
    requires depth <= c.limits.maxTreeDepth && Counted(c, CountAll(vs), elements + 1, n)
    requires forall v | v in vs :: Proper(c, v, depth + 1)
    ensures Fits(c, VList(vs), depth, elements, n) && Fits(c, VTuple(vs), depth, elements, n)
  {
    hide AdaptersKeepLeaves;
    hide AdaptersKeepSize;
  }

  lemma DictionaryFits(c: Codec, es: seq<Entry>, depth: nat, elements: nat, n: nat)
    requires depth <= c.limits.maxTreeDepth && Counted(c, CountEntries(es), elements + 1, n)
    requires DistinctKeys(es) && forall e | e in es :: ProperEntry(c, e, depth + 1)
    ensures Fits(c, VDict(es), depth, elements, n)
  {
    hide AdaptersKeepLeaves;
    hide AdaptersKeepSize;
  }

  lemma LeafFits(c: Codec, buffers: seq<Buffer>, node: Json, depth: nat, elements: nat)
    requires node.JObject? && BuffersWithin(c, buffers) && ReadLeaf(c, buffers, node).Ok?
    requires depth <= c.limits.maxTreeDepth && elements + 1 <= c.limits.maxContainerElements
    ensures Fits(c, ReadLeaf(c, buffers, node).value, depth, elements, elements + 1)
  {
    hide AdaptersKeepLeaves;
    hide AdaptersKeepSize;
  }

  lemma RebuildFits(c: Codec, tag: string, fields: Value, depth: nat, elements: nat, n: nat)
    requires AdaptersRebuild(c) && tag in c.byTag && Rebuild(c, tag, fields).Ok?
    requires depth <= c.limits.maxTreeDepth && Fits(c, fields, depth + 1, elements + 1, n)
    ensures Fits(c, Rebuild(c, tag, fields).value, depth, elements, n)
  {
    var x := Rebuild(c, tag, fields).value;
    assert Builds(c, tag, fields, x) && DistinctKeys(fields.entries);
    assert Rebuilds(c, c.byTag[tag], fields, x);
    if AdaptersKeepSize(c) {
      assert KeepsSize(fields, x);
    }
  }

  lemma {:induction false} CountAllFront(v: Value, vs: seq<Value>)
    ensures CountAll([v] + vs) == Count(v) + CountAll(vs)
  {
    var all := [v] + vs;
    if vs != [] {
      CountAllFront(v, vs[..|vs| - 1]);
      assert all[..|all| - 1] == [v] + vs[..|vs| - 1];
    } else {
      assert all == [v] && all[..0] == [];
    }
  }

  lemma {:induction false} ReadAllFits(c: Codec, buffers: seq<Buffer>, nodes: seq<Json>, depth: nat, elements: nat)
    requires AdaptersRebuild(c) && BuffersWithin(c, buffers) && ReadAll(c, buffers, nodes, depth, elements).Ok?
    requires elements <= c.limits.maxContainerElements
    ensures var (vs, n) := ReadAll(c, buffers, nodes, depth, elements).value;
            Counted(c, CountAll(vs), elements, n) && forall v | v in vs :: Proper(c, v, depth)
    decreases c.Room(depth), 1, |nodes|
  {
    hide Read;
    hide AdaptersRebuild;
    hide AdaptersKeepSize;
    hide Proper;
    if nodes != [] {
      ReadFits(c, buffers, nodes[0], depth, elements);
      var (v, n) := Read(c, buffers, nodes[0], depth, elements).value;
      ReadAllFits(c, buffers, nodes[1..], depth, n);
      CountAllFront(v, ReadAll(c, buffers, nodes[1..], depth, n).value.0);
    }
  }

  ghost predicate ProperEntry(c: Codec, e: Entry, depth: nat) {
    Hashable(e.key) && Proper(c, e.key, depth) && Proper(c, e.val, depth)
  }

  lemma {:induction false} ReadPairsFits(
    c: Codec, buffers: seq<Buffer>, pairs: seq<Json>, depth: nat, elements: nat, done: seq<Entry>)
    requires AdaptersRebuild(c) && BuffersWithin(c, buffers)
    requires ReadPairs(c, buffers, pairs, depth, elements, done).Ok?
    requires elements <= c.limits.maxContainerElements && DistinctKeys(done)
    requires forall e | e in done :: ProperEntry(c, e, depth)
    ensures var (es, n) := ReadPairs(c, buffers, pairs, depth, elements, done).value;
            && CountEntries(done) <= CountEntries(es)
            && Counted(c, CountEntries(es) - CountEntries(done), elements, n)
            && DistinctKeys(es) && forall e | e in es :: ProperEntry(c, e, depth)
    decreases c.Room(depth), 1, |pairs|
  {
    hide Read;
    hide AdaptersRebuild;
    hide AdaptersKeepSize;
    hide Proper;
    if pairs != [] {
      ReadFits(c, buffers, pairs[0].items[0], depth, elements);
      var (k, n) := Read(c, buffers, pairs[0].items[0], depth, elements).value;
      ReadFits(c, buffers, pairs[0].items[1], depth, n);
      var (v, n1) := Read(c, buffers, pairs[0].items[1], depth, n).value;
      var more := done + [Entry(k, v)];
      assert more[..|more| - 1] == done;
      NewKeyStaysDistinct(done, Entry(k, v));
      ReadPairsFits(c, buffers, pairs[1..], depth, n1, more);
    }
  }

  lemma NewKeyStaysDistinct(done: seq<Entry>, e: Entry)
    requires DistinctKeys(done) && !HasKey(done, e.key)
    ensures DistinctKeys(done + [e])
  {
    forall i, j | 0 <= i < j < |done| + 1
      ensures !SameKey((done + [e])[i].key, (done + [e])[j].key)
    {
      if j == |done| {
        assert done[i] in done;
      }
    }
  }

  /** Every accepted packet gives a tree with proper dictionaries and with
      instances its adapters would rebuild. If constructors add no leaf outside
      the limits, it has none; if they add nothing at all, it has at most as
      many objects and levels as the limits say. */
  lemma AcceptedTreeFits(c: Codec, metadata: seq<Byte>, raw: seq<Byte>)
    requires AdaptersRebuild(c) && Decode(c, metadata, raw).Ok?
    ensures var v := Decode(c, metadata, raw).value;
            && Faithful(c, v)
            && (AdaptersKeepLeaves(c) ==> Within(c, v))
            && (AdaptersKeepSize(c) ==>
                  Count(v) <= c.limits.maxContainerElements && HeightAtMost(v, c.limits.maxTreeDepth))
  {
    hide Read;
    hide Table;
    hide AdaptersRebuild;
    hide AdaptersKeepLeaves;
    hide AdaptersKeepSize;
    TableWithin(c, c.platform.parse(metadata).value.Get("tensors").items, raw, 0);
    var envelope := c.platform.parse(metadata).value;
    var buffers := Table(c, envelope.Get("tensors").items, raw, 0).value.0;
    ReadFits(c, buffers, envelope.Get("root"), 0, 0);
  }

  /** Normalisation: if what a packet decodes to can be encoded again, decoding
      that second packet gives the same tree. */
  lemma ReencodeStable(c: Codec, metadata: seq<Byte>, raw: seq<Byte>)
    requires AdaptersRebuild(c) && c.platform.RoundTrips()
    requires Decode(c, metadata, raw).Ok?
    requires Encode(c, TreeHeap(), Decode(c, metadata, raw).value).Ok?
    ensures var v := Decode(c, metadata, raw).value;
            var again := Encode(c, TreeHeap(), v).value;
            Decode(c, again.metadata, Join(again.chunks)) == Ok(v)
  {
    AcceptedTreeFits(c, metadata, raw);
    EncodeDecodeTree(c, Decode(c, metadata, raw).value);
  }
}
