/** Packets of dataclass instances: what decoding adds to them and in which order
    their buffers come out again. */
module FieldOrder {
  import opened Results
  import opened Tensors
  import opened Values
  import opened Packets
  import opened RoundTrip
  import opened DecodeLimits
  import opened Linearity
  import opened Adapters

  /** A part of the decoded tree: a buffer the packet refers to, or a default
      the packet leaves to the class. */
  datatype Piece = Referred(kind: string, index: int) | Filled(name: string, value: Value)

  type Classes = map<string, Dataclass>

  // ---------- The parts of a packet, fields in declaration order ----------

  function Pieces(cs: Classes, j: Json): seq<Piece> {
    if !j.JObject? || "kind" !in j.fields then []
    else
      var kind := j.fields["kind"];
      if kind == JStr("tensor") || kind == JStr("bytes") then
        if "index" in j.fields && j.fields["index"].JInt? then [Referred(kind.s, j.fields["index"].i)] else []
      else if kind == JStr("list") || kind == JStr("tuple") then
        if "items" in j.fields && j.fields["items"].JArray? then PiecesAll(cs, j.fields["items"].items) else []
      else if kind == JStr("dict") then
        if "items" in j.fields && j.fields["items"].JArray? then PiecesPairs(cs, j.fields["items"].items) else []
      else if kind == JStr("custom") && "fields" in j.fields then
        var fields := j.fields["fields"];
        if j.Get("tag").JStr? && j.Get("tag").s in cs && fields.JObject? && "items" in fields.fields
           && fields.fields["items"].JArray? then
          var pairs := fields.fields["items"].items;
          Arrange(cs[j.Get("tag").s].names, cs[j.Get("tag").s].defaults, ListedKeys(pairs), PiecesEach(cs, pairs))
        else []
      else []
  }

  function PiecesAll(cs: Classes, js: seq<Json>): seq<Piece> {
    if js == [] then [] else Pieces(cs, js[0]) + PiecesAll(cs, js[1..])
  }

  function PiecesPairs(cs: Classes, js: seq<Json>): seq<Piece> {
    if js == [] then []
    else (if js[0].JArray? then PiecesAll(cs, js[0].items) else []) + PiecesPairs(cs, js[1..])
  }

  /** The parts of each listed field's value. */
  function PiecesEach(cs: Classes, js: seq<Json>): (ps: seq<seq<Piece>>)
    ensures |ps| == |js|
  {
    if js == [] then []
    else [if js[0].JArray? && |js[0].items| == 2 then Pieces(cs, js[0].items[1]) else []] + PiecesEach(cs, js[1..])
  }

  function ListedKeys(pairs: seq<Json>): (keys: seq<string>)
    ensures |keys| == |pairs|
  {
    seq(|pairs|, i requires 0 <= i < |pairs| => if NamesField(pairs[i]) then FieldName(pairs[i]) else "")
  }

  function FieldPieces(
    defaults: map<string, Value>, keys: seq<string>, ps: seq<seq<Piece>>, name: string): seq<Piece>
    requires |keys| == |ps|
  {
    var p := Pick(keys, ps, name);
    if p.Some? then p.value else if name in defaults then [Filled(name, defaults[name])] else []
  }

  /** The parts of all fields, in the order of `names`. */
  function Arrange(
    names: seq<string>, defaults: map<string, Value>, keys: seq<string>, ps: seq<seq<Piece>>): seq<Piece>
    requires |keys| == |ps|
  {
    if names == [] then []
    else
      Arrange(names[..|names| - 1], defaults, keys, ps) + FieldPieces(defaults, keys, ps, names[|names| - 1])
  }

  /** The bytes of a part. */
  function PieceBytes(buffers: seq<Buffer>, p: Piece): seq<Byte> {
    match p
    case Referred(kind, index) => BytesNamed(buffers, (kind, index))
    case Filled(_, value) => RawOf(value)
  }

  function BytesOf(buffers: seq<Buffer>, ps: seq<Piece>): seq<Byte> {
    if ps == [] then [] else PieceBytes(buffers, ps[0]) + BytesOf(buffers, ps[1..])
  }

  /** The objects a part adds to those the packet spells out. */
  function PieceSize(p: Piece): nat {
    if p.Filled? then 1 + Count(p.value) else 0
  }

  function FilledSize(ps: seq<Piece>): nat {
    if ps == [] then 0 else PieceSize(ps[0]) + FilledSize(ps[1..])
  }

  lemma BytesStep(buffers: seq<Buffer>, ps: seq<Piece>)
    ensures ps == [] ==> BytesOf(buffers, ps) == [] && FilledSize(ps) == 0
    ensures ps != [] ==>
              && BytesOf(buffers, ps) == PieceBytes(buffers, ps[0]) + BytesOf(buffers, ps[1..])
              && FilledSize(ps) == PieceSize(ps[0]) + FilledSize(ps[1..])
  {
  }

  lemma {:induction false} PiecesAppend(buffers: seq<Buffer>, a: seq<Piece>, b: seq<Piece>)
    ensures BytesOf(buffers, a + b) == BytesOf(buffers, a) + BytesOf(buffers, b)
    ensures FilledSize(a + b) == FilledSize(a) + FilledSize(b)
  {
    hide *;
    var all := a + b;
    BytesStep(buffers, a);
    BytesStep(buffers, all);
    if a == [] {
      assert all == b;
    } else {
      PiecesAppend(buffers, a[1..], b);
      assert all[0] == a[0] && all[1..] == a[1..] + b;
      Reassociate(PieceBytes(buffers, a[0]), BytesOf(buffers, a[1..]), BytesOf(buffers, b));
    }
  }

  // ---------- Nodes the decoder visits ----------

  /** The nodes of a packet's tree that an accepting walk counts. */
  function Nodes(j: Json): nat {
    if !j.JObject? || "kind" !in j.fields then 1
    else
      var kind := j.fields["kind"];
      if (kind == JStr("list") || kind == JStr("tuple")) && "items" in j.fields && j.fields["items"].JArray? then
        1 + NodesAll(j.fields["items"].items)
      else if kind == JStr("dict") && "items" in j.fields && j.fields["items"].JArray? then
        1 + NodesPairs(j.fields["items"].items)
      else if kind == JStr("custom") && "fields" in j.fields then 1 + Nodes(j.fields["fields"])
      else 1
  }

  function NodesAll(js: seq<Json>): nat {
    if js == [] then 0 else Nodes(js[0]) + NodesAll(js[1..])
  }

  function NodesPairs(js: seq<Json>): nat {
    if js == [] then 0
    else (if js[0].JArray? then NodesAll(js[0].items) else 0) + NodesPairs(js[1..])
  }

  // ---------- What the decoder builds from a node ----------

  /** A value has the node's bytes and the node's objects, and besides only what
      defaults fill in. */
  ghost predicate Holds(buffers: seq<Buffer>, bytes: seq<Byte>, size: nat, ps: seq<Piece>, nodes: nat) {
    bytes == BytesOf(buffers, ps) && size == nodes + FilledSize(ps)
  }

  lemma LeafHolds(c: Codec, cs: Classes, buffers: seq<Buffer>, j: Json)
    requires j.JObject? && ReadLeaf(c, buffers, j).Ok?
    ensures var v := ReadLeaf(c, buffers, j).value;
            Holds(buffers, RawOf(v), Count(v), Pieces(cs, j), 1) && Nodes(j) == 1
  {
    hide ReadBuffer;
    hide PieceBytes;
    var kind := j.Get("kind");
    if kind == JStr("tensor") || kind == JStr("bytes") {
      BufferHolds(buffers, kind.s, j.Get("index"));
      OnePiece(buffers, Referred(kind.s, j.Get("index").i));
    }
  }

  lemma OnePiece(buffers: seq<Buffer>, p: Piece)
    ensures BytesOf(buffers, [p]) == PieceBytes(buffers, p) && FilledSize([p]) == PieceSize(p)
  {
    assert [p][1..] == [];
  }

  lemma BufferHolds(buffers: seq<Buffer>, kind: string, index: Json)
    requires ReadBuffer(kind, index, buffers).Ok?
    ensures var v := ReadBuffer(kind, index, buffers).value;
            index.JInt? && RawOf(v) == PieceBytes(buffers, Referred(kind, index.i)) && Count(v) == 1
  {
  }

  /** The exact relation between an accepted node and the value read from it. */
  lemma {:induction false} ReadHolds(
    c: Codec, cs: Classes, buffers: seq<Buffer>, j: Json, depth: nat, elements: nat)
    requires DataclassCodec(c, cs) && Read(c, buffers, j, depth, elements).Ok?
    ensures var (v, n) := Read(c, buffers, j, depth, elements).value;
            n == elements + Nodes(j) && Holds(buffers, RawOf(v), Count(v), Pieces(cs, j), Nodes(j))
    decreases c.Room(depth), 1
  {
    hide ReadLeaf;
    hide ReadAll;
    hide ReadPairs;
    hide Rebuild;
    hide DataclassCodec;
    hide BytesOf;
    hide FilledSize;
    hide Arrange;
    hide PiecesAll;
    hide PiecesPairs;
    hide PiecesEach;
    hide ListedKeys;
    hide NodesAll;
    hide NodesPairs;
    hide RawAll;
    hide RawEntries;
    hide CountAll;
    hide CountEntries;
    var kind := j.Get("kind");
    if (kind == JStr("list") || kind == JStr("tuple")) && j.Get("items").JArray? {
      ReadAllHolds(c, cs, buffers, j.Get("items").items, depth + 1, elements + 1);
    } else if kind == JStr("dict") && j.Get("items").JArray? {
      ReadPairsHolds(c, cs, buffers, j.Get("items").items, depth + 1, elements + 1, []);
      NoEntries();
    } else if kind == JStr("custom") && j.Get("tag").JStr? {
      ReadHolds(c, cs, buffers, j.Get("fields"), depth + 1, elements + 1);
      InstanceHolds(c, cs, buffers, j, depth, elements);
    } else {
      LeafHolds(c, cs, buffers, j);
    }
  }

  lemma {:induction false} ReadAllHolds(
    c: Codec, cs: Classes, buffers: seq<Buffer>, js: seq<Json>, depth: nat, elements: nat)
    requires DataclassCodec(c, cs) && ReadAll(c, buffers, js, depth, elements).Ok?
    ensures var (vs, n) := ReadAll(c, buffers, js, depth, elements).value;
            && n == elements + NodesAll(js)
            && Holds(buffers, RawAll(vs), CountAll(vs), PiecesAll(cs, js), NodesAll(js))
    decreases c.Room(depth), 3, |js|
  {
    hide Read;
    hide DataclassCodec;
    hide Pieces;
    hide Nodes;
    hide BytesOf;
    hide FilledSize;
    if js != [] {
      ReadHolds(c, cs, buffers, js[0], depth, elements);
      var (v, n) := Read(c, buffers, js[0], depth, elements).value;
      ReadAllHolds(c, cs, buffers, js[1..], depth, n);
      CountAllFront(v, ReadAll(c, buffers, js[1..], depth, n).value.0);
      PiecesAppend(buffers, Pieces(cs, js[0]), PiecesAll(cs, js[1..]));
    } else {
      BytesStep(buffers, []);
    }
  }

  lemma PairHolds(cs: Classes, buffers: seq<Buffer>, p: Json, e: Entry)
    requires p.JArray? && |p.items| == 2
    requires Holds(buffers, RawOf(e.key), Count(e.key), Pieces(cs, p.items[0]), Nodes(p.items[0]))
    requires Holds(buffers, RawOf(e.val), Count(e.val), Pieces(cs, p.items[1]), Nodes(p.items[1]))
    ensures Holds(buffers, RawEntry(e), CountEntry(e), PiecesAll(cs, p.items), NodesAll(p.items))
    ensures NodesAll(p.items) == Nodes(p.items[0]) + Nodes(p.items[1])
  {
    hide Pieces;
    hide Nodes;
    hide BytesOf;
    hide FilledSize;
    var k, v := p.items[0], p.items[1];
    assert p.items == [k, v] && [k, v][1..] == [v] && [v][1..] == [];
    assert PiecesAll(cs, [v]) == Pieces(cs, v) + PiecesAll(cs, []);
    assert PiecesAll(cs, [k, v]) == Pieces(cs, k) + Pieces(cs, v);
    assert NodesAll([v]) == Nodes(v) + NodesAll([]);
    PiecesAppend(buffers, Pieces(cs, k), Pieces(cs, v));
  }

  lemma {:induction false} ReadPairsHolds(
    c: Codec, cs: Classes, buffers: seq<Buffer>, js: seq<Json>, depth: nat, elements: nat, done: seq<Entry>)
    requires DataclassCodec(c, cs) && ReadPairs(c, buffers, js, depth, elements, done).Ok?
    ensures var (es, n) := ReadPairs(c, buffers, js, depth, elements, done).value;
            && n == elements + NodesPairs(js)
            && RawEntries(es) == RawEntries(done) + BytesOf(buffers, PiecesPairs(cs, js))
            && CountEntries(es) == CountEntries(done) + NodesPairs(js) + FilledSize(PiecesPairs(cs, js))
    decreases c.Room(depth), 3, |js|
  {
    hide Read;
    hide DataclassCodec;
    hide Pieces;
    hide PiecesAll;
    hide Nodes;
    hide NodesAll;
    hide BytesOf;
    hide FilledSize;
    hide RawEntries;
    hide RawEntry;
    hide CountEntry;
    if js != [] {
      var kj, vj := js[0].items[0], js[0].items[1];
      ReadHolds(c, cs, buffers, kj, depth, elements);
      var (k, n) := Read(c, buffers, kj, depth, elements).value;
      ReadHolds(c, cs, buffers, vj, depth, n);
      var (v, n1) := Read(c, buffers, vj, depth, n).value;
      var e := Entry(k, v);
      ReadPairsHolds(c, cs, buffers, js[1..], depth, n1, done + [e]);
      PairHolds(cs, buffers, js[0], e);
      RawEntriesOne(done, e);
      assert (done + [e])[..|done|] == done;
      PiecesAppend(buffers, PiecesAll(cs, js[0].items), PiecesPairs(cs, js[1..]));
      Reassociate(RawEntries(done), RawEntry(e), BytesOf(buffers, PiecesPairs(cs, js[1..])));
    } else {
      BytesStep(buffers, []);
    }
  }

  // ---------- Instances ----------

  /** What was read for each listed field. */
  ghost predicate FieldsHold(cs: Classes, buffers: seq<Buffer>, es: seq<Entry>, pairs: seq<Json>) {
    && |es| == |pairs|
    && forall i | 0 <= i < |pairs| :: FieldHolds(cs, buffers, es[i], pairs[i])
  }

  ghost predicate FieldHolds(cs: Classes, buffers: seq<Buffer>, e: Entry, p: Json) {
    && p.JArray? && |p.items| == 2
    && RawOf(e.val) == BytesOf(buffers, Pieces(cs, p.items[1]))
    && (e.key.VStr? ==> NamesField(p) && FieldName(p) == e.key.s)
  }

  lemma {:induction false} ReadFieldsHold(
    c: Codec, cs: Classes, buffers: seq<Buffer>, js: seq<Json>, depth: nat, elements: nat, done: seq<Entry>)
    requires DataclassCodec(c, cs) && ReadPairs(c, buffers, js, depth, elements, done).Ok? && DistinctKeys(done)
    ensures var es := ReadPairs(c, buffers, js, depth, elements, done).value.0;
            && DistinctKeys(es) && done <= es && FieldsHold(cs, buffers, es[|done|..], js)
    decreases c.Room(depth), 3, |js|
  {
    hide Read;
    hide DataclassCodec;
    hide FieldHolds;
    if js != [] {
      var kj, vj := js[0].items[0], js[0].items[1];
      var (k, n) := Read(c, buffers, kj, depth, elements).value;
      var (v, n1) := Read(c, buffers, vj, depth, n).value;
      OneFieldHolds(c, cs, buffers, js[0], depth, elements);
      NewKeyStaysDistinct(done, Entry(k, v));
      ReadFieldsHold(c, cs, buffers, js[1..], depth, n1, done + [Entry(k, v)]);
      var es := ReadPairs(c, buffers, js, depth, elements, done).value.0;
      assert es[|done|] == (done + [Entry(k, v)])[|done|];
      assert es[|done|..] == [Entry(k, v)] + es[|done| + 1..];
    }
  }

  lemma {:induction false} OneFieldHolds(
    c: Codec, cs: Classes, buffers: seq<Buffer>, p: Json, depth: nat, elements: nat)
    requires DataclassCodec(c, cs) && p.JArray? && |p.items| == 2
    requires Read(c, buffers, p.items[0], depth, elements).Ok?
    requires var (_, n) := Read(c, buffers, p.items[0], depth, elements).value;
             Read(c, buffers, p.items[1], depth, n).Ok?
    ensures var (k, n) := Read(c, buffers, p.items[0], depth, elements).value;
            FieldHolds(cs, buffers, Entry(k, Read(c, buffers, p.items[1], depth, n).value.0), p)
    decreases c.Room(depth), 2
  {
    hide Read;
    hide DataclassCodec;
    hide Pieces;
    var (k, n) := Read(c, buffers, p.items[0], depth, elements).value;
    ReadHolds(c, cs, buffers, p.items[1], depth, n);
    if k.VStr? {
      StrComesFromStr(c, cs, buffers, p.items[0], depth, elements);
    }
  }

  lemma StrComesFromStr(c: Codec, cs: Classes, buffers: seq<Buffer>, j: Json, depth: nat, elements: nat)
    requires DataclassCodec(c, cs) && Read(c, buffers, j, depth, elements).Ok?
    requires Read(c, buffers, j, depth, elements).value.0.VStr?
    ensures IsStrNode(j) && j.Get("value").s == Read(c, buffers, j, depth, elements).value.0.s
  {
    hide ReadAll;
    hide ReadPairs;
  }

  lemma {:induction false} PickHolds(
    cs: Classes, buffers: seq<Buffer>, es: seq<Entry>, pairs: seq<Json>, name: string)
    requires FieldsHold(cs, buffers, es, pairs) && forall e | e in es :: e.key.VStr?
    ensures KeysOf(es) == ListedKeys(pairs)
    ensures var p := Pick(ListedKeys(pairs), PiecesEach(cs, pairs), name);
            && (p.Some? <==> Find(es, name).Some?)
            && (p.Some? ==> BytesOf(buffers, p.value) == RawOf(Find(es, name).value))
    decreases |es|
  {
    hide Pieces;
    forall i | 0 <= i < |es|
      ensures KeysOf(es)[i] == ListedKeys(pairs)[i]
    {
      assert es[i] in es && FieldHolds(cs, buffers, es[i], pairs[i]);
    }
    if es != [] {
      assert es[0] in es && FieldHolds(cs, buffers, es[0], pairs[0]);
      PickHolds(cs, buffers, es[1..], pairs[1..], name);
      assert ListedKeys(pairs)[1..] == ListedKeys(pairs[1..]);
    }
  }

  /** The bytes of an instance are those of its fields in declaration order. */
  lemma {:induction false} ArrangedBytes(
    cs: Classes, buffers: seq<Buffer>, es: seq<Entry>, pairs: seq<Json>, names: seq<string>,
    defaults: map<string, Value>)
    requires FieldsHold(cs, buffers, es, pairs) && (forall e | e in es :: e.key.VStr?) && Supplied(es, names, defaults)
    ensures RawEntries(FieldDict(es, names, defaults))
              == BytesOf(buffers, Arrange(names, defaults, ListedKeys(pairs), PiecesEach(cs, pairs)))
    decreases |names|
  {
    hide PiecesEach;
    hide ListedKeys;
    hide FieldsHold;
    hide RawEntries;
    hide BytesOf;
    if names == [] {
      BytesStep(buffers, []);
      NoEntries();
    } else {
      var n := |names| - 1;
      ArrangedBytes(cs, buffers, es, pairs, names[..n], defaults);
      var fields := FieldDict(es, names, defaults);
      assert fields == FieldDict(es, names[..n], defaults) + [fields[n]];
      RawEntriesOne(FieldDict(es, names[..n], defaults), fields[n]);
      FieldBytes(cs, buffers, es, pairs, names[n], defaults);
      PiecesAppend(buffers, Arrange(names[..n], defaults, ListedKeys(pairs), PiecesEach(cs, pairs)),
                   FieldPieces(defaults, ListedKeys(pairs), PiecesEach(cs, pairs), names[n]));
    }
  }

  lemma NoEntries()
    ensures RawEntries([]) == [] && CountEntries([]) == 0
  {
  }

  lemma FieldBytes(
    cs: Classes, buffers: seq<Buffer>, es: seq<Entry>, pairs: seq<Json>, name: string, defaults: map<string, Value>)
    requires FieldsHold(cs, buffers, es, pairs) && (forall e | e in es :: e.key.VStr?)
    requires Find(es, name).Some? || name in defaults
    ensures RawEntry(Entry(VStr(name), FieldValue(es, defaults, name)))
              == BytesOf(buffers, FieldPieces(defaults, ListedKeys(pairs), PiecesEach(cs, pairs), name))
  {
    hide PiecesEach;
    hide ListedKeys;
    PickHolds(cs, buffers, es, pairs, name);
    if Find(es, name).None? {
      OnePiece(buffers, Filled(name, defaults[name]));
    }
  }

  function SizesEach(ps: seq<seq<Piece>>): seq<nat> {
    seq(|ps|, i requires 0 <= i < |ps| => FilledSize(ps[i]))
  }

  lemma {:induction false} PickSizes(keys: seq<string>, ps: seq<seq<Piece>>, name: string)
    requires |keys| == |ps|
    ensures var p := Pick(keys, ps, name);
            Pick(keys, SizesEach(ps), name) == if p.Some? then Some(FilledSize(p.value)) else None
    decreases |keys|
  {
    if keys != [] {
      PickSizes(keys[1..], ps[1..], name);
      assert SizesEach(ps)[1..] == SizesEach(ps[1..]);
    }
  }

  lemma {:induction false} ArrangedCollects(
    names: seq<string>, defaults: map<string, Value>, keys: seq<string>, ps: seq<seq<Piece>>)
    requires |keys| == |ps|
    ensures FilledSize(Arrange(names, defaults, keys, ps))
              == Collect(names, keys, SizesEach(ps), DefaultWeights(defaults))
    decreases |names|
  {
    hide FilledSize;
    hide SizesEach;
    BytesStep([], []);
    if names != [] {
      var n := |names| - 1;
      ArrangedCollects(names[..n], defaults, keys, ps);
      PickSizes(keys, ps, names[n]);
      PiecesAppend([], Arrange(names[..n], defaults, keys, ps), FieldPieces(defaults, keys, ps, names[n]));
      if names[n] in defaults {
        OnePiece([], Filled(names[n], defaults[names[n]]));
      }
    }
  }

  lemma {:induction false} EachTotal(cs: Classes, pairs: seq<Json>)
    requires forall i | 0 <= i < |pairs| :: NamesField(pairs[i])
    ensures FilledSize(PiecesPairs(cs, pairs)) == Total(SizesEach(PiecesEach(cs, pairs)))
    decreases |pairs|
  {
    if pairs == [] {
      BytesStep([], []);
    } else {
      EachStep(cs, pairs);
      hide *;
      var first := Pieces(cs, pairs[0].items[1]);
      EachTotal(cs, pairs[1..]);
      TotalFront(FilledSize(first), SizesEach(PiecesEach(cs, pairs[1..])));
      PiecesAppend([], first, PiecesPairs(cs, pairs[1..]));
    }
  }

  lemma EachStep(cs: Classes, pairs: seq<Json>)
    requires pairs != [] && NamesField(pairs[0])
    ensures var first := Pieces(cs, pairs[0].items[1]);
            && PiecesPairs(cs, pairs) == first + PiecesPairs(cs, pairs[1..])
            && SizesEach(PiecesEach(cs, pairs)) == [FilledSize(first)] + SizesEach(PiecesEach(cs, pairs[1..]))
  {
    hide FilledSize;
    NamedPieces(cs, pairs[0]);
    hide Pieces;
    hide PiecesAll;
  }

  lemma NamedPieces(cs: Classes, p: Json)
    requires NamesField(p)
    ensures PiecesAll(cs, p.items) == Pieces(cs, p.items[1])
  {
    var k, v := p.items[0], p.items[1];
    assert Pieces(cs, k) == [];
    hide Pieces;
    assert p.items == [k, v] && [k, v][1..] == [v] && [v][1..] == [];
    assert PiecesAll(cs, [v]) == Pieces(cs, v) + PiecesAll(cs, []);
  }

  lemma {:induction false} TotalFront(w: nat, ws: seq<nat>)
    ensures Total([w] + ws) == w + Total(ws)
    decreases |ws|
  {
    var all := [w] + ws;
    if ws != [] {
      TotalFront(w, ws[..|ws| - 1]);
      assert all[..|all| - 1] == [w] + ws[..|ws| - 1];
    } else {
      assert all[..0] == [];
    }
  }

  lemma DictComesFromDict(c: Codec, cs: Classes, buffers: seq<Buffer>, j: Json, depth: nat, elements: nat)
    requires DataclassCodec(c, cs) && Read(c, buffers, j, depth, elements).Ok?
    requires Read(c, buffers, j, depth, elements).value.0.VDict?
    ensures j.JObject? && j.Get("kind") == JStr("dict") && j.Get("items").JArray?
    ensures ReadPairs(c, buffers, j.Get("items").items, depth + 1, elements + 1, []).Ok?
    ensures ReadPairs(c, buffers, j.Get("items").items, depth + 1, elements + 1, []).value.0
              == Read(c, buffers, j, depth, elements).value.0.entries
  {
    hide ReadAll;
    hide ReadPairs;
  }

  lemma ArrangedCount(cs: Classes, buffers: seq<Buffer>, d: Dataclass, es: seq<Entry>, pairs: seq<Json>)
    requires Distinct(d.names) && Known(es, d.names) && DistinctKeys(es) && FieldsHold(cs, buffers, es, pairs)
    ensures FilledSize(Arrange(d.names, d.defaults, ListedKeys(pairs), PiecesEach(cs, pairs)))
              == FilledSize(PiecesPairs(cs, pairs)) + Missing(d.names, KeysOf(es), DefaultWeights(d.defaults))
  {
    hide FilledSize;
    hide Arrange;
    hide PiecesEach;
    hide ListedKeys;
    hide Pieces;
    PickHolds(cs, buffers, es, pairs, "");
    ArrangedCollects(d.names, d.defaults, ListedKeys(pairs), PiecesEach(cs, pairs));
    DistinctStringKeys(es);
    KnownKeys(es, d.names);
    CollectTotal(d.names, ListedKeys(pairs), SizesEach(PiecesEach(cs, pairs)), DefaultWeights(d.defaults));
    forall i | 0 <= i < |pairs|
      ensures NamesField(pairs[i])
    {
      assert es[i] in es && FieldHolds(cs, buffers, es[i], pairs[i]);
    }
    EachTotal(cs, pairs);
  }

  /** What an instance holds: the bytes of its fields in declaration order, and
      the objects of the listed fields and of the defaults filled in. */
  lemma FieldsOfInstance(
    cs: Classes, buffers: seq<Buffer>, pyType: string, d: Dataclass, es: seq<Entry>, pairs: seq<Json>)
    requires Distinct(d.names) && Construct(pyType, d, VDict(es)).Some?
    requires DistinctKeys(es) && FieldsHold(cs, buffers, es, pairs)
    ensures var x := Construct(pyType, d, VDict(es)).value;
            var arranged := Arrange(d.names, d.defaults, ListedKeys(pairs), PiecesEach(cs, pairs));
            && RawOf(x) == BytesOf(buffers, arranged)
            && Count(x) + FilledSize(PiecesPairs(cs, pairs)) == 2 + CountEntries(es) + FilledSize(arranged)
  {
    hide FieldDict;
    hide FilledSize;
    hide BytesOf;
    hide Arrange;
    hide PiecesEach;
    hide ListedKeys;
    hide Pieces;
    hide RawEntries;
    hide CountEntries;
    assert Known(es, d.names) && Supplied(es, d.names, d.defaults);
    assert forall e | e in es :: e.key.VStr?;
    var x := Construct(pyType, d, VDict(es)).value;
    assert x == VCustom(pyType, VDict(FieldDict(es, d.names, d.defaults)));
    assert RawOf(x) == RawEntries(FieldDict(es, d.names, d.defaults)) by {
      assert RawOf(x.fields) == RawEntries(x.fields.entries);
    }
    hide *;
    ArrangedBytes(cs, buffers, es, pairs, d.names, d.defaults);
    FieldDictCount(es, d);
    ArrangedCount(cs, buffers, d, es, pairs);
    InstanceCount(pyType, FieldDict(es, d.names, d.defaults));
  }

  lemma InstanceCount(pyType: string, fields: seq<Entry>)
    ensures Count(VCustom(pyType, VDict(fields))) == 2 + CountEntries(fields)
  {
    assert Count(VDict(fields)) == 1 + CountEntries(fields);
  }

  lemma KnownKeys(es: seq<Entry>, names: seq<string>)
    requires Known(es, names)
    ensures forall k | k in KeysOf(es) :: k in names
  {
    forall k | k in KeysOf(es)
      ensures k in names
    {
      var i :| 0 <= i < |es| && KeysOf(es)[i] == k;
      assert es[i] in es;
    }
  }

  lemma InstanceHolds(c: Codec, cs: Classes, buffers: seq<Buffer>, j: Json, depth: nat, elements: nat)
    requires DataclassCodec(c, cs) && Read(c, buffers, j, depth, elements).Ok?
    requires j.JObject? && j.Get("kind") == JStr("custom") && j.Get("tag").JStr? && j.Get("tag").s in c.byTag
    requires Read(c, buffers, j.Get("fields"), depth + 1, elements + 1).Ok?
    requires var f := Read(c, buffers, j.Get("fields"), depth + 1, elements + 1).value.0;
             Holds(buffers, RawOf(f), Count(f), Pieces(cs, j.Get("fields")), Nodes(j.Get("fields")))
    ensures var v := Read(c, buffers, j, depth, elements).value.0;
            Holds(buffers, RawOf(v), Count(v), Pieces(cs, j), Nodes(j))
    decreases c.Room(depth), 0
  {
    hide BytesOf;
    hide FilledSize;
    hide Arrange;
    hide PiecesPairs;
    hide PiecesAll;
    hide PiecesEach;
    hide ListedKeys;
    hide ReadPairs;
    hide ReadAll;
    hide Construct;
    hide FieldsHold;
    var fields, tag := j.Get("fields"), j.Get("tag").s;
    var f := Read(c, buffers, fields, depth + 1, elements + 1).value.0;
    DictComesFromDict(c, cs, buffers, fields, depth + 1, elements + 1);
    var pairs := fields.Get("items").items;
    ReadFieldsHold(c, cs, buffers, pairs, depth + 2, elements + 2, []);
    assert f.entries[0..] == f.entries;
    assert Construct(c.byTag[tag].pyType, cs[tag], f) == Some(Read(c, buffers, j, depth, elements).value.0);
    FieldsOfInstance(cs, buffers, c.byTag[tag].pyType, cs[tag], f.entries, pairs);
  }

  // ---------- Main results ----------

  /** Every accepted packet: the tree has the nodes the packet spells out and the
      defaults it leaves out; the walk limits the former only. */
  lemma AcceptedSize(c: Codec, cs: Classes, metadata: seq<Byte>, raw: seq<Byte>)
    requires DataclassCodec(c, cs) && Decode(c, metadata, raw).Ok?
    ensures var root := c.platform.parse(metadata).value.Get("root");
            var v, filled := Decode(c, metadata, raw).value, FilledSize(Pieces(cs, root));
            && Nodes(root) <= c.limits.maxContainerElements
            && Count(v) == Nodes(root) + filled
  {
    hide Table;
    hide Pieces;
    var envelope := c.platform.parse(metadata).value;
    var buffers := Table(c, envelope.Get("tensors").items, raw, 0).value.0;
    ReadHolds(c, cs, buffers, envelope.Get("root"), 0, 0);
    ElementsWithin(c, buffers, envelope.Get("root"), 0, 0);
  }

  lemma {:induction false} ElementsWithin(c: Codec, buffers: seq<Buffer>, j: Json, depth: nat, elements: nat)
    requires Read(c, buffers, j, depth, elements).Ok?
    ensures Read(c, buffers, j, depth, elements).value.1 <= c.limits.maxContainerElements
    decreases c.Room(depth), 0
  {
    hide ReadLeaf;
    hide ReadAll;
    hide ReadPairs;
    hide Rebuild;
    var kind := j.Get("kind");
    if (kind == JStr("list") || kind == JStr("tuple")) && j.Get("items").JArray? {
      ElementsAllWithin(c, buffers, j.Get("items").items, depth + 1, elements + 1);
    } else if kind == JStr("dict") && j.Get("items").JArray? {
      ElementsPairsWithin(c, buffers, j.Get("items").items, depth + 1, elements + 1, []);
    } else if kind == JStr("custom") && j.Get("tag").JStr? {
      ElementsWithin(c, buffers, j.Get("fields"), depth + 1, elements + 1);
    }
  }

  lemma {:induction false} ElementsAllWithin(c: Codec, buffers: seq<Buffer>, js: seq<Json>, depth: nat, elements: nat)
    requires ReadAll(c, buffers, js, depth, elements).Ok? && elements <= c.limits.maxContainerElements
    ensures ReadAll(c, buffers, js, depth, elements).value.1 <= c.limits.maxContainerElements
    decreases c.Room(depth), 1, |js|
  {
    hide Read;
    if js != [] {
      ElementsWithin(c, buffers, js[0], depth, elements);
      ElementsAllWithin(c, buffers, js[1..], depth, Read(c, buffers, js[0], depth, elements).value.1);
    }
  }

  lemma {:induction false} ElementsPairsWithin(
    c: Codec, buffers: seq<Buffer>, js: seq<Json>, depth: nat, elements: nat, done: seq<Entry>)
    requires ReadPairs(c, buffers, js, depth, elements, done).Ok? && elements <= c.limits.maxContainerElements
    ensures ReadPairs(c, buffers, js, depth, elements, done).value.1 <= c.limits.maxContainerElements
    decreases c.Room(depth), 1, |js|
  {
    hide Read;
    if js != [] {
      var (k, n) := Read(c, buffers, js[0].items[0], depth, elements).value;
      ElementsWithin(c, buffers, js[0].items[0], depth, elements);
      var (v, n1) := Read(c, buffers, js[0].items[1], depth, n).value;
      ElementsWithin(c, buffers, js[0].items[1], depth, n);
      ElementsPairsWithin(c, buffers, js[1..], depth, n1, done + [Entry(k, v)]);
    }
  }

  /** Every accepted packet: encoding what it decodes to writes its buffers in
      the order in which reading the packet by declared fields meets them, with
      the defaults' bytes where a field is left out. */
  lemma ReencodedRaw(c: Codec, cs: Classes, metadata: seq<Byte>, raw: seq<Byte>)
    requires DataclassCodec(c, cs) && Decode(c, metadata, raw).Ok?
    requires Encode(c, TreeHeap(), Decode(c, metadata, raw).value).Ok?
    ensures var envelope := c.platform.parse(metadata).value;
            var buffers := Table(c, envelope.Get("tensors").items, raw, 0).value.0;
            var declared := BytesOf(buffers, Pieces(cs, envelope.Get("root")));
            var again := Join(Encode(c, TreeHeap(), Decode(c, metadata, raw).value).value.chunks);
            again == declared
  {
    hide Table;
    hide Read;
    hide Walk;
    hide Pieces;
    var envelope := c.platform.parse(metadata).value;
    var buffers := Table(c, envelope.Get("tensors").items, raw, 0).value.0;
    var v := Decode(c, metadata, raw).value;
    ReadHolds(c, cs, buffers, envelope.Get("root"), 0, 0);
    EncodedRaw(c, v);
  }

  lemma EncodedRaw(c: Codec, v: Value)
    requires Encode(c, TreeHeap(), v).Ok?
    ensures Join(Encode(c, TreeHeap(), v).value.chunks) == RawOf(v)
  {
    hide Walk;
    WalkSound(c, TreeHeap(), v, 0, EMPTY_STATE);
    UnfoldTree(v, c.limits.maxTreeDepth + 1);
    WalkRaw(c, TreeHeap(), v, 0, EMPTY_STATE);
    assert Join([]) + RawOf(v) == RawOf(v);
  }

  // ---------- Packets in declaration order ----------

  /** Every instance node lists all fields of its class, in declaration order. */
  predicate InDeclaredOrder(cs: Classes, j: Json) {
    if !j.JObject? || "kind" !in j.fields then true
    else
      var kind := j.fields["kind"];
      if kind == JStr("list") || kind == JStr("tuple") then
        "items" in j.fields && j.fields["items"].JArray? ==>
          forall x | x in j.fields["items"].items :: InDeclaredOrder(cs, x)
      else if kind == JStr("dict") then
        "items" in j.fields && j.fields["items"].JArray? ==>
          forall p | p in j.fields["items"].items && p.JArray? :: forall x | x in p.items :: InDeclaredOrder(cs, x)
      else if kind == JStr("custom") then
        && ("fields" in j.fields ==> InDeclaredOrder(cs, j.fields["fields"]))
        && (j.Get("tag").JStr? && j.Get("tag").s in cs ==>
              ListsFields(j.Get("fields")) && ListedNames(j.Get("fields")) == cs[j.Get("tag").s].names)
      else true
  }

  lemma DeclaredIsOwn(tag: string, pyType: string, d: Dataclass)
    requires Distinct(d.names)
    ensures OwnOrder(DataclassAdapter(tag, pyType, d), d.names)
  {
    forall es | HasNames(es, d.names) && DataclassAdapter(tag, pyType, d).decodeFields(VDict(es)).Some?
      ensures DataclassAdapter(tag, pyType, d).decodeFields(VDict(es)) == Some(VCustom(pyType, VDict(es)))
    {
      ConstructInOrder(pyType, d, es);
    }
  }

  /** Dataclass codecs keep the order of packets that list fields as declared. */
  lemma {:induction false} DeclaredKeepsOrder(c: Codec, cs: Classes, j: Json)
    requires DataclassCodec(c, cs) && InDeclaredOrder(cs, j)
    ensures KeepsOrder(c, j)
  {
    hide OwnOrder;
    if j.JObject? && "kind" in j.fields {
      var kind := j.fields["kind"];
      if (kind == JStr("list") || kind == JStr("tuple")) && "items" in j.fields && j.fields["items"].JArray? {
        forall x | x in j.fields["items"].items
          ensures KeepsOrder(c, x)
        {
          DeclaredKeepsOrder(c, cs, x);
        }
      } else if kind == JStr("dict") && "items" in j.fields && j.fields["items"].JArray? {
        forall p, x | p in j.fields["items"].items && p.JArray? && x in p.items
          ensures KeepsOrder(c, x)
        {
          DeclaredKeepsOrder(c, cs, x);
        }
      } else if kind == JStr("custom") {
        if "fields" in j.fields {
          DeclaredKeepsOrder(c, cs, j.fields["fields"]);
        }
        if j.Get("tag").JStr? && j.Get("tag").s in c.byTag {
          var a := c.byTag[j.Get("tag").s];
          DeclaredIsOwn(a.tag, a.pyType, cs[j.Get("tag").s]);
        }
      }
    }
  }
}
