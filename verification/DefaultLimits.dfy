/** What the defaults of dataclasses do to the limits on depth and leaves. */
module DefaultLimits {
  import opened Results
  import opened Tensors
  import opened Values
  import opened Packets
  import opened RoundTrip
  import opened DecodeLimits
  import opened Linearity
  import opened Adapters
  import opened FieldOrder

  // ---------- The fields of an instance ----------

  /** A field the packet leaves to its class. */
  predicate IsFilled(es: seq<Entry>, d: Dataclass, e: Entry) {
    && e.key.VStr? && e.key.s in d.names && Find(es, e.key.s).None?
    && e.key.s in d.defaults && e.val == d.defaults[e.key.s]
  }

  lemma FoundOnlyHere(es: seq<Entry>, e: Entry)
    requires DistinctKeys(es) && e in es && e.key.VStr?
    ensures Find(es, e.key.s) == Some(e.val)
  {
    var i :| 0 <= i < |es| && es[i] == e;
    forall j | 0 <= j < i
      ensures es[j].key != VStr(e.key.s)
    {
      assert !SameKey(es[j].key, es[i].key);
    }
    FindAt(es, i, e.key.s);
  }

  /** An instance has the fields it was given and the defaults filled in, and
      no others. */
  lemma FieldDictExactly(es: seq<Entry>, d: Dataclass, e: Entry)
    requires DistinctKeys(es) && Known(es, d.names) && Supplied(es, d.names, d.defaults)
    ensures e in FieldDict(es, d.names, d.defaults) <==> e in es || IsFilled(es, d, e)
  {
    var fields := FieldDict(es, d.names, d.defaults);
    if e in fields {
      var i :| 0 <= i < |fields| && fields[i] == e;
      if Find(es, d.names[i]).Some? {
        var k := FoundAt(es, d.names[i]);
        assert es[k] in es;
      }
    }
    if e in es || IsFilled(es, d, e) {
      if e in es {
        FoundOnlyHere(es, e);
      }
      var i :| 0 <= i < |d.names| && d.names[i] == e.key.s;
      assert fields[i] == e;
    }
  }

  // ---------- Depth ----------

  /** The defaults a packet leaves out have room below `n` levels, counted from
      the node: `n - 1` levels are left for its children. */
  predicate FillsFit(cs: Classes, j: Json, n: int) {
    if !j.JObject? || "kind" !in j.fields then true
    else
      var kind := j.fields["kind"];
      if kind == JStr("list") || kind == JStr("tuple") then
        "items" in j.fields && j.fields["items"].JArray? ==>
          forall x | x in j.fields["items"].items :: FillsFit(cs, x, n - 1)
      else if kind == JStr("dict") then
        "items" in j.fields && j.fields["items"].JArray? ==>
          forall p | p in j.fields["items"].items && p.JArray? :: forall x | x in p.items :: FillsFit(cs, x, n - 1)
      else if kind == JStr("custom") && "fields" in j.fields then
        && FillsFit(cs, j.fields["fields"], n - 1)
        && (j.Get("tag").JStr? && j.Get("tag").s in cs ==>
              FilledHeights(cs[j.Get("tag").s], j.fields["fields"], n - 2))
      else true
  }

  predicate FilledHeights(d: Dataclass, fields: Json, n: int) {
    fields.JObject? && fields.Get("items").JArray? ==>
      forall name | name in d.defaults && name in d.names && name !in ListedKeys(fields.Get("items").items) ::
        HeightAtMost(d.defaults[name], n)
  }

  ghost predicate EntryAtMost(e: Entry, n: int) {
    HeightAtMost(e.key, n) && HeightAtMost(e.val, n)
  }

  /** The defaults filled in have at most `n` levels. */
  ghost predicate FilledAtMost(es: seq<Entry>, d: Dataclass, n: int) {
    forall e | IsFilled(es, d, e) :: HeightAtMost(e.val, n)
  }

  lemma InstanceHeight(pyType: string, d: Dataclass, es: seq<Entry>, m: nat)
    requires Construct(pyType, d, VDict(es)).Some? && DistinctKeys(es)
    ensures HeightAtMost(Construct(pyType, d, VDict(es)).value, m + 1) <==>
              HeightAtMost(VDict(es), m) && FilledAtMost(es, d, m - 1)
  {
    var fields := FieldDict(es, d.names, d.defaults);
    forall e
      ensures e in fields <==> e in es || IsFilled(es, d, e)
    {
      FieldDictExactly(es, d, e);
    }
    hide FieldDict;
    assert HeightAtMost(VDict(fields), m) <==> forall e | e in fields :: EntryAtMost(e, m - 1);
    assert HeightAtMost(VDict(es), m) <==> forall e | e in es :: EntryAtMost(e, m - 1);
    hide HeightAtMost;
    KeysAtMost(es, d, m);
  }

  lemma KeysAtMost(es: seq<Entry>, d: Dataclass, m: nat)
    ensures forall e | IsFilled(es, d, e) :: EntryAtMost(e, m - 1) <==> HeightAtMost(e.val, m - 1)
  {
  }

  // ---------- Leaves ----------

  /** Every default a packet leaves out has its leaves, and its name, within the
      limits. */
  ghost predicate FillsWithin(c: Codec, ps: seq<Piece>) {
    forall p | p in ps && p.Filled? :: Within(c, VStr(p.name)) && Within(c, p.value)
  }

  lemma FillsWithinAppend(c: Codec, a: seq<Piece>, b: seq<Piece>)
    ensures FillsWithin(c, a + b) <==> FillsWithin(c, a) && FillsWithin(c, b)
  {
    hide Within;
    assert forall p :: p in a + b <==> p in a || p in b;
  }

  lemma {:induction false} FillsWithinArranged(
    c: Codec, names: seq<string>, defaults: map<string, Value>, keys: seq<string>, ps: seq<seq<Piece>>)
    requires |keys| == |ps|
    ensures FillsWithin(c, Arrange(names, defaults, keys, ps)) <==>
              forall name | name in names :: FillsWithin(c, FieldPieces(defaults, keys, ps, name))
    decreases |names|
  {
    hide FillsWithin;
    hide FieldPieces;
    if names == [] {
      NoFills(c);
    } else {
      var n := |names| - 1;
      FillsWithinArranged(c, names[..n], defaults, keys, ps);
      FillsWithinAppend(c, Arrange(names[..n], defaults, keys, ps), FieldPieces(defaults, keys, ps, names[n]));
      assert names == names[..n] + [names[n]];
    }
  }

  lemma NoFills(c: Codec)
    ensures FillsWithin(c, [])
  {
  }

  lemma {:induction false} FillsWithinListed(c: Codec, cs: Classes, pairs: seq<Json>)
    requires forall i | 0 <= i < |pairs| :: NamesField(pairs[i])
    ensures FillsWithin(c, PiecesPairs(cs, pairs)) <==>
              forall ps | ps in PiecesEach(cs, pairs) :: FillsWithin(c, ps)
    decreases |pairs|
  {
    hide FillsWithin;
    hide Pieces;
    if pairs == [] {
      NoFills(c);
    } else {
      var rest, first := pairs[1..], Pieces(cs, pairs[0].items[1]);
      FillsWithinListed(c, cs, rest);
      EachStep(cs, pairs);
      FillsWithinAppend(c, first, PiecesPairs(cs, rest));
      assert PiecesEach(cs, pairs) == [first] + PiecesEach(cs, rest);
      hide PiecesPairs;
      hide PiecesEach;
      InFront(first, PiecesEach(cs, rest));
    }
  }

  lemma InFront<T>(x: T, xs: seq<T>)
    ensures forall y :: y in [x] + xs <==> y == x || y in xs
  {
  }

  /** Arranging by declared fields keeps the listed parts and adds the defaults. */
  lemma ArrangedWithin(
    c: Codec, d: Dataclass, keys: seq<string>, ps: seq<seq<Piece>>)
    requires |keys| == |ps| && Distinct(keys) && forall k | k in keys :: k in d.names
    requires forall name | name in d.names :: name in keys || name in d.defaults
    ensures FillsWithin(c, Arrange(d.names, d.defaults, keys, ps)) <==>
              && (forall p | p in ps :: FillsWithin(c, p))
              && (forall name | name in d.names && name !in keys ::
                    Within(c, VStr(name)) && Within(c, d.defaults[name]))
  {
    FillsWithinArranged(c, d.names, d.defaults, keys, ps);
    forall i | 0 <= i < |ps|
      ensures keys[i] in d.names && FieldPieces(d.defaults, keys, ps, keys[i]) == ps[i]
    {
      assert keys[i] in keys;
      PickAt(keys, ps, i);
    }
    forall name | name in d.names
      ensures name in keys ==> exists i | 0 <= i < |ps| :: FieldPieces(d.defaults, keys, ps, name) == ps[i]
      ensures name !in keys ==>
                (FillsWithin(c, FieldPieces(d.defaults, keys, ps, name)) <==>
                   Within(c, VStr(name)) && Within(c, d.defaults[name]))
    {
      if name in keys {
        var i :| 0 <= i < |keys| && keys[i] == name;
        assert FieldPieces(d.defaults, keys, ps, name) == ps[i];
      } else {
        assert Filled(name, d.defaults[name]) in FieldPieces(d.defaults, keys, ps, name);
      }
    }
    hide FieldPieces;
    hide FillsWithin;
  }

  ghost predicate EntryWithin(c: Codec, e: Entry) {
    Within(c, e.key) && Within(c, e.val)
  }

  /** The defaults filled in have their names and leaves within the limits. */
  ghost predicate FilledWithin(c: Codec, es: seq<Entry>, d: Dataclass) {
    forall e | IsFilled(es, d, e) :: EntryWithin(c, e)
  }

  lemma InstanceWithin(c: Codec, pyType: string, d: Dataclass, es: seq<Entry>)
    requires Construct(pyType, d, VDict(es)).Some? && DistinctKeys(es)
    ensures Within(c, Construct(pyType, d, VDict(es)).value) <==>
              Within(c, VDict(es)) && FilledWithin(c, es, d)
  {
    var fields := FieldDict(es, d.names, d.defaults);
    forall e
      ensures e in fields <==> e in es || IsFilled(es, d, e)
    {
      FieldDictExactly(es, d, e);
    }
    hide FieldDict;
    hide IsFilled;
    assert Within(c, VCustom(pyType, VDict(fields))) == Within(c, VDict(fields));
    assert Within(c, VDict(fields)) <==> forall e | e in fields :: EntryWithin(c, e);
    assert Within(c, VDict(es)) <==> forall e | e in es :: EntryWithin(c, e);
  }

  // ---------- The walk ----------

  /** A value has at most `n` levels, and leaves within the limits, exactly as far
      as the defaults its node leaves out allow. */
  ghost predicate Exactly(c: Codec, cs: Classes, v: Value, j: Json, n: int) {
    && (HeightAtMost(v, n) <==> FillsFit(cs, j, n))
    && (Within(c, v) <==> FillsWithin(c, Pieces(cs, j)))
  }

  ghost predicate AllAtMost(vs: seq<Value>, n: int) {
    forall v | v in vs :: HeightAtMost(v, n)
  }

  ghost predicate AllWithin(c: Codec, vs: seq<Value>) {
    forall v | v in vs :: Within(c, v)
  }

  ghost predicate AllFit(cs: Classes, js: seq<Json>, n: int) {
    forall j | j in js :: FillsFit(cs, j, n)
  }

  ghost predicate AllExactly(c: Codec, cs: Classes, vs: seq<Value>, js: seq<Json>, n: int) {
    && (AllAtMost(vs, n) <==> AllFit(cs, js, n))
    && (AllWithin(c, vs) <==> FillsWithin(c, PiecesAll(cs, js)))
  }

  ghost predicate EntriesAtMost(es: seq<Entry>, n: int) {
    forall e | e in es :: EntryAtMost(e, n)
  }

  ghost predicate EntriesWithin(c: Codec, es: seq<Entry>) {
    forall e | e in es :: EntryWithin(c, e)
  }

  ghost predicate PairsFit(cs: Classes, ps: seq<Json>, n: int) {
    forall p | p in ps && p.JArray? :: AllFit(cs, p.items, n)
  }

  lemma SequenceExactly(c: Codec, cs: Classes, vs: seq<Value>, j: Json, n: nat)
    requires j.JObject? && (j.Get("kind") == JStr("list") || j.Get("kind") == JStr("tuple")) && j.Get("items").JArray?
    requires AllExactly(c, cs, vs, j.Get("items").items, n - 1)
    ensures Exactly(c, cs, VList(vs), j, n) && Exactly(c, cs, VTuple(vs), j, n)
  {
    hide PiecesAll;
    hide FillsWithin;
  }

  lemma DictionaryExactly(c: Codec, cs: Classes, es: seq<Entry>, j: Json, n: nat)
    requires j.JObject? && j.Get("kind") == JStr("dict") && j.Get("items").JArray?
    requires EntriesAtMost(es, n - 1) <==> PairsFit(cs, j.Get("items").items, n - 1)
    requires EntriesWithin(c, es) <==> FillsWithin(c, PiecesPairs(cs, j.Get("items").items))
    ensures Exactly(c, cs, VDict(es), j, n)
  {
    hide PiecesPairs;
    hide FillsWithin;
  }

  lemma LeafExactly(c: Codec, cs: Classes, buffers: seq<Buffer>, j: Json, n: nat)
    requires j.JObject? && ReadLeaf(c, buffers, j).Ok? && BuffersWithin(c, buffers)
    ensures Exactly(c, cs, ReadLeaf(c, buffers, j).value, j, n)
  {
    assert FillsFit(cs, j, n);
    assert forall p | p in Pieces(cs, j) :: p.Referred?;
  }

  lemma AllExactlyFront(c: Codec, cs: Classes, v: Value, vs: seq<Value>, js: seq<Json>, n: int)
    requires js != [] && Exactly(c, cs, v, js[0], n) && AllExactly(c, cs, vs, js[1..], n)
    ensures AllExactly(c, cs, [v] + vs, js, n)
  {
    InFront(v, vs);
    InFront(js[0], js[1..]);
    assert js == [js[0]] + js[1..];
    assert PiecesAll(cs, js) == Pieces(cs, js[0]) + PiecesAll(cs, js[1..]);
    FillsWithinAppend(c, Pieces(cs, js[0]), PiecesAll(cs, js[1..]));
    hide HeightAtMost;
    hide FillsFit;
    hide Within;
    hide FillsWithin;
    hide Pieces;
    hide PiecesAll;
  }

  lemma PairExactly(c: Codec, cs: Classes, e: Entry, p: Json, n: int)
    requires p.JArray? && |p.items| == 2
    requires Exactly(c, cs, e.key, p.items[0], n) && Exactly(c, cs, e.val, p.items[1], n)
    ensures EntryAtMost(e, n) <==> AllFit(cs, p.items, n)
    ensures EntryWithin(c, e) <==> FillsWithin(c, PiecesAll(cs, p.items))
  {
    hide HeightAtMost;
    hide FillsFit;
    hide Within;
    hide FillsWithin;
    hide Pieces;
    var k, v := p.items[0], p.items[1];
    assert p.items == [k, v] && [k, v][1..] == [v] && [v][1..] == [];
    assert PiecesAll(cs, [v]) == Pieces(cs, v) + PiecesAll(cs, []);
    assert PiecesAll(cs, [k, v]) == Pieces(cs, k) + Pieces(cs, v);
    FillsWithinAppend(c, Pieces(cs, k), Pieces(cs, v));
  }

  lemma ListedIsFound(
    cs: Classes, buffers: seq<Buffer>, d: Dataclass, es: seq<Entry>, pairs: seq<Json>, name: string)
    requires FieldsHold(cs, buffers, es, pairs) && Known(es, d.names)
    ensures name in ListedKeys(pairs) <==> Find(es, name).Some?
  {
    assert forall e | e in es :: e.key.VStr?;
    PickHolds(cs, buffers, es, pairs, name);
  }

  lemma FilledHeightsExactly(
    cs: Classes, buffers: seq<Buffer>, d: Dataclass, es: seq<Entry>, fields: Json, n: int)
    requires fields.JObject? && fields.Get("items").JArray? && Known(es, d.names)
    requires FieldsHold(cs, buffers, es, fields.Get("items").items)
    ensures FilledHeights(d, fields, n) <==> FilledAtMost(es, d, n)
  {
    var pairs := fields.Get("items").items;
    forall name
      ensures name in ListedKeys(pairs) <==> Find(es, name).Some?
    {
      ListedIsFound(cs, buffers, d, es, pairs, name);
    }
    hide ListedKeys;
    hide Find;
    hide HeightAtMost;
    if FilledAtMost(es, d, n) {
      forall name | name in d.defaults && name in d.names && name !in ListedKeys(pairs)
        ensures HeightAtMost(d.defaults[name], n)
      {
        assert IsFilled(es, d, Entry(VStr(name), d.defaults[name]));
      }
    }
  }

  lemma FilledPiecesExactly(
    c: Codec, cs: Classes, buffers: seq<Buffer>, d: Dataclass, es: seq<Entry>, pairs: seq<Json>)
    requires Distinct(d.names) && Known(es, d.names) && Supplied(es, d.names, d.defaults) && DistinctKeys(es)
    requires FieldsHold(cs, buffers, es, pairs)
    ensures FillsWithin(c, Arrange(d.names, d.defaults, ListedKeys(pairs), PiecesEach(cs, pairs))) <==>
              FillsWithin(c, PiecesPairs(cs, pairs)) && FilledWithin(c, es, d)
  {
    forall name
      ensures name in ListedKeys(pairs) <==> Find(es, name).Some?
    {
      ListedIsFound(cs, buffers, d, es, pairs, name);
    }
    PickHolds(cs, buffers, es, pairs, "");
    DistinctStringKeys(es);
    KnownKeys(es, d.names);
    forall i | 0 <= i < |pairs|
      ensures NamesField(pairs[i])
    {
      assert es[i] in es && FieldHolds(cs, buffers, es[i], pairs[i]);
    }
    FillsWithinListed(c, cs, pairs);
    ArrangedWithin(c, d, ListedKeys(pairs), PiecesEach(cs, pairs));
    hide ListedKeys;
    hide PiecesEach;
    hide PiecesPairs;
    hide Arrange;
    hide Find;
    hide FillsWithin;
    hide Within;
    hide FieldsHold;
    if FilledWithin(c, es, d) {
      forall name | name in d.names && name !in ListedKeys(pairs)
        ensures Within(c, VStr(name)) && Within(c, d.defaults[name])
      {
        assert EntryWithin(c, Entry(VStr(name), d.defaults[name])) by {
          assert IsFilled(es, d, Entry(VStr(name), d.defaults[name]));
        }
      }
    }
  }

  lemma ExactlyMeans(c: Codec, cs: Classes, v: Value, j: Json, n: int)
    ensures Exactly(c, cs, v, j, n) <==>
              && (HeightAtMost(v, n) <==> FillsFit(cs, j, n))
              && (Within(c, v) <==> FillsWithin(c, Pieces(cs, j)))
  {
    hide HeightAtMost;
    hide FillsFit;
    hide Within;
    hide FillsWithin;
    hide Pieces;
  }

  lemma ConstructNeeds(pyType: string, d: Dataclass, es: seq<Entry>)
    requires Construct(pyType, d, VDict(es)).Some?
    ensures Known(es, d.names) && Supplied(es, d.names, d.defaults)
  {
  }

  /** The two conditions on an instance node, taken apart. */
  lemma InstanceParts(cs: Classes, tag: string, j: Json, n: int)
    requires j.JObject? && j.Get("kind") == JStr("custom") && j.Get("tag") == JStr(tag) && tag in cs
    requires j.Get("fields").JObject? && j.Get("fields").Get("kind") == JStr("dict")
    requires j.Get("fields").Get("items").JArray?
    ensures var fields := j.Get("fields");
            var pairs := fields.Get("items").items;
            && (FillsFit(cs, j, n) <==> FillsFit(cs, fields, n - 1) && FilledHeights(cs[tag], fields, n - 2))
            && Pieces(cs, j) == Arrange(cs[tag].names, cs[tag].defaults, ListedKeys(pairs), PiecesEach(cs, pairs))
            && Pieces(cs, fields) == PiecesPairs(cs, pairs)
  {
    hide FilledHeights;
    hide ListedKeys;
    hide PiecesEach;
    hide PiecesPairs;
    hide Arrange;
  }

  /** What the instance adds to its listed fields is the defaults it fills in. */
  lemma InstanceExactly(
    c: Codec, cs: Classes, buffers: seq<Buffer>, pyType: string, tag: string, es: seq<Entry>, j: Json, n: nat)
    requires j.JObject? && j.Get("kind") == JStr("custom") && j.Get("tag") == JStr(tag) && tag in cs
    requires Distinct(cs[tag].names) && Construct(pyType, cs[tag], VDict(es)).Some? && DistinctKeys(es)
    requires j.Get("fields").JObject? && j.Get("fields").Get("kind") == JStr("dict")
    requires j.Get("fields").Get("items").JArray? && n > 0
    requires FieldsHold(cs, buffers, es, j.Get("fields").Get("items").items)
    requires Exactly(c, cs, VDict(es), j.Get("fields"), n - 1)
    ensures Exactly(c, cs, Construct(pyType, cs[tag], VDict(es)).value, j, n)
  {
    hide *;
    var d, fields := cs[tag], j.Get("fields");
    var pairs := fields.Get("items").items;
    InstanceParts(cs, tag, j, n);
    ConstructNeeds(pyType, d, es);
    ExactlyMeans(c, cs, VDict(es), fields, n - 1);
    ExactlyMeans(c, cs, Construct(pyType, d, VDict(es)).value, j, n);
    InstanceHeight(pyType, d, es, n - 1);
    FilledHeightsExactly(cs, buffers, d, es, fields, n - 2);
    InstanceWithin(c, pyType, d, es);
    FilledPiecesExactly(c, cs, buffers, d, es, pairs);
  }

  lemma {:induction false} ReadExactly(
    c: Codec, cs: Classes, buffers: seq<Buffer>, j: Json, depth: nat, elements: nat, n: int)
    requires DataclassCodec(c, cs) && BuffersWithin(c, buffers) && Read(c, buffers, j, depth, elements).Ok?
    requires n >= c.limits.maxTreeDepth - depth
    ensures Exactly(c, cs, Read(c, buffers, j, depth, elements).value.0, j, n)
    decreases c.Room(depth), 0
  {
    hide ReadLeaf;
    hide ReadAll;
    hide ReadPairs;
    hide Rebuild;
    hide DataclassCodec;
    hide BuffersWithin;
    hide Exactly;
    hide AllExactly;
    hide EntriesAtMost;
    hide EntriesWithin;
    hide PairsFit;
    hide FillsWithin;
    var kind := j.Get("kind");
    if (kind == JStr("list") || kind == JStr("tuple")) && j.Get("items").JArray? {
      ReadAllExactly(c, cs, buffers, j.Get("items").items, depth + 1, elements + 1, n - 1);
      SequenceExactly(c, cs, ReadAll(c, buffers, j.Get("items").items, depth + 1, elements + 1).value.0, j, n);
    } else if kind == JStr("dict") && j.Get("items").JArray? {
      ReadPairsExactly(c, cs, buffers, j.Get("items").items, depth + 1, elements + 1, [], n - 1);
      NoEntriesYet(c, n - 1);
      DictionaryExactly(c, cs, ReadPairs(c, buffers, j.Get("items").items, depth + 1, elements + 1, []).value.0, j, n);
    } else if kind == JStr("custom") && j.Get("tag").JStr? {
      ReadExactly(c, cs, buffers, j.Get("fields"), depth + 1, elements + 1, n - 1);
      RebuildExactly(c, cs, buffers, j, depth, elements, n);
    } else {
      LeafExactly(c, cs, buffers, j, n);
    }
  }

  lemma NoEntriesYet(c: Codec, n: int)
    ensures EntriesAtMost([], n) && EntriesWithin(c, [])
  {
  }

  lemma RebuildExactly(
    c: Codec, cs: Classes, buffers: seq<Buffer>, j: Json, depth: nat, elements: nat, n: int)
    requires DataclassCodec(c, cs) && Read(c, buffers, j, depth, elements).Ok? && n >= c.limits.maxTreeDepth - depth
    requires j.JObject? && j.Get("kind") == JStr("custom") && j.Get("tag").JStr? && j.Get("tag").s in c.byTag
    requires Read(c, buffers, j.Get("fields"), depth + 1, elements + 1).Ok?
    requires Exactly(c, cs, Read(c, buffers, j.Get("fields"), depth + 1, elements + 1).value.0, j.Get("fields"), n - 1)
    ensures Exactly(c, cs, Read(c, buffers, j, depth, elements).value.0, j, n)
  {
    hide Exactly;
    hide ReadPairs;
    hide ReadAll;
    hide ReadLeaf;
    hide Construct;
    hide FieldsHold;
    hide Pieces;
    var fields, tag := j.Get("fields"), j.Get("tag").s;
    var f := Read(c, buffers, fields, depth + 1, elements + 1).value.0;
    DictComesFromDict(c, cs, buffers, fields, depth + 1, elements + 1);
    ReadFieldsHold(c, cs, buffers, fields.Get("items").items, depth + 2, elements + 2, []);
    assert f.entries[0..] == f.entries;
    assert Construct(c.byTag[tag].pyType, cs[tag], f) == Some(Read(c, buffers, j, depth, elements).value.0);
    InstanceExactly(c, cs, buffers, c.byTag[tag].pyType, tag, f.entries, j, n);
  }

  lemma {:induction false} ReadAllExactly(
    c: Codec, cs: Classes, buffers: seq<Buffer>, js: seq<Json>, depth: nat, elements: nat, n: int)
    requires DataclassCodec(c, cs) && BuffersWithin(c, buffers) && ReadAll(c, buffers, js, depth, elements).Ok?
    requires n >= c.limits.maxTreeDepth - depth
    ensures AllExactly(c, cs, ReadAll(c, buffers, js, depth, elements).value.0, js, n)
    decreases c.Room(depth), 1, |js|
  {
    hide Read;
    hide DataclassCodec;
    hide BuffersWithin;
    hide Exactly;
    if js == [] {
      NoFills(c);
      hide FillsWithin;
    } else {
      hide AllExactly;
      ReadExactly(c, cs, buffers, js[0], depth, elements, n);
      var (v, n1) := Read(c, buffers, js[0], depth, elements).value;
      ReadAllExactly(c, cs, buffers, js[1..], depth, n1, n);
      AllExactlyFront(c, cs, v, ReadAll(c, buffers, js[1..], depth, n1).value.0, js, n);
    }
  }

  lemma {:induction false} ReadPairsExactly(
    c: Codec, cs: Classes, buffers: seq<Buffer>, js: seq<Json>, depth: nat, elements: nat, done: seq<Entry>, n: int)
    requires DataclassCodec(c, cs) && BuffersWithin(c, buffers)
    requires ReadPairs(c, buffers, js, depth, elements, done).Ok? && n >= c.limits.maxTreeDepth - depth
    ensures var es := ReadPairs(c, buffers, js, depth, elements, done).value.0;
            && (EntriesAtMost(es, n) <==> EntriesAtMost(done, n) && PairsFit(cs, js, n))
            && (EntriesWithin(c, es) <==> EntriesWithin(c, done) && FillsWithin(c, PiecesPairs(cs, js)))
    decreases c.Room(depth), 1, |js|
  {
    hide Read;
    hide DataclassCodec;
    hide BuffersWithin;
    hide Exactly;
    hide EntriesAtMost;
    hide EntriesWithin;
    hide FillsWithin;
    if js == [] {
      NoFills(c);
    } else {
      hide PairsFit;
      var p := js[0];
      ReadExactly(c, cs, buffers, p.items[0], depth, elements, n);
      var (k, n1) := Read(c, buffers, p.items[0], depth, elements).value;
      ReadExactly(c, cs, buffers, p.items[1], depth, n1, n);
      var (v, n2) := Read(c, buffers, p.items[1], depth, n1).value;
      var e := Entry(k, v);
      ReadPairsExactly(c, cs, buffers, js[1..], depth, n2, done + [e], n);
      PairExactly(c, cs, e, p, n);
      EntriesBack(c, done, e, n);
      PairsFront(c, cs, js, n);
    }
  }

  lemma EntriesBack(c: Codec, done: seq<Entry>, e: Entry, n: int)
    ensures EntriesAtMost(done + [e], n) <==> EntriesAtMost(done, n) && EntryAtMost(e, n)
    ensures EntriesWithin(c, done + [e]) <==> EntriesWithin(c, done) && EntryWithin(c, e)
  {
    hide EntryAtMost;
    hide EntryWithin;
    assert forall x :: x in done + [e] <==> x in done || x == e;
  }

  lemma PairsFront(c: Codec, cs: Classes, js: seq<Json>, n: int)
    requires js != [] && js[0].JArray?
    ensures PairsFit(cs, js, n) <==> AllFit(cs, js[0].items, n) && PairsFit(cs, js[1..], n)
    ensures FillsWithin(c, PiecesPairs(cs, js)) <==>
              FillsWithin(c, PiecesAll(cs, js[0].items)) && FillsWithin(c, PiecesPairs(cs, js[1..]))
  {
    hide AllFit;
    hide PiecesAll;
    hide FillsWithin;
    FillsWithinAppend(c, PiecesAll(cs, js[0].items), PiecesPairs(cs, js[1..]));
    InFront(js[0], js[1..]);
    assert js == [js[0]] + js[1..];
  }

  // ---------- Main results ----------

  /** Every accepted packet: the tree is within the depth limit exactly when the
      defaults the packet leaves out fit below the nodes that leave them out; and
      so for every larger number of levels. */
  lemma AcceptedDepth(c: Codec, cs: Classes, metadata: seq<Byte>, raw: seq<Byte>, n: int)
    requires DataclassCodec(c, cs) && Decode(c, metadata, raw).Ok? && n >= c.limits.maxTreeDepth
    ensures var root := c.platform.parse(metadata).value.Get("root");
            HeightAtMost(Decode(c, metadata, raw).value, n) <==> FillsFit(cs, root, n)
  {
    DecodedExactly(c, cs, metadata, raw, n);
  }

  /** Every accepted packet: the tree has all its leaves within the limits exactly
      when the defaults the packet leaves out have. */
  lemma AcceptedLeaves(c: Codec, cs: Classes, metadata: seq<Byte>, raw: seq<Byte>)
    requires DataclassCodec(c, cs) && Decode(c, metadata, raw).Ok?
    ensures var root := c.platform.parse(metadata).value.Get("root");
            Within(c, Decode(c, metadata, raw).value) <==> FillsWithin(c, Pieces(cs, root))
  {
    DecodedExactly(c, cs, metadata, raw, c.limits.maxTreeDepth);
  }

  lemma DecodedExactly(c: Codec, cs: Classes, metadata: seq<Byte>, raw: seq<Byte>, n: int)
    requires DataclassCodec(c, cs) && Decode(c, metadata, raw).Ok? && n >= c.limits.maxTreeDepth
    ensures Exactly(c, cs, Decode(c, metadata, raw).value, c.platform.parse(metadata).value.Get("root"), n)
  {
    hide Table;
    hide Read;
    hide Exactly;
    var envelope := c.platform.parse(metadata).value;
    var buffers := Table(c, envelope.Get("tensors").items, raw, 0).value.0;
    TableWithin(c, envelope.Get("tensors").items, raw, 0);
    ReadExactly(c, cs, buffers, envelope.Get("root"), 0, 0, n);
  }
}
