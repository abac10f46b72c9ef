/** The adapters the repository registers: dataclasses rebuilt from their own
    field names, with defaults for the fields that are not given. */
module Adapters {
  import opened Results
  import opened Values
  import opened Packets
  import opened RoundTrip
  import opened DecodeLimits
  import opened MapTensors

  ghost predicate Distinct(names: seq<string>) {
    forall i, j | 0 <= i < j < |names| :: names[i] != names[j]
  }

  /** A dataclass: its field names in declaration order and the values its
      constructor uses for fields it is not given. */
  datatype Dataclass = Dataclass(names: seq<string>, defaults: map<string, Value>)

  function FieldValue(entries: seq<Entry>, defaults: map<string, Value>, name: string): Value
    requires Find(entries, name).Some? || name in defaults
  {
    if Find(entries, name).Some? then Find(entries, name).value else defaults[name]
  }

  predicate Supplied(entries: seq<Entry>, names: seq<string>, defaults: map<string, Value>) {
    forall name | name in names :: Find(entries, name).Some? || name in defaults
  }

  /** `encode_fields` of the instance: all fields in declaration order. */
  function FieldDict(entries: seq<Entry>, names: seq<string>, defaults: map<string, Value>): seq<Entry>
    requires Supplied(entries, names, defaults)
  {
    seq(|names|, i requires 0 <= i < |names| => Entry(VStr(names[i]), FieldValue(entries, defaults, names[i])))
  }

  predicate Known(entries: seq<Entry>, names: seq<string>) {
    forall e | e in entries :: e.key.VStr? && e.key.s in names
  }

  /** `python_type(**fields)`: raises on a key that is no field name and on a
      missing field without a default. */
  function Construct(pyType: string, d: Dataclass, fields: Value): Option<Value> {
    if !fields.VDict? || !Known(fields.entries, d.names) then None
    else if !Supplied(fields.entries, d.names, d.defaults) then None
    else Some(VCustom(pyType, VDict(FieldDict(fields.entries, d.names, d.defaults))))
  }

  function DataclassAdapter(tag: string, pyType: string, d: Dataclass): TypeAdapter {
    TypeAdapter(tag, pyType, fields => Construct(pyType, d, fields))
  }

  /** A codec all of whose adapters were made by `dataclass_adapter`. */
  ghost predicate DataclassCodec(c: Codec, classes: map<string, Dataclass>) {
    && c.Consistent()
    && forall tag | tag in c.byTag ::
         && tag in classes && Distinct(classes[tag].names)
         && c.byTag[tag] == DataclassAdapter(tag, c.byTag[tag].pyType, classes[tag])
  }

  // ---------- The fields of an instance ----------

  lemma FieldDictFind(entries: seq<Entry>, d: Dataclass, i: nat)
    requires Distinct(d.names) && i < |d.names| && Supplied(entries, d.names, d.defaults)
    ensures Find(FieldDict(entries, d.names, d.defaults), d.names[i])
              == Some(FieldValue(entries, d.defaults, d.names[i]))
  {
    FindAt(FieldDict(entries, d.names, d.defaults), i, d.names[i]);
  }

  /** The constructor makes the same instance again from the instance's fields. */
  lemma ConstructAgain(pyType: string, d: Dataclass, entries: seq<Entry>)
    requires Distinct(d.names) && Supplied(entries, d.names, d.defaults)
    ensures var fields := FieldDict(entries, d.names, d.defaults);
            Construct(pyType, d, VDict(fields)) == Some(VCustom(pyType, VDict(fields)))
  {
    var fields := FieldDict(entries, d.names, d.defaults);
    forall i | 0 <= i < |d.names|
      ensures Find(fields, d.names[i]) == Some(FieldValue(entries, d.defaults, d.names[i]))
    {
      FieldDictFind(entries, d, i);
    }
    assert FieldDict(fields, d.names, d.defaults) == fields;
  }

  /** Every field the constructor keeps was given to it or is a default. */
  lemma FieldGiven(entries: seq<Entry>, d: Dataclass, e: Entry)
    requires Supplied(entries, d.names, d.defaults) && e in FieldDict(entries, d.names, d.defaults)
    ensures e.key.VStr? && (e in entries || (e.key.s in d.defaults && e.val == d.defaults[e.key.s]))
  {
    var fields := FieldDict(entries, d.names, d.defaults);
    var i :| 0 <= i < |d.names| && fields[i] == e;
    if Find(entries, d.names[i]).Some? {
      var k := FoundAt(entries, d.names[i]);
      assert entries[k] in entries;
    }
  }

  lemma FieldDictKeys(entries: seq<Entry>, d: Dataclass)
    requires Distinct(d.names) && Supplied(entries, d.names, d.defaults)
    ensures DistinctKeys(FieldDict(entries, d.names, d.defaults))
  {
  }

  ghost predicate DefaultsFaithful(c: Codec, d: Dataclass) {
    forall name | name in d.defaults :: Faithful(c, d.defaults[name])
  }

  ghost predicate DefaultsWithin(c: Codec, d: Dataclass) {
    forall name | name in d.defaults :: Within(c, VStr(name)) && Within(c, d.defaults[name])
  }

  lemma FieldDictFaithful(c: Codec, entries: seq<Entry>, d: Dataclass)
    requires Distinct(d.names) && Supplied(entries, d.names, d.defaults)
    ensures DefaultsFaithful(c, d) && Faithful(c, VDict(entries)) ==>
              Faithful(c, VDict(FieldDict(entries, d.names, d.defaults)))
    ensures DefaultsWithin(c, d) && Within(c, VDict(entries)) ==>
              Within(c, VDict(FieldDict(entries, d.names, d.defaults)))
  {
    hide FieldDict;
    forall e | e in FieldDict(entries, d.names, d.defaults)
      ensures e.key.VStr? && (e in entries || (e.key.s in d.defaults && e.val == d.defaults[e.key.s]))
    {
      FieldGiven(entries, d, e);
    }
    FieldDictKeys(entries, d);
  }

  // ---------- Dataclass codecs meet the laws ----------

  lemma DataclassRebuilds(c: Codec, tag: string, pyType: string, d: Dataclass, f: Value)
    requires Distinct(d.names) && f.VDict? && DefaultsFaithful(c, d)
    ensures var a := DataclassAdapter(tag, pyType, d);
            a.decodeFields(f).Some? ==> Rebuilds(c, a, f, a.decodeFields(f).value)
  {
    hide FieldDict;
    hide Faithful;
    if Construct(pyType, d, f).Some? {
      ConstructAgain(pyType, d, f.entries);
      FieldDictFaithful(c, f.entries, d);
      hide Construct;
    }
  }

  /** What a dataclass constructor builds it builds again from the instance's
      own fields, defaults or not. */
  lemma DataclassCodecRebuilds(c: Codec, classes: map<string, Dataclass>)
    requires DataclassCodec(c, classes)
    requires forall tag | tag in c.byTag :: DefaultsFaithful(c, classes[tag])
    ensures AdaptersRebuild(c)
  {
    forall tag, f, x | Builds(c, tag, f, x) && DistinctKeys(f.entries)
      ensures Rebuilds(c, c.byTag[tag], f, x)
    {
      DataclassRebuilds(c, tag, c.byTag[tag].pyType, classes[tag], f);
    }
  }

  lemma ConstructKeepsLeaves(c: Codec, pyType: string, d: Dataclass, f: Value)
    requires Distinct(d.names) && DefaultsWithin(c, d) && Construct(pyType, d, f).Some?
    ensures Within(c, f) ==> Within(c, Construct(pyType, d, f).value)
  {
    hide FieldDict;
    FieldDictFaithful(c, f.entries, d);
  }

  lemma DataclassCodecKeepsLeaves(c: Codec, classes: map<string, Dataclass>)
    requires DataclassCodec(c, classes)
    requires forall tag | tag in c.byTag :: DefaultsWithin(c, classes[tag])
    ensures AdaptersKeepLeaves(c)
  {
    forall tag, f, x | Builds(c, tag, f, x) && DistinctKeys(f.entries)
      ensures Within(c, f) ==> Within(c, x)
    {
      assert Construct(c.byTag[tag].pyType, classes[tag], f) == Some(x);
      hide *;
      ConstructKeepsLeaves(c, c.byTag[tag].pyType, classes[tag], f);
    }
  }

  lemma ConstructKeepsSize(pyType: string, d: Dataclass, f: Value)
    requires Distinct(d.names) && d.defaults == map[]
    requires Construct(pyType, d, f).Some? && DistinctKeys(f.entries)
    ensures KeepsSize(f, Construct(pyType, d, f).value)
  {
    hide FieldDict;
    hide CountEntries;
    FieldDictCount(f.entries, d);
    assert DefaultWeights(d.defaults) == map[];
    NothingMissing(d.names, KeysOf(f.entries));
    DataclassHeight(pyType, f.entries, d.names);
    hide HeightAtMost;
    var x := Construct(pyType, d, f).value;
    assert f == VDict(f.entries) && x == VCustom(pyType, VDict(FieldDict(f.entries, d.names, map[])));
    assert Count(x.fields) == 1 + CountEntries(x.fields.entries);
    assert Count(f) == 1 + CountEntries(f.entries);
    assert Count(x) == 1 + Count(x.fields);
  }

  /** Without defaults nothing is added. */
  lemma DataclassCodecKeepsSize(c: Codec, classes: map<string, Dataclass>)
    requires DataclassCodec(c, classes)
    requires forall tag | tag in c.byTag :: classes[tag].defaults == map[]
    ensures AdaptersKeepSize(c)
  {
    forall tag, f, x | Builds(c, tag, f, x) && DistinctKeys(f.entries)
      ensures KeepsSize(f, x)
    {
      assert Construct(c.byTag[tag].pyType, classes[tag], f) == Some(x);
      hide *;
      ConstructKeepsSize(c.byTag[tag].pyType, classes[tag], f);
    }
  }

  lemma DataclassHeight(pyType: string, entries: seq<Entry>, names: seq<string>)
    requires Supplied(entries, names, map[])
    ensures forall n: int | HeightAtMost(VDict(entries), n) ::
              HeightAtMost(VCustom(pyType, VDict(FieldDict(entries, names, map[]))), n + 1)
  {
    var fields := FieldDict(entries, names, map[]);
    forall n: int | HeightAtMost(VDict(entries), n)
      ensures HeightAtMost(VCustom(pyType, VDict(fields)), n + 1)
    {
      forall e | e in fields
        ensures HeightAtMost(e.key, n - 1) && HeightAtMost(e.val, n - 1)
      {
        FieldGiven(entries, Dataclass(names, map[]), e);
        assert e in entries && HeightAtMost(e.val, n - 1);
      }
      assert HeightAtMost(VDict(fields), n);
    }
  }

  // ---------- Sums over field names ----------

  function Total(ws: seq<nat>): nat {
    if ws == [] then 0 else Total(ws[..|ws| - 1]) + ws[|ws| - 1]
  }

  /** `dict(zip(keys, xs)).get(name)`, the first of equal keys. */
  function Pick<X>(keys: seq<string>, xs: seq<X>, name: string): (x: Option<X>)
    requires |keys| == |xs|
    ensures x.Some? <==> name in keys
  {
    if keys == [] then None else if keys[0] == name then Some(xs[0]) else Pick(keys[1..], xs[1..], name)
  }

  function Extra(extra: map<string, nat>, name: string): nat {
    if name in extra then extra[name] else 0
  }

  function Weight(keys: seq<string>, ws: seq<nat>, extra: map<string, nat>, name: string): nat
    requires |keys| == |ws|
  {
    var w: Option<nat> := Pick<nat>(keys, ws, name);
    if w.Some? then w.value else Extra(extra, name)
  }

  function Collect(names: seq<string>, keys: seq<string>, ws: seq<nat>, extra: map<string, nat>): nat
    requires |keys| == |ws|
  {
    if names == [] then 0
    else Collect(names[..|names| - 1], keys, ws, extra) + Weight(keys, ws, extra, names[|names| - 1])
  }

  function Missing(names: seq<string>, keys: seq<string>, extra: map<string, nat>): nat {
    if names == [] then 0
    else
      Missing(names[..|names| - 1], keys, extra)
      + (if names[|names| - 1] in keys then 0 else Extra(extra, names[|names| - 1]))
  }

  lemma {:induction false} CollectSame(
    names: seq<string>, keys: seq<string>, ws: seq<nat>, keys': seq<string>, ws': seq<nat>, extra: map<string, nat>)
    requires |keys| == |ws| && |keys'| == |ws'|
    requires forall name | name in names :: Pick(keys, ws, name) == Pick(keys', ws', name)
    ensures Collect(names, keys, ws, extra) == Collect(names, keys', ws', extra)
    ensures Missing(names, keys, extra) == Missing(names, keys', extra)
    decreases |names|
  {
    if names != [] {
      CollectSame(names[..|names| - 1], keys, ws, keys', ws', extra);
      assert names[|names| - 1] in names;
    }
  }

  function Without<X>(xs: seq<X>, i: nat): seq<X>
    requires i < |xs|
  {
    xs[..i] + xs[i + 1..]
  }

  lemma {:induction false} TotalWithout(ws: seq<nat>, i: nat)
    requires i < |ws|
    ensures Total(ws) == Total(Without(ws, i)) + ws[i]
    decreases |ws|
  {
    var rest, n := Without(ws, i), |ws| - 1;
    if i == n {
      assert rest == ws[..n];
    } else {
      TotalWithout(ws[..n], i);
      assert rest[..|rest| - 1] == Without(ws[..n], i) && rest[|rest| - 1] == ws[n];
    }
  }

  lemma {:induction false} PickWithout<X>(keys: seq<string>, xs: seq<X>, i: nat, name: string)
    requires |keys| == |xs| && i < |keys| && keys[i] != name
    ensures Pick(Without(keys, i), Without(xs, i), name) == Pick(keys, xs, name)
    decreases i
  {
    if i == 0 {
      assert Without(keys, 0) == keys[1..] && Without(xs, 0) == xs[1..];
    } else {
      PickWithout(keys[1..], xs[1..], i - 1, name);
      assert Without(keys, i)[1..] == Without(keys[1..], i - 1) && Without(xs, i)[1..] == Without(xs[1..], i - 1);
    }
  }

  lemma {:induction false} PickAt<X>(keys: seq<string>, xs: seq<X>, i: nat)
    requires |keys| == |xs| && i < |keys| && Distinct(keys)
    ensures Pick(keys, xs, keys[i]) == Some(xs[i])
    decreases i
  {
    if i > 0 {
      assert keys[0] != keys[i];
      PickAt(keys[1..], xs[1..], i - 1);
    }
  }

  /** Collecting by field name what is listed by key, in whatever order, adds
      exactly the extras of the names that are not listed. */
  lemma {:induction false} CollectTotal(names: seq<string>, keys: seq<string>, ws: seq<nat>, extra: map<string, nat>)
    requires |keys| == |ws| && Distinct(names) && Distinct(keys) && forall k | k in keys :: k in names
    ensures Collect(names, keys, ws, extra) == Total(ws) + Missing(names, keys, extra)
    decreases |names|
  {
    if keys == [] {
      CollectNone(names, extra);
    } else {
      assert keys[0] in keys;
      var n := |names| - 1;
      var others, last := names[..n], names[n];
      if last in keys {
        var i :| 0 <= i < |keys| && keys[i] == last;
        OtherKeys(names, keys, i);
        CollectTotal(others, Without(keys, i), Without(ws, i), extra);
        forall name | name in others
          ensures Pick(keys, ws, name) == Pick(Without(keys, i), Without(ws, i), name)
        {
          PickWithout(keys, ws, i, name);
        }
        CollectSame(others, keys, ws, Without(keys, i), Without(ws, i), extra);
        TotalWithout(ws, i);
        PickAt(keys, ws, i);
      } else {
        CollectTotal(others, keys, ws, extra);
      }
    }
  }

  lemma {:induction false} CollectNone(names: seq<string>, extra: map<string, nat>)
    ensures Collect(names, [], [], extra) == Missing(names, [], extra)
    decreases |names|
  {
    if names != [] {
      CollectNone(names[..|names| - 1], extra);
    }
  }

  lemma OtherKeys(names: seq<string>, keys: seq<string>, i: nat)
    requires names != [] && i < |keys| && keys[i] == names[|names| - 1]
    requires Distinct(names) && Distinct(keys) && forall k | k in keys :: k in names
    ensures Distinct(Without(keys, i)) && forall k | k in Without(keys, i) :: k in names[..|names| - 1]
  {
    var rest := Without(keys, i);
    forall j | 0 <= j < |rest|
      ensures rest[j] == keys[if j < i then j else j + 1] && rest[j] in names[..|names| - 1]
    {
      var k := if j < i then j else j + 1;
      assert rest[j] == keys[k] && keys[k] in keys && keys[k] != keys[i];
    }
  }

  lemma {:induction false} NothingMissing(names: seq<string>, keys: seq<string>)
    ensures Missing(names, keys, map[]) == 0
    decreases |names|
  {
    if names != [] {
      NothingMissing(names[..|names| - 1], keys);
    }
  }

  // ---------- How many objects an instance has ----------

  function KeysOf(es: seq<Entry>): seq<string>
    requires forall e | e in es :: e.key.VStr?
  {
    seq(|es|, i requires 0 <= i < |es| => es[i].key.s)
  }

  function WeightsOf(es: seq<Entry>): seq<nat> {
    seq(|es|, i requires 0 <= i < |es| => 1 + Count(es[i].val))
  }

  /** What a default adds to the tree: its name and its value. */
  function DefaultWeights(defaults: map<string, Value>): map<string, nat> {
    map name | name in defaults :: 1 + Count(defaults[name])
  }

  lemma {:induction false} EntriesTotal(es: seq<Entry>)
    requires forall e | e in es :: e.key.VStr?
    ensures CountEntries(es) == Total(WeightsOf(es))
    decreases |es|
  {
    if es != [] {
      var n := |es| - 1;
      assert es[n] in es;
      EntriesTotal(es[..n]);
      assert WeightsOf(es)[..n] == WeightsOf(es[..n]);
      assert CountEntry(es[n]) == WeightsOf(es)[n];
    }
  }

  lemma {:induction false} PickFind(es: seq<Entry>, name: string)
    requires forall e | e in es :: e.key.VStr?
    ensures Pick(KeysOf(es), WeightsOf(es), name)
              == if Find(es, name).Some? then Some(1 + Count(Find(es, name).value)) else None
    decreases |es|
  {
    if es != [] {
      assert es[0] in es;
      PickFind(es[1..], name);
      assert KeysOf(es)[1..] == KeysOf(es[1..]) && WeightsOf(es)[1..] == WeightsOf(es[1..]);
    }
  }

  lemma {:induction false} FieldDictCollects(es: seq<Entry>, names: seq<string>, defaults: map<string, Value>)
    requires Supplied(es, names, defaults) && forall e | e in es :: e.key.VStr?
    ensures CountEntries(FieldDict(es, names, defaults))
              == Collect(names, KeysOf(es), WeightsOf(es), DefaultWeights(defaults))
    decreases |names|
  {
    if names != [] {
      var n := |names| - 1;
      FieldDictCollects(es, names[..n], defaults);
      var fields := FieldDict(es, names, defaults);
      assert fields[..n] == FieldDict(es, names[..n], defaults);
      assert CountEntry(fields[n]) == 1 + Count(FieldValue(es, defaults, names[n]));
      PickFind(es, names[n]);
    }
  }

  /** The fields of an instance have the objects of those given and of the
      defaults filled in. */
  lemma FieldDictCount(es: seq<Entry>, d: Dataclass)
    requires Distinct(d.names) && Supplied(es, d.names, d.defaults) && Known(es, d.names) && DistinctKeys(es)
    ensures CountEntries(FieldDict(es, d.names, d.defaults))
              == CountEntries(es) + Missing(d.names, KeysOf(es), DefaultWeights(d.defaults))
  {
    hide FieldDict;
    FieldDictCollects(es, d.names, d.defaults);
    EntriesTotal(es);
    DistinctStringKeys(es);
    forall k | k in KeysOf(es)
      ensures k in d.names
    {
      var i :| 0 <= i < |es| && KeysOf(es)[i] == k;
      assert es[i] in es;
    }
    CollectTotal(d.names, KeysOf(es), WeightsOf(es), DefaultWeights(d.defaults));
  }

  lemma DistinctStringKeys(es: seq<Entry>)
    requires DistinctKeys(es) && forall e | e in es :: e.key.VStr?
    ensures Distinct(KeysOf(es))
  {
    forall i, j | 0 <= i < j < |es|
      ensures KeysOf(es)[i] != KeysOf(es)[j]
    {
      assert es[i] in es && es[j] in es && !SameKey(es[i].key, es[j].key);
    }
  }

  // ---------- Mapping ----------

  /** Fields that come in declaration order are taken as they are. */
  lemma ConstructInOrder(pyType: string, d: Dataclass, es: seq<Entry>)
    requires Distinct(d.names) && |es| == |d.names|
    requires forall i | 0 <= i < |es| :: es[i].key == VStr(d.names[i])
    ensures Construct(pyType, d, VDict(es)) == Some(VCustom(pyType, VDict(es)))
  {
    forall i | 0 <= i < |d.names|
      ensures Find(es, d.names[i]) == Some(es[i].val)
    {
      FindAt(es, i, d.names[i]);
    }
    assert FieldDict(es, d.names, d.defaults) == es;
  }

  lemma ConstructUniform(pyType: string, d: Dataclass, a: seq<Entry>, b: seq<Entry>)
    requires Distinct(d.names) && SameNames(a, b)
    requires Construct(pyType, d, VDict(a)) == Some(VCustom(pyType, VDict(a)))
    ensures Construct(pyType, d, VDict(b)) == Some(VCustom(pyType, VDict(b)))
  {
    assert a == FieldDict(a, d.names, d.defaults);
    ConstructInOrder(pyType, d, b);
  }

  /** Dataclass adapters also satisfy the assumption made when mapping. */
  lemma DataclassCodecUniform(c: Codec, classes: map<string, Dataclass>)
    requires DataclassCodec(c, classes)
    ensures AdaptersUniform(c)
  {
    hide Construct;
    hide SameNames;
    hide Distinct;
    forall ty, a: seq<Entry>, b: seq<Entry> |
      && ty in c.byType && SameNames(a, b)
      && c.byType[ty].decodeFields(VDict(a)) == Some(VCustom(ty, VDict(a)))
      && c.byType[ty].decodeFields(VDict(b)).Some?
      ensures c.byType[ty].decodeFields(VDict(b)) == Some(VCustom(ty, VDict(b)))
    {
      ConstructUniform(ty, classes[c.byType[ty].tag], a, b);
    }
  }
}
