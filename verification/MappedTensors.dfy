/** Which tensors a mapping reaches. */
module MappedTensors {
  import opened Tensors
  import opened Values
  import opened Packets
  import opened RoundTrip
  import opened MapTensors

  /** The tensors of a tree, in reading order. */
  function TensorsOf(v: Value): seq<Dense>
    decreases v, 0
  {
    match v
    case VTensor(t) => [t]
    case VList(items) => TensorsAll(items)
    case VTuple(items) => TensorsAll(items)
    case VDict(entries) => TensorsEntries(entries)
    case VCustom(_, fields) => TensorsOf(fields)
    case _ => []
  }

  function TensorsAll(vs: seq<Value>): seq<Dense>
    decreases vs, 1
  {
    if vs == [] then [] else TensorsAll(vs[..|vs| - 1]) + TensorsOf(vs[|vs| - 1])
  }

  function TensorsEntry(e: Entry): seq<Dense>
    decreases e, 1
  {
    TensorsOf(e.key) + TensorsOf(e.val)
  }

  function TensorsEntries(es: seq<Entry>): seq<Dense>
    decreases es, 1
  {
    if es == [] then [] else TensorsEntries(es[..|es| - 1]) + TensorsEntry(es[|es| - 1])
  }

  function Each(f: Dense -> Dense, ts: seq<Dense>): seq<Dense> {
    seq(|ts|, i requires 0 <= i < |ts| => f(ts[i]))
  }

  lemma EachAppend(f: Dense -> Dense, a: seq<Dense>, b: seq<Dense>)
    ensures Each(f, a + b) == Each(f, a) + Each(f, b)
  {
  }

  /** Every instance names its fields by strings, as `dataclass_adapter` does. */
  predicate NamedFields(v: Value) {
    match v
    case VList(items) => forall x | x in items :: NamedFields(x)
    case VTuple(items) => forall x | x in items :: NamedFields(x)
    case VDict(entries) => forall e | e in entries :: NamedFields(e.key) && NamedFields(e.val)
    case VCustom(_, fields) =>
      fields.VDict? && (forall e | e in fields.entries :: e.key.VStr?) && NamedFields(fields)
    case _ => true
  }

  /** The transform is applied to every tensor once, in reading order: no
      tensor of the source is left in the result untransformed, and none is
      lost or repeated. */
  lemma {:induction false} MapReachesEach(c: Codec, v: Value, f: Dense -> Dense)
    requires AdaptersUniform(c) && Faithful(c, v) && NamedFields(v) && Map(c, v, f).Ok?
    ensures TensorsOf(Map(c, v, f).value) == Each(f, TensorsOf(v))
    decreases v, 1
  {
    hide MapAll;
    hide MapEntries;
    hide MapFields;
    hide MapEach;
    hide TensorsAll;
    hide TensorsEntries;
    match v
    case VList(items) => MapAllReaches(c, items, f);
    case VTuple(items) => MapAllReaches(c, items, f);
    case VDict(entries) =>
      MapEntriesEach(c, entries, f);
      MapEachReaches(c, entries, f);
    case VCustom(ty, fields) =>
      MapFieldsNames(c, fields.entries, f);
      MapFieldsReaches(c, fields.entries, f);
      assert Map(c, v, f).value == VCustom(ty, VDict(MapFields(c, fields.entries, f).value));
    case _ =>
  }

  lemma {:induction false} MapAllReaches(c: Codec, vs: seq<Value>, f: Dense -> Dense)
    requires AdaptersUniform(c) && MapAll(c, vs, f).Ok?
    requires forall v | v in vs :: Faithful(c, v) && NamedFields(v)
    ensures TensorsAll(MapAll(c, vs, f).value) == Each(f, TensorsAll(vs))
    decreases vs, 0
  {
    hide Map;
    hide AdaptersUniform;
    hide TensorsOf;
    hide Each;
    if vs != [] {
      var front, last := vs[..|vs| - 1], vs[|vs| - 1];
      MapAllReaches(c, front, f);
      MapReachesEach(c, last, f);
      EachAppend(f, TensorsAll(front), TensorsOf(last));
      var ws := MapAll(c, vs, f).value;
      assert ws[..|ws| - 1] == MapAll(c, front, f).value;
    } else {
      EachNone(f);
    }
  }

  lemma EachNone(f: Dense -> Dense)
    ensures Each(f, []) == []
  {
  }

  lemma {:induction false} MapEachReaches(c: Codec, es: seq<Entry>, f: Dense -> Dense)
    requires AdaptersUniform(c) && MapEach(c, es, f).Ok?
    requires forall e | e in es :: Faithful(c, e.key) && Faithful(c, e.val) && NamedFields(e.key) && NamedFields(e.val)
    ensures TensorsEntries(MapEach(c, es, f).value) == Each(f, TensorsEntries(es))
    decreases es, 0
  {
    hide Map;
    hide AdaptersUniform;
    hide TensorsOf;
    hide Each;
    if es != [] {
      var front, last := es[..|es| - 1], es[|es| - 1];
      MapEachReaches(c, front, f);
      MapEntryReaches(c, last, f);
      EachAppend(f, TensorsEntries(front), TensorsEntry(last));
      var ws := MapEach(c, es, f).value;
      assert ws[..|ws| - 1] == MapEach(c, front, f).value;
    } else {
      EachNone(f);
    }
  }

  lemma {:induction false} MapEntryReaches(c: Codec, e: Entry, f: Dense -> Dense)
    requires AdaptersUniform(c) && MapEntry(c, e, f).Ok?
    requires Faithful(c, e.key) && Faithful(c, e.val) && NamedFields(e.key) && NamedFields(e.val)
    ensures TensorsEntry(MapEntry(c, e, f).value) == Each(f, TensorsEntry(e))
    decreases e, 1
  {
    hide Map;
    hide TensorsOf;
    MapReachesEach(c, e.key, f);
    MapReachesEach(c, e.val, f);
    EachAppend(f, TensorsOf(e.key), TensorsOf(e.val));
  }

  lemma {:induction false} MapFieldsReaches(c: Codec, es: seq<Entry>, f: Dense -> Dense)
    requires AdaptersUniform(c) && MapFields(c, es, f).Ok?
    requires forall e | e in es :: e.key.VStr? && Faithful(c, e.val) && NamedFields(e.val)
    ensures TensorsEntries(MapFields(c, es, f).value) == Each(f, TensorsEntries(es))
    decreases es, 0
  {
    hide Map;
    hide AdaptersUniform;
    hide TensorsOf;
    hide Each;
    if es != [] {
      var front, last := es[..|es| - 1], es[|es| - 1];
      MapFieldsReaches(c, front, f);
      MapFieldReaches(c, last, f);
      EachAppend(f, TensorsEntries(front), TensorsEntry(last));
      var ws := MapFields(c, es, f).value;
      assert ws[..|ws| - 1] == MapFields(c, front, f).value;
    } else {
      EachNone(f);
    }
  }

  lemma {:induction false} MapFieldReaches(c: Codec, e: Entry, f: Dense -> Dense)
    requires AdaptersUniform(c) && MapField(c, e, f).Ok?
    requires e.key.VStr? && Faithful(c, e.val) && NamedFields(e.val)
    ensures TensorsEntry(MapField(c, e, f).value) == Each(f, TensorsEntry(e))
    decreases e, 1
  {
    hide Map;
    MapReachesEach(c, e.val, f);
    assert TensorsOf(e.key) == [];
  }
}
