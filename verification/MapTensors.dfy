/** Rebuilding a tree while transforming its tensors. */
module MapTensors {
  import opened Results
  import opened Tensors
  import opened Values
  import opened Packets
  import opened RoundTrip

  /** `{...}[key] = val`: an equal key keeps its place and gets the new value. */
  function Insert(entries: seq<Entry>, key: Value, val: Value): seq<Entry> {
    if entries == [] then [Entry(key, val)]
    else if SameKey(entries[0].key, key) then [Entry(entries[0].key, val)] + entries[1..]
    else [entries[0]] + Insert(entries[1..], key, val)
  }

  function Map(c: Codec, v: Value, f: Dense -> Dense): Result<Value>
    decreases v, 0
  {
    match v
    case VTensor(t) => Ok(VTensor(f(t)))
    case VList(items) =>
      var vs :- MapAll(c, items, f);
      Ok(VList(vs))
    case VTuple(items) =>
      var vs :- MapAll(c, items, f);
      Ok(VTuple(vs))
    case VDict(entries) =>
      var es :- MapEntries(c, entries, f);
      Ok(VDict(es))
    case VCustom(pyType, fields) =>
      if pyType !in c.byType then Err(InvalidObject)
      else if !fields.VDict? then Err(Uncaught)
      else
        var es :- MapFields(c, fields.entries, f);
        var x := c.byType[pyType].decodeFields(VDict(es));
        if x.None? then Err(Uncaught) else Ok(x.value)
    case _ => Ok(v)
  }

  function MapAll(c: Codec, vs: seq<Value>, f: Dense -> Dense): Result<seq<Value>>
    decreases vs, 1
  {
    if vs == [] then Ok([])
    else
      var rest :- MapAll(c, vs[..|vs| - 1], f);
      var last :- Map(c, vs[|vs| - 1], f);
      Ok(rest + [last])
  }

  /** A dictionary comprehension: keys and values are mapped in order, and a
      key equal to an earlier one takes its place. */
  function MapEntries(c: Codec, es: seq<Entry>, f: Dense -> Dense): Result<seq<Entry>>
    decreases es, 1
  {
    if es == [] then Ok([])
    else
      var rest :- MapEntries(c, es[..|es| - 1], f);
      var e := es[|es| - 1];
      var last :- MapEntry(c, e, f);
      if !Hashable(last.key) then Err(Uncaught) else Ok(Insert(rest, last.key, last.val))
  }

  function MapEntry(c: Codec, e: Entry, f: Dense -> Dense): Result<Entry>
    decreases e, 1
  {
    var k :- Map(c, e.key, f);
    var v :- Map(c, e.val, f);
    Ok(Entry(k, v))
  }

  /** The fields of an instance: names stay, values are mapped. */
  function MapFields(c: Codec, es: seq<Entry>, f: Dense -> Dense): Result<seq<Entry>>
    decreases es, 1
  {
    if es == [] then Ok([])
    else
      var rest :- MapFields(c, es[..|es| - 1], f);
      var last :- MapField(c, es[|es| - 1], f);
      Ok(rest + [last])
  }

  function MapField(c: Codec, e: Entry, f: Dense -> Dense): Result<Entry>
    decreases e, 1
  {
    var v :- Map(c, e.val, f);
    Ok(Entry(e.key, v))
  }

  // ---------- Dictionaries keep their shape ----------

  lemma {:induction false} InsertNew(entries: seq<Entry>, key: Value, val: Value)
    requires !HasKey(entries, key)
    ensures Insert(entries, key, val) == entries + [Entry(key, val)]
  {
    if entries != [] {
      assert entries[0] in entries;
      InsertNew(entries[1..], key, val);
    }
  }

  /** Mapping tensors neither merges nor separates keys. */
  lemma {:induction false} MapKey(c: Codec, a: Value, b: Value, f: Dense -> Dense)
    requires Hashable(a) && Hashable(b) && Map(c, a, f).Ok? && Map(c, b, f).Ok?
    ensures Hashable(Map(c, a, f).value)
    ensures SameKey(Map(c, a, f).value, Map(c, b, f).value) == SameKey(a, b)
    decreases a, 1
  {
    if a.VTuple? {
      MapKeys(c, a.items, if b.VTuple? then b.items else [], f);
    }
  }

  lemma {:induction false} MapKeys(c: Codec, a: seq<Value>, b: seq<Value>, f: Dense -> Dense)
    requires forall x | x in a :: Hashable(x)
    requires forall x | x in b :: Hashable(x)
    requires MapAll(c, a, f).Ok? && MapAll(c, b, f).Ok?
    ensures forall x | x in MapAll(c, a, f).value :: Hashable(x)
    ensures SameKeys(MapAll(c, a, f).value, MapAll(c, b, f).value) == SameKeys(a, b)
    decreases a, 0
  {
    var a', b' := MapAll(c, a, f).value, MapAll(c, b, f).value;
    MapAllPointwise(c, a, f);
    MapAllPointwise(c, b, f);
    SameKeysPointwise(a, b);
    SameKeysPointwise(a', b');
    forall i | 0 <= i < |a|
      ensures Hashable(a'[i])
      ensures |a| == |b| ==> SameKey(a'[i], b'[i]) == SameKey(a[i], b[i])
    {
      MapKey(c, a[i], if i < |b| then b[i] else a[i], f);
    }
  }

  lemma {:induction false} MapAllPointwise(c: Codec, vs: seq<Value>, f: Dense -> Dense)
    requires MapAll(c, vs, f).Ok?
    ensures |MapAll(c, vs, f).value| == |vs|
    ensures forall i | 0 <= i < |vs| :: Map(c, vs[i], f) == Ok(MapAll(c, vs, f).value[i])
    decreases |vs|
  {
    if vs != [] {
      MapAllPointwise(c, vs[..|vs| - 1], f);
    }
  }

  lemma {:induction false} SameKeysPointwise(a: seq<Value>, b: seq<Value>)
    ensures SameKeys(a, b) <==> |a| == |b| && forall i | 0 <= i < |a| :: SameKey(a[i], b[i])
    decreases |a|
  {
    if |a| == |b| && a != [] {
      SameKeysPointwise(a[1..], b[1..]);
      assert forall i | 1 <= i < |a| :: a[i] == a[1..][i - 1] && b[i] == b[1..][i - 1];
    }
  }

  /** Entries mapped one by one, none merged. */
  function MapEach(c: Codec, es: seq<Entry>, f: Dense -> Dense): Result<seq<Entry>> {
    if es == [] then Ok([])
    else
      var rest :- MapEach(c, es[..|es| - 1], f);
      var last :- MapEntry(c, es[|es| - 1], f);
      Ok(rest + [last])
  }

  ghost predicate KeysMapped(c: Codec, es: seq<Entry>, ws: seq<Entry>, f: Dense -> Dense) {
    |ws| == |es| && forall i | 0 <= i < |es| :: Map(c, es[i].key, f) == Ok(ws[i].key)
  }

  /** On a proper dictionary the comprehension merges nothing, and its result
      is a proper dictionary of the same length. */
  lemma {:induction false} MapEntriesEach(c: Codec, es: seq<Entry>, f: Dense -> Dense)
    requires ProperKeys(es)
    ensures MapEntries(c, es, f) == MapEach(c, es, f)
    ensures MapEach(c, es, f).Ok? ==>
              ProperKeys(MapEach(c, es, f).value) && KeysMapped(c, es, MapEach(c, es, f).value, f)
    decreases |es|
  {
    if es != [] {
      var front, e := es[..|es| - 1], es[|es| - 1];
      assert es == front + [e];
      FrontProper(front, e);
      MapEntriesEach(c, front, f);
      var rest, last := MapEach(c, front, f), MapEntry(c, e, f);
      if rest.Ok? && last.Ok? {
        MapLastEntry(c, front, e, rest.value, last.value, f);
      }
      hide Map;
      hide ProperKeys;
      hide KeysMapped;
      hide Insert;
    }
  }

  lemma FrontProper(front: seq<Entry>, e: Entry)
    requires ProperKeys(front + [e])
    ensures ProperKeys(front) && Hashable(e.key) && !HasKey(front, e.key)
  {
    var es := front + [e];
    assert es[|front|] == e && e in es;
    forall i | 0 <= i < |front|
      ensures es[i] == front[i] && front[i] in es && !SameKey(front[i].key, e.key)
    {
      assert es[i] == front[i];
    }
    forall i, j | 0 <= i < j < |front|
      ensures !SameKey(front[i].key, front[j].key)
    {
      assert es[i] == front[i] && es[j] == front[j];
    }
  }

  lemma MapLastEntry(c: Codec, front: seq<Entry>, e: Entry, ws: seq<Entry>, w: Entry, f: Dense -> Dense)
    requires ProperKeys(front + [e]) && ProperKeys(ws) && KeysMapped(c, front, ws, f)
    requires MapEntry(c, e, f) == Ok(w)
    ensures Hashable(w.key) && Insert(ws, w.key, w.val) == ws + [w]
    ensures ProperKeys(ws + [w]) && KeysMapped(c, front + [e], ws + [w], f)
  {
    hide Map;
    FrontProper(front, e);
    MapKey(c, e.key, e.key, f);
    forall i | 0 <= i < |front|
      ensures !SameKey(ws[i].key, w.key)
    {
      assert front[i] in front;
      MapKey(c, front[i].key, e.key, f);
    }
    InsertNew(ws, w.key, w.val);
    LastKeyDistinct(ws, w);
  }

  lemma LastKeyDistinct(es: seq<Entry>, e: Entry)
    requires ProperKeys(es) && Hashable(e.key)
    requires forall i | 0 <= i < |es| :: !SameKey(es[i].key, e.key)
    ensures ProperKeys(es + [e])
  {
  }

  // ---------- Identity ----------

  /** Mapping the identity changes nothing. */
  lemma {:induction false} MapIdentity(c: Codec, v: Value, f: Dense -> Dense)
    requires Faithful(c, v) && forall t: Dense :: f(t) == t
    ensures Map(c, v, f) == Ok(v)
    decreases v, 1
  {
    match v
    case VList(items) => MapAllIdentity(c, items, f);
    case VTuple(items) => MapAllIdentity(c, items, f);
    case VDict(entries) =>
      MapEntriesEach(c, entries, f);
      MapEachIdentity(c, entries, f);
    case VCustom(_, fields) =>
      assert forall e | e in fields.entries :: Faithful(c, e.val);
      MapFieldsIdentity(c, fields.entries, f);
    case _ =>
  }

  lemma {:induction false} MapAllIdentity(c: Codec, vs: seq<Value>, f: Dense -> Dense)
    requires forall t: Dense :: f(t) == t
    requires forall v | v in vs :: Faithful(c, v)
    ensures MapAll(c, vs, f) == Ok(vs)
    decreases vs, 0
  {
    if vs != [] {
      assert vs == vs[..|vs| - 1] + [vs[|vs| - 1]];
      MapAllIdentity(c, vs[..|vs| - 1], f);
      MapIdentity(c, vs[|vs| - 1], f);
    }
  }

  lemma {:induction false} MapEachIdentity(c: Codec, es: seq<Entry>, f: Dense -> Dense)
    requires forall t: Dense :: f(t) == t
    requires forall e | e in es :: Faithful(c, e.key) && Faithful(c, e.val)
    ensures MapEach(c, es, f) == Ok(es)
    decreases es, 0
  {
    hide Map;
    if es != [] {
      assert es == es[..|es| - 1] + [es[|es| - 1]];
      MapEachIdentity(c, es[..|es| - 1], f);
      MapEntryIdentity(c, es[|es| - 1], f);
    }
  }

  lemma {:induction false} MapEntryIdentity(c: Codec, e: Entry, f: Dense -> Dense)
    requires forall t: Dense :: f(t) == t
    requires Faithful(c, e.key) && Faithful(c, e.val)
    ensures MapEntry(c, e, f) == Ok(e)
    decreases e, 1
  {
    MapIdentity(c, e.key, f);
    MapIdentity(c, e.val, f);
  }

  lemma {:induction false} MapFieldsIdentity(c: Codec, es: seq<Entry>, f: Dense -> Dense)
    requires forall t: Dense :: f(t) == t
    requires forall e | e in es :: Faithful(c, e.val)
    ensures MapFields(c, es, f) == Ok(es)
    decreases es, 0
  {
    hide Map;
    if es != [] {
      assert es == es[..|es| - 1] + [es[|es| - 1]];
      MapFieldsIdentity(c, es[..|es| - 1], f);
      MapFieldIdentity(c, es[|es| - 1], f);
    }
  }

  lemma {:induction false} MapFieldIdentity(c: Codec, e: Entry, f: Dense -> Dense)
    requires forall t: Dense :: f(t) == t
    requires Faithful(c, e.val)
    ensures MapField(c, e, f) == Ok(e)
    decreases e, 1
  {
    MapIdentity(c, e.val, f);
  }

  // ---------- Composition ----------

  /** An adapter that rebuilds one instance from fields given in its own order
      does so for all fields with the same names in that order. */
  ghost predicate AdaptersUniform(c: Codec) {
    forall ty, a: seq<Entry>, b: seq<Entry> |
      && ty in c.byType && SameNames(a, b)
      && c.byType[ty].decodeFields(VDict(a)) == Some(VCustom(ty, VDict(a)))
      && c.byType[ty].decodeFields(VDict(b)).Some? ::
      c.byType[ty].decodeFields(VDict(b)) == Some(VCustom(ty, VDict(b)))
  }

  ghost predicate SameNames(a: seq<Entry>, b: seq<Entry>) {
    |a| == |b| && forall i | 0 <= i < |a| :: a[i].key == b[i].key
  }

  lemma {:induction false} MapFieldsNames(c: Codec, es: seq<Entry>, f: Dense -> Dense)
    requires MapFields(c, es, f).Ok?
    ensures SameNames(es, MapFields(c, es, f).value)
    decreases |es|
  {
    hide Map;
    if es != [] {
      MapFieldsNames(c, es[..|es| - 1], f);
    }
  }

  /** Mapping `f`, then `g`, is mapping their composition. */
  lemma {:induction false} MapComposition(c: Codec, v: Value, f: Dense -> Dense, g: Dense -> Dense, gf: Dense -> Dense)
    requires AdaptersUniform(c) && Faithful(c, v) && Map(c, v, f).Ok?
    requires forall t: Dense :: gf(t) == g(f(t))
    ensures Map(c, Map(c, v, f).value, g) == Map(c, v, gf)
    decreases v, 1
  {
    hide MapAll;
    hide MapEntries;
    hide MapEach;
    hide MapFields;
    match v
    case VList(items) => MapAllComposition(c, items, f, g, gf);
    case VTuple(items) => MapAllComposition(c, items, f, g, gf);
    case VDict(entries) =>
      MapEntriesEach(c, entries, f);
      MapEntriesEach(c, entries, gf);
      MapEntriesEach(c, MapEach(c, entries, f).value, g);
      MapEachComposition(c, entries, f, g, gf);
    case VCustom(ty, fields) =>
      assert forall e | e in fields.entries :: Faithful(c, e.val);
      MapFieldsComposition(c, fields.entries, f, g, gf);
      MapFieldsNames(c, fields.entries, f);
      assert Map(c, v, f).value == VCustom(ty, VDict(MapFields(c, fields.entries, f).value));
    case _ =>
  }

  lemma {:induction false} MapAllComposition(
    c: Codec, vs: seq<Value>, f: Dense -> Dense, g: Dense -> Dense, gf: Dense -> Dense)
    requires AdaptersUniform(c) && (forall v | v in vs :: Faithful(c, v)) && MapAll(c, vs, f).Ok?
    requires forall t: Dense :: gf(t) == g(f(t))
    ensures MapAll(c, MapAll(c, vs, f).value, g) == MapAll(c, vs, gf)
    decreases vs, 0
  {
    hide Map;
    hide AdaptersUniform;
    if vs != [] {
      var front, last := vs[..|vs| - 1], vs[|vs| - 1];
      MapAllComposition(c, front, f, g, gf);
      MapComposition(c, last, f, g, gf);
      var ws := MapAll(c, vs, f).value;
      assert ws[..|ws| - 1] == MapAll(c, front, f).value;
    }
  }

  lemma {:induction false} MapEachComposition(
    c: Codec, es: seq<Entry>, f: Dense -> Dense, g: Dense -> Dense, gf: Dense -> Dense)
    requires AdaptersUniform(c) && MapEach(c, es, f).Ok?
    requires forall e | e in es :: Faithful(c, e.key) && Faithful(c, e.val)
    requires forall t: Dense :: gf(t) == g(f(t))
    ensures MapEach(c, MapEach(c, es, f).value, g) == MapEach(c, es, gf)
    decreases es, 0
  {
    hide Map;
    hide AdaptersUniform;
    if es != [] {
      var front, last := es[..|es| - 1], es[|es| - 1];
      MapEachComposition(c, front, f, g, gf);
      MapEntryComposition(c, last, f, g, gf);
      var ws := MapEach(c, es, f).value;
      assert ws[..|ws| - 1] == MapEach(c, front, f).value;
    }
  }

  lemma {:induction false} MapEntryComposition(
    c: Codec, e: Entry, f: Dense -> Dense, g: Dense -> Dense, gf: Dense -> Dense)
    requires AdaptersUniform(c) && Faithful(c, e.key) && Faithful(c, e.val) && MapEntry(c, e, f).Ok?
    requires forall t: Dense :: gf(t) == g(f(t))
    ensures MapEntry(c, MapEntry(c, e, f).value, g) == MapEntry(c, e, gf)
    decreases e, 1
  {
    hide Map;
    MapComposition(c, e.key, f, g, gf);
    MapComposition(c, e.val, f, g, gf);
  }

  lemma {:induction false} MapFieldsComposition(
    c: Codec, es: seq<Entry>, f: Dense -> Dense, g: Dense -> Dense, gf: Dense -> Dense)
    requires AdaptersUniform(c) && MapFields(c, es, f).Ok?
    requires forall e | e in es :: Faithful(c, e.val)
    requires forall t: Dense :: gf(t) == g(f(t))
    ensures MapFields(c, MapFields(c, es, f).value, g) == MapFields(c, es, gf)
    decreases es, 0
  {
    hide Map;
    hide AdaptersUniform;
    if es != [] {
      var front, last := es[..|es| - 1], es[|es| - 1];
      MapFieldsComposition(c, front, f, g, gf);
      MapFieldComposition(c, last, f, g, gf);
      var ws := MapFields(c, es, f).value;
      assert ws[..|ws| - 1] == MapFields(c, front, f).value;
    }
  }

  lemma {:induction false} MapFieldComposition(
    c: Codec, e: Entry, f: Dense -> Dense, g: Dense -> Dense, gf: Dense -> Dense)
    requires AdaptersUniform(c) && Faithful(c, e.val) && MapField(c, e, f).Ok?
    requires forall t: Dense :: gf(t) == g(f(t))
    ensures MapField(c, MapField(c, e, f).value, g) == MapField(c, e, gf)
    decreases e, 1
  {
    hide Map;
    MapComposition(c, e.val, f, g, gf);
  }

  // ---------- Mapping and the wire ----------

  /** A mapped value is as fit to travel as its source. */
  lemma {:induction false} MapFaithful(c: Codec, v: Value, f: Dense -> Dense)
    requires AdaptersUniform(c) && Faithful(c, v) && Map(c, v, f).Ok?
    ensures Faithful(c, Map(c, v, f).value)
    decreases v, 1
  {
    match v
    case VList(items) => MapAllFaithful(c, items, f);
    case VTuple(items) => MapAllFaithful(c, items, f);
    case VDict(entries) =>
      MapEntriesEach(c, entries, f);
      MapEachFaithful(c, entries, f);
    case VCustom(ty, fields) =>
      var es := fields.entries;
      MapFieldsNames(c, es, f);
      MapFieldsFaithful(c, es, f);
      SameNamesProper(es, MapFields(c, es, f).value);
      assert Map(c, v, f).value == VCustom(ty, VDict(MapFields(c, es, f).value));
    case _ =>
  }

  lemma SameNamesProper(a: seq<Entry>, b: seq<Entry>)
    requires SameNames(a, b) && ProperKeys(a)
    ensures ProperKeys(b)
  {
    forall e | e in b
      ensures Hashable(e.key)
    {
      var i :| 0 <= i < |b| && b[i] == e;
      assert a[i] in a;
    }
  }

  lemma {:induction false} MapAllFaithful(c: Codec, vs: seq<Value>, f: Dense -> Dense)
    requires AdaptersUniform(c) && (forall v | v in vs :: Faithful(c, v)) && MapAll(c, vs, f).Ok?
    ensures forall w | w in MapAll(c, vs, f).value :: Faithful(c, w)
    decreases vs, 0
  {
    hide Map;
    hide AdaptersUniform;
    if vs != [] {
      MapAllFaithful(c, vs[..|vs| - 1], f);
      MapFaithful(c, vs[|vs| - 1], f);
    }
  }

  lemma {:induction false} MapEachFaithful(c: Codec, es: seq<Entry>, f: Dense -> Dense)
    requires AdaptersUniform(c) && MapEach(c, es, f).Ok?
    requires forall e | e in es :: Faithful(c, e.key) && Faithful(c, e.val)
    ensures forall e | e in MapEach(c, es, f).value :: Faithful(c, e.key) && Faithful(c, e.val)
    decreases es, 0
  {
    hide Map;
    hide AdaptersUniform;
    if es != [] {
      MapEachFaithful(c, es[..|es| - 1], f);
      MapEntryFaithful(c, es[|es| - 1], f);
    }
  }

  lemma {:induction false} MapEntryFaithful(c: Codec, e: Entry, f: Dense -> Dense)
    requires AdaptersUniform(c) && Faithful(c, e.key) && Faithful(c, e.val) && MapEntry(c, e, f).Ok?
    ensures Faithful(c, MapEntry(c, e, f).value.key) && Faithful(c, MapEntry(c, e, f).value.val)
    decreases e, 1
  {
    hide Map;
    MapFaithful(c, e.key, f);
    MapFaithful(c, e.val, f);
  }

  lemma {:induction false} MapFieldsFaithful(c: Codec, es: seq<Entry>, f: Dense -> Dense)
    requires AdaptersUniform(c) && MapFields(c, es, f).Ok?
    requires forall e | e in es :: Faithful(c, e.key) && Faithful(c, e.val)
    ensures forall e | e in MapFields(c, es, f).value :: Faithful(c, e.key) && Faithful(c, e.val)
    decreases es, 0
  {
    hide Map;
    hide AdaptersUniform;
    if es != [] {
      MapFieldsFaithful(c, es[..|es| - 1], f);
      MapFieldFaithful(c, es[|es| - 1], f);
    }
  }

  lemma {:induction false} MapFieldFaithful(c: Codec, e: Entry, f: Dense -> Dense)
    requires AdaptersUniform(c) && Faithful(c, e.key) && Faithful(c, e.val) && MapField(c, e, f).Ok?
    ensures Faithful(c, MapField(c, e, f).value.key) && Faithful(c, MapField(c, e, f).value.val)
    decreases e, 1
  {
    hide Map;
    MapFaithful(c, e.val, f);
  }

  /** Mapping before sending and mapping after receiving give the same value. */
  lemma MapCommutesWithWire(c: Codec, v: Value, f: Dense -> Dense)
    requires c.Consistent() && c.platform.RoundTrips() && AdaptersUniform(c) && Faithful(c, v)
    requires Map(c, v, f).Ok?
    requires Encode(c, TreeHeap(), v).Ok? && Encode(c, TreeHeap(), Map(c, v, f).value).Ok?
    ensures var p, q := Encode(c, TreeHeap(), v).value, Encode(c, TreeHeap(), Map(c, v, f).value).value;
            var received := Decode(c, p.metadata, Join(p.chunks));
            received.Ok? && Decode(c, q.metadata, Join(q.chunks)) == Map(c, received.value, f)
  {
    EncodeDecodeTree(c, v);
    MapFaithful(c, v, f);
    EncodeDecodeTree(c, Map(c, v, f).value);
  }
}
