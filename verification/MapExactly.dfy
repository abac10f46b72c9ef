/** Which values `map_tensors` accepts, and what becomes of them. */
module MapExactly {
  import opened Results
  import opened Tensors
  import opened Values
  import opened Packets
  import opened RoundTrip
  import opened MapTensors

  /** What Python guarantees: every dictionary inside has different, hashable
      keys. Nothing is asked of instances and their adapters. */
  ghost predicate Proper(v: Value) {
    match v
    case VList(items) => forall x | x in items :: Proper(x)
    case VTuple(items) => forall x | x in items :: Proper(x)
    case VDict(entries) => ProperKeys(entries) && forall e | e in entries :: Proper(e.key) && Proper(e.val)
    case VCustom(_, fields) => fields.VDict? ==> forall e | e in fields.entries :: Proper(e.val)
    case _ => true
  }

  /** The same shape with every tensor transformed, in place; an instance is
      built by its own class's constructor from its own field names with what
      became of their values. */
  ghost predicate Becomes(c: Codec, f: Dense -> Dense, v: Value, x: Value)
    decreases v, 0
  {
    match v
    case VTensor(t) => x == VTensor(f(t))
    case VList(items) => x.VList? && AllBecome(c, f, items, x.items)
    case VTuple(items) => x.VTuple? && AllBecome(c, f, items, x.items)
    case VDict(entries) => x.VDict? && EntriesBecome(c, f, entries, x.entries)
    case VCustom(pyType, fields) =>
      && pyType in c.byType && fields.VDict?
      && exists xs :: FieldsBecome(c, f, fields.entries, xs) && c.byType[pyType].decodeFields(VDict(xs)) == Some(x)
    case _ => x == v
  }

  ghost predicate AllBecome(c: Codec, f: Dense -> Dense, vs: seq<Value>, xs: seq<Value>)
    decreases vs, 1
  {
    |vs| == |xs| && forall i | 0 <= i < |vs| :: Becomes(c, f, vs[i], xs[i])
  }

  ghost predicate EntriesBecome(c: Codec, f: Dense -> Dense, es: seq<Entry>, xs: seq<Entry>)
    decreases es, 1
  {
    |es| == |xs| && forall i | 0 <= i < |es| :: EntryBecomes(c, f, es[i], xs[i])
  }

  ghost predicate EntryBecomes(c: Codec, f: Dense -> Dense, e: Entry, x: Entry)
    decreases e, 1
  {
    Becomes(c, f, e.key, x.key) && Becomes(c, f, e.val, x.val)
  }

  ghost predicate FieldsBecome(c: Codec, f: Dense -> Dense, es: seq<Entry>, xs: seq<Entry>)
    decreases es, 1
  {
    |es| == |xs| && forall i | 0 <= i < |es| :: FieldBecomes(c, f, es[i], xs[i])
  }

  ghost predicate FieldBecomes(c: Codec, f: Dense -> Dense, e: Entry, x: Entry)
    decreases e, 1
  {
    e.key == x.key && Becomes(c, f, e.val, x.val)
  }

  /** `map_tensors` returns `x` if and only if the value becomes `x`; it raises
      exactly when an instance inside has no registered class, or its class's
      constructor refuses what became of its fields. */
  lemma {:induction false} MapsExactly(c: Codec, f: Dense -> Dense, v: Value, x: Value)
    requires Proper(v)
    ensures Map(c, v, f) == Ok(x) <==> Becomes(c, f, v, x)
    decreases v, 1
  {
    hide MapAll;
    hide MapEntries;
    hide MapFields;
    hide MapEach;
    hide AllBecome;
    hide EntriesBecome;
    hide FieldsBecome;
    match v
    case VList(items) => if x.VList? { MapsAllExactly(c, f, items, x.items); }
    case VTuple(items) => if x.VTuple? { MapsAllExactly(c, f, items, x.items); }
    case VDict(entries) =>
      MapEntriesEach(c, entries, f);
      if x.VDict? { MapsEachExactly(c, f, entries, x.entries); }
    case VCustom(pyType, fields) =>
      if pyType in c.byType && fields.VDict? {
        var es := MapFields(c, fields.entries, f);
        if es.Ok? {
          MapsFieldsExactly(c, f, fields.entries, es.value);
        }
        if xs :| FieldsBecome(c, f, fields.entries, xs) && c.byType[pyType].decodeFields(VDict(xs)) == Some(x) {
          MapsFieldsExactly(c, f, fields.entries, xs);
        }
      }
    case _ =>
  }

  lemma {:induction false} MapsAllExactly(c: Codec, f: Dense -> Dense, vs: seq<Value>, xs: seq<Value>)
    requires forall v | v in vs :: Proper(v)
    ensures MapAll(c, vs, f) == Ok(xs) <==> AllBecome(c, f, vs, xs)
    decreases vs, 0
  {
    hide Map;
    hide Becomes;
    hide Proper;
    if vs != [] && xs != [] {
      var n, m := |vs| - 1, |xs| - 1;
      assert vs == vs[..n] + [vs[n]] && xs == xs[..m] + [xs[m]];
      MapsAllExactly(c, f, vs[..n], xs[..m]);
      MapsExactly(c, f, vs[n], xs[m]);
    }
  }

  lemma {:induction false} MapsEachExactly(c: Codec, f: Dense -> Dense, es: seq<Entry>, xs: seq<Entry>)
    requires forall e | e in es :: Proper(e.key) && Proper(e.val)
    ensures MapEach(c, es, f) == Ok(xs) <==> EntriesBecome(c, f, es, xs)
    decreases es, 0
  {
    hide MapEntry;
    hide EntryBecomes;
    hide Proper;
    if es != [] && xs != [] {
      var n, m := |es| - 1, |xs| - 1;
      assert es == es[..n] + [es[n]] && xs == xs[..m] + [xs[m]];
      MapsEachExactly(c, f, es[..n], xs[..m]);
      EntryExactly(c, f, es[n], xs[m]);
    }
  }

  lemma {:induction false} EntryExactly(c: Codec, f: Dense -> Dense, e: Entry, x: Entry)
    requires Proper(e.key) && Proper(e.val)
    ensures MapEntry(c, e, f) == Ok(x) <==> EntryBecomes(c, f, e, x)
    decreases e, 1
  {
    hide Map;
    hide Becomes;
    MapsExactly(c, f, e.key, x.key);
    MapsExactly(c, f, e.val, x.val);
  }

  lemma {:induction false} MapsFieldsExactly(c: Codec, f: Dense -> Dense, es: seq<Entry>, xs: seq<Entry>)
    requires forall e | e in es :: Proper(e.val)
    ensures MapFields(c, es, f) == Ok(xs) <==> FieldsBecome(c, f, es, xs)
    decreases es, 0
  {
    hide MapField;
    hide FieldBecomes;
    hide Proper;
    if es != [] && xs != [] {
      var n, m := |es| - 1, |xs| - 1;
      assert es == es[..n] + [es[n]] && xs == xs[..m] + [xs[m]];
      MapsFieldsExactly(c, f, es[..n], xs[..m]);
      FieldExactly(c, f, es[n], xs[m]);
    }
  }

  lemma {:induction false} FieldExactly(c: Codec, f: Dense -> Dense, e: Entry, x: Entry)
    requires Proper(e.val)
    ensures MapField(c, e, f) == Ok(x) <==> FieldBecomes(c, f, e, x)
    decreases e, 1
  {
    hide Map;
    hide Becomes;
    MapsExactly(c, f, e.val, x.val);
  }
}
