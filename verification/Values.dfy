/** Python values the codec accepts, objects as the encoder meets them, and the
    JSON trees it exchanges. */
module Values {
  import opened Floats
  import opened Results
  import opened Tensors

  /** A value as a tree. A dictionary keeps its insertion order; a tensor shows
      its dense contents; an instance of a registered class is the class name
      with the fields its adapter gives for it. */
  datatype Value =
    | VNone
    | VBool(b: bool)
    | VInt(i: int)
    | VFloat(f: PyFloat)
    | VStr(s: string)
    | VBytes(data: seq<Byte>)
    | VTensor(t: Dense)
    | VPlaceholder(message: string)
    | VList(items: seq<Value>)
    | VTuple(items: seq<Value>)
    | VDict(entries: seq<Entry>)
    | VCustom(pyType: string, fields: Value)

  datatype Entry = Entry(key: Value, val: Value)

  /** One object of a Python heap; `R` is the identity of another object.
      For an instance, `fields` is the object its class's `encode_fields`
      returns for it, or `None` when that function raises. */
  datatype PyObj<R> =
    | ONone
    | OBool(b: bool)
    | OInt(i: int)
    | OFloat(f: PyFloat)
    | OStr(s: string)
    | OBytes(data: seq<Byte>)
    | OTensor(t: View)
    | OValueError(message: string)
    | OList(items: seq<R>)
    | OTuple(items: seq<R>)
    | ODict(entries: seq<(R, R)>)
    | OInstance(pyType: string, fields: Option<R>)

  /** What each identity refers to. Objects may be shared and may form cycles. */
  datatype Heap<!R> = Heap(view: R -> PyObj<R>)

  datatype Json =
    | JNull
    | JBool(b: bool)
    | JInt(i: int)
    | JFloat(f: PyFloat)
    | JStr(s: string)
    | JArray(items: seq<Json>)
    | JObject(fields: map<string, Json>)
  {
    /** `dict.get(name)`: a missing key reads as null. */
    function Get(name: string): Json
      requires JObject?
    {
      if name in fields then fields[name] else JNull
    }
  }

  /** A tree the JSON grammar can express (RFC 8259): it has no infinities and
      no NaN. Python's own parser accepts both. */
  predicate Printable(j: Json) {
    match j
    case JFloat(f) => f.Finite?
    case JArray(items) => forall x | x in items :: Printable(x)
    case JObject(fields) => forall name | name in fields :: Printable(fields[name])
    case _ => true
  }

  /** Length of the UTF-8 encoding. */
  function Utf8Length(s: string): nat {
    if s == [] then 0
    else
      var c := s[0] as int;
      (if c < 0x80 then 1 else if c < 0x800 then 2 else if c < 0x1_0000 then 3 else 4)
      + Utf8Length(s[1..])
  }

  // ---------- Dictionary keys ----------

  /** The number a key compares by: `True`, `1` and `1.0` are one key. */
  function Number(v: Value): Option<real> {
    match v
    case VBool(b) => Some(if b then 1.0 else 0.0)
    case VInt(i) => Some(i as real)
    case VFloat(f) => if f.Finite? then Some(FloatValue(f)) else None
    case _ => None
  }

  /** Whether two distinct key objects are the same dictionary key. Tensors and
      `ValueError` objects are keys by identity. */
  predicate SameKey(a: Value, b: Value) {
    if a.VNone? then b.VNone?
    else if a.VStr? then b.VStr? && a.s == b.s
    else if a.VBytes? then b.VBytes? && a.data == b.data
    else if a.VTuple? then b.VTuple? && SameKeys(a.items, b.items)
    else if a.VFloat? && a.f.Infinity? then a == b
    else Number(a).Some? && Number(a) == Number(b)
  }

  predicate SameKeys(a: seq<Value>, b: seq<Value>) {
    |a| == |b| && (a == [] || (SameKey(a[0], b[0]) && SameKeys(a[1..], b[1..])))
  }

  predicate Hashable(v: Value) {
    match v
    case VList(_) => false
    case VDict(_) => false
    case VCustom(_, _) => false
    case VTuple(items) => forall x | x in items :: Hashable(x)
    case _ => true
  }

  predicate HasKey(entries: seq<Entry>, key: Value) {
    exists e | e in entries :: SameKey(e.key, key)
  }

  /** `d[name]` for a string key, if it is there. */
  function Find(entries: seq<Entry>, name: string): Option<Value> {
    if entries == [] then None
    else if entries[0].key == VStr(name) then Some(entries[0].val)
    else Find(entries[1..], name)
  }

  lemma {:induction false} FindAt(entries: seq<Entry>, i: nat, name: string)
    requires i < |entries| && entries[i].key == VStr(name)
    requires forall j | 0 <= j < i :: entries[j].key != VStr(name)
    ensures Find(entries, name) == Some(entries[i].val)
  {
    if i > 0 {
      FindAt(entries[1..], i - 1, name);
    }
  }

  lemma {:induction false} FoundAt(entries: seq<Entry>, name: string) returns (i: nat)
    requires Find(entries, name).Some?
    ensures i < |entries| && entries[i] == Entry(VStr(name), Find(entries, name).value)
    ensures forall j | 0 <= j < i :: entries[j].key != VStr(name)
  {
    if entries[0].key == VStr(name) {
      i := 0;
    } else {
      i := FoundAt(entries[1..], name);
      i := i + 1;
    }
  }

  // ---------- Reading an object graph as a tree ----------

  /** Objects without references to others. */
  predicate IsLeaf<R>(o: PyObj<R>) {
    !o.OList? && !o.OTuple? && !o.ODict? && !o.OInstance?
  }

  function LeafValue<R>(o: PyObj<R>): Option<Value>
    requires IsLeaf(o)
  {
    match o
    case ONone => Some(VNone)
    case OBool(b) => Some(VBool(b))
    case OInt(i) => Some(VInt(i))
    case OFloat(f) => Some(VFloat(f))
    case OStr(s) => Some(VStr(s))
    case OBytes(data) => Some(VBytes(data))
    case OTensor(t) => if t.dtype.Unsupported? then None else Some(VTensor(Densify(t)))
    case OValueError(message) => Some(VPlaceholder(message))
  }

  /** The tree seen from `r`, provided no path from it is longer than `fuel`
      objects and everything on it can be read. */
  function Unfold<R>(h: Heap<R>, r: R, fuel: nat): Option<Value>
    decreases fuel, 0
  {
    if fuel == 0 then None
    else
      var o := h.view(r);
      if o.OList? then
        var vs := UnfoldAll(h, o.items, fuel - 1);
        if vs.None? then None else Some(VList(vs.value))
      else if o.OTuple? then
        var vs := UnfoldAll(h, o.items, fuel - 1);
        if vs.None? then None else Some(VTuple(vs.value))
      else if o.ODict? then
        var es := UnfoldPairs(h, o.entries, fuel - 1);
        if es.None? then None else Some(VDict(es.value))
      else if o.OInstance? then
        if o.fields.None? then None
        else
          var v := Unfold(h, o.fields.value, fuel - 1);
          if v.None? then None else Some(VCustom(o.pyType, v.value))
      else LeafValue(o)
  }

  function UnfoldAll<R>(h: Heap<R>, rs: seq<R>, fuel: nat): Option<seq<Value>>
    decreases fuel, 1, |rs|
  {
    if rs == [] then Some([])
    else
      var v := Unfold(h, rs[0], fuel);
      var vs := UnfoldAll(h, rs[1..], fuel);
      if v.None? || vs.None? then None else Some([v.value] + vs.value)
  }

  function UnfoldPairs<R>(h: Heap<R>, ps: seq<(R, R)>, fuel: nat): Option<seq<Entry>>
    decreases fuel, 1, |ps|
  {
    if ps == [] then Some([])
    else
      var k := Unfold(h, ps[0].0, fuel);
      var v := Unfold(h, ps[0].1, fuel);
      var es := UnfoldPairs(h, ps[1..], fuel);
      if k.None? || v.None? || es.None? then None else Some([Entry(k.value, v.value)] + es.value)
  }

  // ---------- Trees as object graphs ----------

  /** A tree of values used as its own object graph. */
  function ObjectOf(v: Value): PyObj<Value> {
    match v
    case VNone => ONone
    case VBool(b) => OBool(b)
    case VInt(i) => OInt(i)
    case VFloat(f) => OFloat(f)
    case VStr(s) => OStr(s)
    case VBytes(data) => OBytes(data)
    case VTensor(t) => OTensor(Contiguous(t))
    case VPlaceholder(message) => OValueError(message)
    case VList(items) => OList(items)
    case VTuple(items) => OTuple(items)
    case VDict(entries) => ODict(seq(|entries|, i requires 0 <= i < |entries| => (entries[i].key, entries[i].val)))
    case VCustom(pyType, fields) => OInstance(pyType, Some(fields))
  }

  function TreeHeap(): Heap<Value> {
    Heap(v => ObjectOf(v))
  }

  /** Reading a tree through `TreeHeap` gives that tree. */
  lemma {:induction false} UnfoldTree(v: Value, fuel: nat)
    requires Unfold(TreeHeap(), v, fuel).Some?
    ensures Unfold(TreeHeap(), v, fuel).value == v
    decreases fuel, 0
  {
    match v
    case VTensor(t) => DensifyContiguous(t);
    case VList(items) => UnfoldTreeAll(items, fuel - 1);
    case VTuple(items) => UnfoldTreeAll(items, fuel - 1);
    case VDict(entries) =>
      var ps := ObjectOf(v).entries;
      UnfoldTreePairs(ps, fuel - 1);
      var es := UnfoldPairs(TreeHeap(), ps, fuel - 1).value;
      assert es == entries;
    case VCustom(_, fields) => UnfoldTree(fields, fuel - 1);
    case _ =>
  }

  lemma {:induction false} UnfoldTreeAll(vs: seq<Value>, fuel: nat)
    requires UnfoldAll(TreeHeap(), vs, fuel).Some?
    ensures UnfoldAll(TreeHeap(), vs, fuel).value == vs
    decreases fuel, 1, |vs|
  {
    if vs != [] {
      UnfoldTree(vs[0], fuel);
      UnfoldTreeAll(vs[1..], fuel);
    }
  }

  lemma {:induction false} UnfoldTreePairs(ps: seq<(Value, Value)>, fuel: nat)
    requires UnfoldPairs(TreeHeap(), ps, fuel).Some?
    ensures var es := UnfoldPairs(TreeHeap(), ps, fuel).value;
            |es| == |ps| && forall i | 0 <= i < |ps| :: es[i] == Entry(ps[i].0, ps[i].1)
    decreases fuel, 1, |ps|
  {
    if ps != [] {
      UnfoldTree(ps[0].0, fuel);
      UnfoldTree(ps[0].1, fuel);
      UnfoldTreePairs(ps[1..], fuel);
    }
  }
}
