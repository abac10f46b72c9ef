/** Tensors as the codec sees them: a strided view over a byte storage on the
    sending side, dense row-major bytes on the receiving side. */
module Tensors {
  import opened Results

  type Byte = b: int | 0 <= b < 256

  datatype Dtype =
    | Bool | UInt8 | Int8 | Int16 | Int32 | Int64
    | Float16 | BFloat16 | Float32 | Float64
    | Unsupported(width: nat)

  /** Bytes per element. */
  function Width(d: Dtype): nat {
    match d
    case Bool => 1
    case UInt8 => 1
    case Int8 => 1
    case Int16 => 2
    case Int32 => 4
    case Int64 => 8
    case Float16 => 2
    case BFloat16 => 2
    case Float32 => 4
    case Float64 => 8
    case Unsupported(w) => w
  }

  function DtypeName(d: Dtype): string
    requires !d.Unsupported?
  {
    match d
    case Bool => "bool"
    case UInt8 => "uint8"
    case Int8 => "int8"
    case Int16 => "int16"
    case Int32 => "int32"
    case Int64 => "int64"
    case Float16 => "float16"
    case BFloat16 => "bfloat16"
    case Float32 => "float32"
    case Float64 => "float64"
  }

  function DtypeByName(name: string): Option<Dtype> {
    if name == "bool" then Some(Bool)
    else if name == "uint8" then Some(UInt8)
    else if name == "int8" then Some(Int8)
    else if name == "int16" then Some(Int16)
    else if name == "int32" then Some(Int32)
    else if name == "int64" then Some(Int64)
    else if name == "float16" then Some(Float16)
    else if name == "bfloat16" then Some(BFloat16)
    else if name == "float32" then Some(Float32)
    else if name == "float64" then Some(Float64)
    else None
  }

  /** The two dtype tables are inverse to each other. */
  lemma DtypeTablesInverse(d: Dtype, name: string)
    ensures !d.Unsupported? ==> DtypeByName(DtypeName(d)) == Some(d)
    ensures DtypeByName(name).Some? ==>
              !DtypeByName(name).value.Unsupported? && DtypeName(DtypeByName(name).value) == name
  {
  }

  /** The decimal number a name ends with. */
  function NumberAtEnd(name: string): nat {
    if name == "" || !('0' <= name[|name| - 1] <= '9') then 0
    else 10 * NumberAtEnd(name[..|name| - 1]) + (name[|name| - 1] - '0') as nat
  }

  /** A dtype's name tells its width in bits; a bool takes one byte. */
  lemma WidthNamed(d: Dtype)
    requires !d.Unsupported?
    ensures 8 * Width(d) == if d.Bool? then 8 else NumberAtEnd(DtypeName(d))
  {
    var name := DtypeName(d);
    if !d.Bool? {
      var n := |name|;
      assert name[..n - 1][..n - 2] == name[..n - 2];
      assert NumberAtEnd(name[..n - 2]) == 0;
    }
  }

  // ---------- Shapes, multi-indices and linear indices ----------

  function Product(shape: seq<nat>): nat {
    if shape == [] then 1 else shape[0] * Product(shape[1..])
  }

  ghost predicate InShape(shape: seq<nat>, idx: seq<nat>) {
    |idx| == |shape| && forall d | 0 <= d < |shape| :: idx[d] < shape[d]
  }

  /** Row-major linear position of a multi-index. */
  function Ravel(shape: seq<nat>, idx: seq<nat>): nat
    requires |idx| == |shape|
  {
    if shape == [] then 0 else idx[0] * Product(shape[1..]) + Ravel(shape[1..], idx[1..])
  }

  /** Multi-index at a row-major linear position. */
  function Unravel(shape: seq<nat>, k: nat): (idx: seq<nat>)
    requires k < Product(shape)
    ensures |idx| == |shape|
  {
    if shape == [] then []
    else
      var inner := Product(shape[1..]);
      assert inner != 0;
      [k / inner] + Unravel(shape[1..], k % inner)
  }

  function Dot(strides: seq<nat>, idx: seq<nat>): nat
    requires |idx| == |strides|
  {
    if strides == [] then 0 else idx[0] * strides[0] + Dot(strides[1..], idx[1..])
  }

  /** Strides of a dense row-major tensor. */
  function RowMajor(shape: seq<nat>): (strides: seq<nat>)
    ensures |strides| == |shape|
  {
    if shape == [] then [] else [Product(shape[1..])] + RowMajor(shape[1..])
  }

  lemma MulMonotone(a: nat, b: nat, c: nat)
    requires a <= b
    ensures a * c <= b * c
  {
  }

  lemma DivModOf(q: nat, r: nat, n: nat)
    requires r < n
    ensures (q * n + r) / n == q && (q * n + r) % n == r
  {
    var x := q * n + r;
    DivLess(x, q + 1, n);
    if x / n < q {
      MulMonotone(x / n + 1, q, n);
    }
  }

  lemma DivLess(k: nat, m: nat, n: nat)
    requires k < m * n
    ensures n > 0 && 0 <= k / n < m && k == (k / n) * n + k % n
  {
    if k / n >= m {
      MulMonotone(m, k / n, n);
    }
  }

  /** `Ravel` and `Unravel` are a bijection between the multi-indices of the
      shape and `[0, numel)`, for every shape (0-D and empty included). */
  lemma {:induction false} RavelBijection(shape: seq<nat>, idx: seq<nat>)
    requires InShape(shape, idx)
    ensures Ravel(shape, idx) < Product(shape)
    ensures Unravel(shape, Ravel(shape, idx)) == idx
  {
    if shape != [] {
      var inner := Product(shape[1..]);
      RavelBijection(shape[1..], idx[1..]);
      var rest := Ravel(shape[1..], idx[1..]);
      MulMonotone(idx[0] + 1, shape[0], inner);
      assert (idx[0] + 1) * inner == idx[0] * inner + inner;
      DivModOf(idx[0], rest, inner);
    }
  }

  lemma {:induction false} UnravelBijection(shape: seq<nat>, k: nat)
    requires k < Product(shape)
    ensures InShape(shape, Unravel(shape, k))
    ensures Ravel(shape, Unravel(shape, k)) == k
  {
    if shape != [] {
      var inner := Product(shape[1..]);
      DivLess(k, shape[0], inner);
      UnravelBijection(shape[1..], k % inner);
    }
  }

  lemma {:induction false} RowMajorDot(shape: seq<nat>, idx: seq<nat>)
    requires |idx| == |shape|
    ensures Dot(RowMajor(shape), idx) == Ravel(shape, idx)
  {
    if shape != [] {
      RowMajorDot(shape[1..], idx[1..]);
      assert RowMajor(shape)[1..] == RowMajor(shape[1..]);
    }
  }

  // ---------- Dense tensors ----------

  datatype DenseTensor = DenseTensor(dtype: Dtype, shape: seq<nat>, data: seq<Byte>) {
    /** The bytes of the element at one multi-index. */
    function At(idx: seq<nat>): seq<Byte>
      requires |idx| == |shape|
      requires (Ravel(shape, idx) + 1) * Width(dtype) <= |data|
    {
      Element(data, Width(dtype), Ravel(shape, idx))
    }
  }

  /** A dense tensor of a supported dtype whose bytes fill its shape. */
  type Dense = d: DenseTensor |
      !d.dtype.Unsupported? && |d.data| == Product(d.shape) * Width(d.dtype)
    witness DenseTensor(Bool, [0], [])

  /** The `k`-th element of width `w` in a byte region. */
  function Element(bytes: seq<Byte>, w: nat, k: nat): (e: seq<Byte>)
    requires (k + 1) * w <= |bytes|
    ensures |e| == w
  {
    assert (k + 1) * w == k * w + w;
    bytes[k * w..(k + 1) * w]
  }

  // ---------- Strided views ----------

  datatype StridedTensor = StridedTensor(
    dtype: Dtype, storage: seq<Byte>, offset: nat, shape: seq<nat>, strides: seq<nat>)
  {
    /** Every multi-index of the shape lands inside the storage. */
    ghost predicate InBounds() {
      && |strides| == |shape|
      && forall idx | InShape(shape, idx) :: (offset + Dot(strides, idx) + 1) * Width(dtype) <= |storage|
    }

    /** The bytes this view shows at one multi-index. */
    function At(idx: seq<nat>): seq<Byte>
      requires |strides| == |shape| == |idx|
      requires (offset + Dot(strides, idx) + 1) * Width(dtype) <= |storage|
    {
      Element(storage, Width(dtype), offset + Dot(strides, idx))
    }
  }

  lemma ScalarInBounds()
    ensures StridedTensor(Bool, [0], 0, [], []).InBounds()
  {
  }

  type View = t: StridedTensor | t.InBounds()
    ghost witness (ScalarInBounds(); StridedTensor(Bool, [0], 0, [], []))

  /** The first `n` elements of the view in row-major order. */
  function Gather(t: View, n: nat): (bytes: seq<Byte>)
    requires n <= Product(t.shape)
    ensures |bytes| == n * Width(t.dtype)
  {
    if n == 0 then []
    else
      UnravelBijection(t.shape, n - 1);
      assert n * Width(t.dtype) == (n - 1) * Width(t.dtype) + Width(t.dtype);
      Gather(t, n - 1) + t.At(Unravel(t.shape, n - 1))
  }

  /** `clone(memory_format=contiguous_format)`: the dense copy of a view. */
  function Densify(t: View): (d: Dense)
    requires !t.dtype.Unsupported?
    ensures d.dtype == t.dtype && d.shape == t.shape
  {
    DenseTensor(t.dtype, t.shape, Gather(t, Product(t.shape)))
  }

  lemma ElementOfAppend(a: seq<Byte>, e: seq<Byte>, w: nat, n: nat, k: nat)
    requires |a| == n * w && |e| == w && k <= n
    ensures (k + 1) * w <= |a + e|
    ensures k < n ==> (k + 1) * w <= |a| && Element(a + e, w, k) == Element(a, w, k)
    ensures k == n ==> Element(a + e, w, k) == e
  {
    MulMonotone(k + 1, n + 1, w);
    assert (k + 1) * w == k * w + w && (n + 1) * w == n * w + w;
    if k < n {
      MulMonotone(k + 1, n, w);
    }
  }

  lemma {:induction false} GatherElement(t: View, n: nat, k: nat)
    requires k < n <= Product(t.shape)
    ensures InShape(t.shape, Unravel(t.shape, k))
    ensures (k + 1) * Width(t.dtype) <= n * Width(t.dtype)
    ensures Element(Gather(t, n), Width(t.dtype), k) == t.At(Unravel(t.shape, k))
  {
    UnravelBijection(t.shape, k);
    UnravelBijection(t.shape, n - 1);
    ElementOfAppend(Gather(t, n - 1), t.At(Unravel(t.shape, n - 1)), Width(t.dtype), n - 1, k);
    if k < n - 1 {
      GatherElement(t, n - 1, k);
    }
  }

  /** For every shape and every stride vector, the dense copy shows the same
      element as the source at every multi-index. */
  lemma DensifyAgrees(t: View, idx: seq<nat>)
    requires !t.dtype.Unsupported?
    requires InShape(t.shape, idx)
    ensures (Ravel(t.shape, idx) + 1) * Width(t.dtype) <= |Densify(t).data|
    ensures Densify(t).At(idx) == t.At(idx)
  {
    RavelBijection(t.shape, idx);
    GatherElement(t, Product(t.shape), Ravel(t.shape, idx));
  }

  /** A dense tensor seen as a view over its own bytes. */
  function Contiguous(d: Dense): (t: View)
    ensures t.dtype == d.dtype && t.shape == d.shape
  {
    ContiguousInBounds(d);
    StridedTensor(d.dtype, d.data, 0, d.shape, RowMajor(d.shape))
  }

  lemma ContiguousInBounds(d: Dense)
    ensures StridedTensor(d.dtype, d.data, 0, d.shape, RowMajor(d.shape)).InBounds()
  {
    forall idx | InShape(d.shape, idx)
      ensures (Dot(RowMajor(d.shape), idx) + 1) * Width(d.dtype) <= |d.data|
    {
      RowMajorDot(d.shape, idx);
      RavelBijection(d.shape, idx);
      MulMonotone(Ravel(d.shape, idx) + 1, Product(d.shape), Width(d.dtype));
    }
  }

  lemma ContiguousAt(d: Dense, k: nat)
    requires k < Product(d.shape)
    ensures InShape(d.shape, Unravel(d.shape, k))
    ensures k * Width(d.dtype) <= (k + 1) * Width(d.dtype) <= |d.data|
    ensures Contiguous(d).At(Unravel(d.shape, k)) == d.data[k * Width(d.dtype)..(k + 1) * Width(d.dtype)]
  {
    UnravelBijection(d.shape, k);
    RowMajorDot(d.shape, Unravel(d.shape, k));
    MulMonotone(k + 1, Product(d.shape), Width(d.dtype));
    hide Product;
    hide Ravel;
    hide Unravel;
    hide Dot;
    hide RowMajor;
  }

  lemma GatherStep(t: View, n: nat)
    requires 0 < n <= Product(t.shape)
    ensures InShape(t.shape, Unravel(t.shape, n - 1))
    ensures Gather(t, n) == Gather(t, n - 1) + t.At(Unravel(t.shape, n - 1))
  {
    UnravelBijection(t.shape, n - 1);
  }

  lemma SplitPrefix(s: seq<Byte>, i: nat, j: nat)
    requires i <= j <= |s|
    ensures s[..j] == s[..i] + s[i..j]
  {
  }

  lemma NextContiguous(d: Dense, n: nat)
    requires 0 < n <= Product(d.shape)
    requires (n - 1) * Width(d.dtype) <= |d.data|
    requires Gather(Contiguous(d), n - 1) == d.data[..(n - 1) * Width(d.dtype)]
    ensures n * Width(d.dtype) <= |d.data|
    ensures Gather(Contiguous(d), n) == d.data[..n * Width(d.dtype)]
  {
    hide *;
    ContiguousAt(d, n - 1);
    GatherStep(Contiguous(d), n);
    var i, j := (n - 1) * Width(d.dtype), (n - 1 + 1) * Width(d.dtype);
    assert j == n * Width(d.dtype);
    SplitPrefix(d.data, i, j);
  }

  lemma {:induction false} GatherContiguous(d: Dense, n: nat)
    requires n <= Product(d.shape)
    ensures n * Width(d.dtype) <= |d.data|
    ensures Gather(Contiguous(d), n) == d.data[..n * Width(d.dtype)]
  {
    if n == 0 {
      assert 0 * Width(d.dtype) == 0;
    } else {
      hide *;
      GatherContiguous(d, n - 1);
      NextContiguous(d, n);
    }
  }

  /** Copying a dense tensor gives the same dense tensor. */
  lemma DensifyContiguous(d: Dense)
    ensures Densify(Contiguous(d)) == d
  {
    GatherContiguous(d, Product(d.shape));
  }
}
