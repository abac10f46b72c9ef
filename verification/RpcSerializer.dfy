/** The wire frame: a 13-byte header (magic, schema version, big-endian length
    of the metadata), the metadata, and the raw region. */
module RpcSerializer {
  import opened Results
  import opened Tensors
  import opened Values
  import opened Packets
  import opened RoundTrip

  const MAGIC: seq<Byte> := [0x4E, 0x44, 0x52, 0x50]  // "NDRP"
  const SCHEMA_VERSION: Byte := 1
  const HEADER_SIZE: nat := 13
  const LENGTH_LIMIT: nat := 0x1_0000_0000_0000_0000

  function BigEndian(n: nat, width: nat): (bytes: seq<Byte>)
    ensures |bytes| == width
  {
    if width == 0 then [] else BigEndian(n / 256, width - 1) + [n % 256]
  }

  function FromBigEndian(bytes: seq<Byte>): nat {
    if bytes == [] then 0 else FromBigEndian(bytes[..|bytes| - 1]) * 256 + bytes[|bytes| - 1]
  }

  function Power256(width: nat): nat {
    if width == 0 then 1 else 256 * Power256(width - 1)
  }

  lemma {:induction false} BigEndianInverse(n: nat, width: nat)
    requires n < Power256(width)
    ensures FromBigEndian(BigEndian(n, width)) == n
  {
    if width > 0 {
      BigEndianInverse(n / 256, width - 1);
      var bytes := BigEndian(n, width);
      assert bytes[..width - 1] == BigEndian(n / 256, width - 1);
    }
  }

  lemma {:induction false} FromBigEndianInverse(bytes: seq<Byte>)
    ensures FromBigEndian(bytes) < Power256(|bytes|)
    ensures BigEndian(FromBigEndian(bytes), |bytes|) == bytes
  {
    if bytes != [] {
      FromBigEndianInverse(bytes[..|bytes| - 1]);
    }
  }

  /** The first byte is the most significant. */
  lemma {:induction false} MostSignificantFirst(bytes: seq<Byte>)
    requires bytes != []
    ensures FromBigEndian(bytes) == bytes[0] * Power256(|bytes| - 1) + FromBigEndian(bytes[1..])
  {
    var n := |bytes| - 1;
    if n > 0 {
      MostSignificantFirst(bytes[..n]);
      assert bytes[..n][1..] == bytes[1..][..n - 1];
      Scale(bytes[0], Power256(n - 1), FromBigEndian(bytes[..n][1..]));
    }
  }

  lemma Scale(b: nat, p: nat, r: nat)
    ensures (b * p + r) * 256 == b * (256 * p) + r * 256
  {
  }

  lemma EightBytes()
    ensures Power256(8) == LENGTH_LIMIT
  {
    assert Power256(4) == 0x1_0000_0000;
    assert Power256(8) == 256 * (256 * (256 * (256 * Power256(4))));
  }

  function Frame(metadata: seq<Byte>, raw: seq<Byte>): seq<Byte> {
    MAGIC + [SCHEMA_VERSION] + BigEndian(|metadata|, 8) + metadata + raw
  }

  /** `None` is a `SerializationError`; every other exception becomes one. */
  function Dumps<R>(c: Codec, h: Heap<R>, root: R): Option<seq<Byte>> {
    var packet := Encode(c, h, root);
    if packet.Err? then None
    else
      var raw := Join(packet.value.chunks);
      if |raw| != packet.value.totalTensorBytes then None
      else if |packet.value.metadata| >= LENGTH_LIMIT then None  // struct.error
      else Some(Frame(packet.value.metadata, raw))
  }

  function Loads(c: Codec, payload: seq<Byte>): Option<Value> {
    if |payload| < HEADER_SIZE then None
    else if payload[..4] != MAGIC || payload[4] != SCHEMA_VERSION then None
    else
      var metadataEnd := HEADER_SIZE + FromBigEndian(payload[5..HEADER_SIZE]);
      if metadataEnd > |payload| then None
      else
        var v := Decode(c, payload[HEADER_SIZE..metadataEnd], payload[metadataEnd..]);
        if v.Ok? then Some(v.value) else None
  }

  lemma FrameParts(metadata: seq<Byte>, raw: seq<Byte>)
    requires |metadata| < LENGTH_LIMIT
    ensures var p := Frame(metadata, raw);
            && |p| == HEADER_SIZE + |metadata| + |raw|
            && p[..4] == MAGIC && p[4] == SCHEMA_VERSION
            && FromBigEndian(p[5..HEADER_SIZE]) == |metadata|
            && p[HEADER_SIZE..HEADER_SIZE + |metadata|] == metadata
            && p[HEADER_SIZE + |metadata|..] == raw
  {
    var p := Frame(metadata, raw);
    assert p[5..HEADER_SIZE] == BigEndian(|metadata|, 8);
    EightBytes();
    BigEndianInverse(|metadata|, 8);
  }

  /** The header in figures: the letters of the magic, version one, and eight
      bytes for the length of the metadata. */
  lemma HeaderBytes(metadata: seq<Byte>, raw: seq<Byte>)
    requires |metadata| < LENGTH_LIMIT
    ensures var p := Frame(metadata, raw);
            && |p| == 13 + |metadata| + |raw|
            && p[0] as char == 'N' && p[1] as char == 'D' && p[2] as char == 'R' && p[3] as char == 'P'
            && p[4] == 1 && FromBigEndian(p[5..13]) == |metadata|
  {
    hide FromBigEndian;
    FrameParts(metadata, raw);
    var p := Frame(metadata, raw);
    assert p[..4][0] == p[0] && p[..4][1] == p[1] && p[..4][2] == p[2] && p[..4][3] == p[3];
  }

  /** A payload loads exactly when it is the frame of a packet that decodes:
      no other byte string is accepted, and no framed packet is refused. */
  lemma LoadsExactly(c: Codec, payload: seq<Byte>, v: Value)
    ensures Loads(c, payload) == Some(v) <==>
              exists metadata, raw ::
                && |metadata| < LENGTH_LIMIT && payload == Frame(metadata, raw)
                && Decode(c, metadata, raw) == Ok(v)
  {
    hide Decode;
    if Loads(c, payload) == Some(v) {
      var length := payload[5..HEADER_SIZE];
      var end := HEADER_SIZE + FromBigEndian(length);
      var metadata, raw := payload[HEADER_SIZE..end], payload[end..];
      EightBytes();
      FromBigEndianInverse(length);
      assert payload == payload[..4] + [payload[4]] + length + metadata + raw;
      assert payload == Frame(metadata, raw);
    }
    if metadata, raw :| |metadata| < LENGTH_LIMIT && payload == Frame(metadata, raw)
                        && Decode(c, metadata, raw) == Ok(v)
    {
      FrameParts(metadata, raw);
    }
  }

  /** The only way to fail after `encode` succeeded is a metadata length that
      does not fit the header: the raw-length check never fires. */
  lemma DumpsFailsOnlyWithEncode<R>(c: Codec, h: Heap<R>, root: R)
    ensures Dumps(c, h, root).None? <==>
              Encode(c, h, root).Err? || |Encode(c, h, root).value.metadata| >= LENGTH_LIMIT
  {
    if Encode(c, h, root).Ok? {
      EncodedTotal(c, h, root);
    }
  }

  /** `loads(dumps(x))` is the tree `x` stands for. */
  lemma LoadsDumps<R>(c: Codec, h: Heap<R>, root: R)
    requires c.Consistent() && c.platform.RoundTrips() && Dumps(c, h, root).Some?
    ensures Unfold(h, root, c.limits.maxTreeDepth + 1).Some?
    ensures var v := Unfold(h, root, c.limits.maxTreeDepth + 1).value;
            Faithful(c, v) ==> Loads(c, Dumps(c, h, root).value) == Some(v)
  {
    hide Encode;
    hide Decode;
    hide Faithful;
    EncodeDecode(c, h, root);
    EncodedTotal(c, h, root);
    var p, v := Encode(c, h, root).value, Unfold(h, root, c.limits.maxTreeDepth + 1).value;
    FrameParts(p.metadata, Join(p.chunks));
  }

  /** Two object graphs with the same bytes on the wire stand for the same tree. */
  lemma DumpsInjective<R, Q>(c: Codec, h1: Heap<R>, r1: R, h2: Heap<Q>, r2: Q)
    requires c.Consistent() && c.platform.RoundTrips()
    requires Dumps(c, h1, r1).Some? && Dumps(c, h1, r1) == Dumps(c, h2, r2)
    ensures var v1, v2 := Unfold(h1, r1, c.limits.maxTreeDepth + 1), Unfold(h2, r2, c.limits.maxTreeDepth + 1);
            v1.Some? && v2.Some? && (Faithful(c, v1.value) && Faithful(c, v2.value) ==> v1 == v2)
  {
    LoadsDumps(c, h1, r1);
    LoadsDumps(c, h2, r2);
  }

  // ---------- Sending a tree of values ----------

  /** What the peer reads when this side sends `v`; `None` if either side fails. */
  function Carry(c: Codec, v: Value): Option<Value> {
    var payload := Dumps(c, TreeHeap(), v);
    if payload.None? then None else Loads(c, payload.value)
  }

  lemma CarryIdentity(c: Codec, v: Value)
    requires c.Consistent() && c.platform.RoundTrips() && Faithful(c, v)
    ensures Carry(c, v).Some? <==> Dumps(c, TreeHeap(), v).Some?
    ensures Carry(c, v).Some? ==> Carry(c, v).value == v
  {
    if Dumps(c, TreeHeap(), v).Some? {
      LoadsDumps(c, TreeHeap(), v);
      UnfoldTree(v, c.limits.maxTreeDepth + 1);
    }
  }
}
