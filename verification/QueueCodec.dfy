/** The byte keys of the queue's time indexes: big-endian, with the sign bit of the timestamp flipped so
    that byte order is time order. */
module QueueCodec {
  import opened Options
  import opened QueueModel

  newtype Byte = b: int | 0 <= b < 256

  const TWO_63: int := 0x8000_0000_0000_0000
  const TWO_64: int := 0x1_0000_0000_0000_0000

  type Int64 = t: int | -0x8000_0000_0000_0000 <= t < 0x8000_0000_0000_0000
  type Uint64 = n: int | 0 <= n < 0x1_0000_0000_0000_0000

  /** `bytes.Compare(a, b) < 0`, the order of bucket keys. */
  predicate BytesLess(a: seq<Byte>, b: seq<Byte>) {
    if b == [] then false
    else if a == [] then true
    else a[0] < b[0] || (a[0] == b[0] && BytesLess(a[1..], b[1..]))
  }

  function Pow256(n: nat): nat {
    if n == 0 then 1 else 256 * Pow256(n - 1)
  }

  /** The low `n` bytes of a number, most significant first. */
  function BigEndian(n: nat, v: nat): (bytes: seq<Byte>)
    ensures |bytes| == n
  {
    if n == 0 then [] else BigEndian(n - 1, v / 256) + [(v % 256) as Byte]
  }

  function FromBigEndian(bytes: seq<Byte>): nat {
    if bytes == [] then 0 else FromBigEndian(bytes[..|bytes| - 1]) * 256 + bytes[|bytes| - 1] as int
  }

  lemma {:induction false} FromBigEndianInverts(n: nat, v: nat)
    requires v < Pow256(n)
    ensures FromBigEndian(BigEndian(n, v)) == v
  {
    if n > 0 {
      assert v / 256 < Pow256(n - 1);
      FromBigEndianInverts(n - 1, v / 256);
      assert BigEndian(n, v)[..n - 1] == BigEndian(n - 1, v / 256);
    }
  }

  /** Appending one byte each to keys of equal length. */
  lemma {:induction false} BytesLessSnoc(a: seq<Byte>, b: seq<Byte>, x: Byte, y: Byte)
    requires |a| == |b|
    ensures BytesLess(a + [x], b + [y]) <==> BytesLess(a, b) || (a == b && x < y)
  {
    if a == [] {
      assert a + [x] == [x] && b + [y] == [y];
      assert [x][1..] == [] && [y][1..] == [];
    } else {
      assert (a + [x])[1..] == a[1..] + [x] && (b + [y])[1..] == b[1..] + [y];
      BytesLessSnoc(a[1..], b[1..], x, y);
      assert a == [a[0]] + a[1..] && b == [b[0]] + b[1..];
    }
  }

  /** Byte order of big-endian numbers is numeric order. */
  lemma {:induction false} BigEndianOrder(n: nat, v: nat, w: nat)
    requires v < Pow256(n) && w < Pow256(n)
    ensures BytesLess(BigEndian(n, v), BigEndian(n, w)) <==> v < w
    ensures BigEndian(n, v) == BigEndian(n, w) <==> v == w
  {
    if n > 0 {
      assert v / 256 < Pow256(n - 1) && w / 256 < Pow256(n - 1);
      BigEndianOrder(n - 1, v / 256, w / 256);
      BytesLessSnoc(BigEndian(n - 1, v / 256), BigEndian(n - 1, w / 256), (v % 256) as Byte, (w % 256) as Byte);
      assert BigEndian(n, v)[n - 1] == (v % 256) as Byte && BigEndian(n, w)[n - 1] == (w % 256) as Byte;
      assert BigEndian(n, v)[..n - 1] == BigEndian(n - 1, v / 256);
      assert BigEndian(n, w)[..n - 1] == BigEndian(n - 1, w / 256);
    }
  }

  /** The conversion of a signed to an unsigned 64-bit integer, and back. */
  function ToUint64(t: Int64): Uint64 { if t < 0 then t + TWO_64 else t }

  function ToInt64(n: Uint64): Int64 { if n >= TWO_63 then n - TWO_64 else n }

  /** Exclusive or with the top bit. */
  function FlipSign(n: Uint64): Uint64 { if n >= TWO_63 then n - TWO_63 else n + TWO_63 }

  function EncodeUint64(n: Uint64): seq<Byte> { BigEndian(8, n) }

  function DecodeUint64(bytes: seq<Byte>): Uint64 {
    if |bytes| != 8 then 0 else BoundedFrom(bytes); FromBigEndian(bytes)
  }

  lemma {:induction false} FromBigEndianBounded(bytes: seq<Byte>)
    ensures FromBigEndian(bytes) < Pow256(|bytes|)
  {
    if bytes != [] {
      FromBigEndianBounded(bytes[..|bytes| - 1]);
    }
  }

  lemma BoundedFrom(bytes: seq<Byte>)
    requires |bytes| == 8
    ensures FromBigEndian(bytes) < TWO_64
  {
    FromBigEndianBounded(bytes);
    Pow256Is64();
  }

  lemma Pow256Is64()
    ensures Pow256(8) == TWO_64
  {
    assert Pow256(4) == 256 * (256 * (256 * (256 * Pow256(0))));
    assert Pow256(8) == 256 * (256 * (256 * (256 * Pow256(4))));
  }

  /** The 16-byte key of "event_times". */
  function QueueTimeKey(createdAt: Int64, sequence: Uint64): seq<Byte> {
    EncodeUint64(FlipSign(ToUint64(createdAt))) + EncodeUint64(sequence)
  }

  function DecodeQueueTimeKey(key: seq<Byte>): Option<(Int64, Uint64)> {
    if |key| != 16 then None
    else Some((ToInt64(FlipSign(DecodeUint64(key[..8]))), DecodeUint64(key[8..])))
  }

  /** The key of "delivered_by_time": timestamp, then the bytes of the event id. */
  function DeliveredTimeKey(deliveredAt: Int64, id: seq<Byte>): seq<Byte> {
    EncodeUint64(FlipSign(ToUint64(deliveredAt))) + id
  }

  function DecodeDeliveredTimeKey(key: seq<Byte>): Option<(Int64, seq<Byte>)> {
    if |key| <= 8 then None else Some((ToInt64(FlipSign(DecodeUint64(key[..8]))), key[8..]))
  }

  lemma DecodeUint64Inverts(n: Uint64)
    ensures DecodeUint64(EncodeUint64(n)) == n
  {
    Pow256Is64();
    FromBigEndianInverts(8, n);
  }

  /** Decoding inverts encoding over all 64-bit timestamps and sequences. */
  lemma DecodeQueueTimeKeyInverts(createdAt: Int64, sequence: Uint64)
    ensures DecodeQueueTimeKey(QueueTimeKey(createdAt, sequence)) == Some((createdAt, sequence))
  {
    var key, head, tail := QueueTimeKey(createdAt, sequence), EncodeUint64(FlipSign(ToUint64(createdAt))),
      EncodeUint64(sequence);
    assert key[..8] == head && key[8..] == tail;
    DecodeUint64Inverts(FlipSign(ToUint64(createdAt)));
    DecodeUint64Inverts(sequence);
  }

  lemma DecodeDeliveredTimeKeyInverts(deliveredAt: Int64, id: seq<Byte>)
    ensures DecodeDeliveredTimeKey(DeliveredTimeKey(deliveredAt, id)) ==
      if id == [] then None else Some((deliveredAt, id))
  {
    var key, head := DeliveredTimeKey(deliveredAt, id), EncodeUint64(FlipSign(ToUint64(deliveredAt)));
    assert key[..8] == head && key[8..] == id;
    DecodeUint64Inverts(FlipSign(ToUint64(deliveredAt)));
  }

  lemma {:induction false} BytesLessJoin(a: seq<Byte>, b: seq<Byte>, c: seq<Byte>, d: seq<Byte>)
    requires |a| == |b|
    ensures BytesLess(a + c, b + d) <==> BytesLess(a, b) || (a == b && BytesLess(c, d))
  {
    if a == [] {
      assert a + c == c && b + d == d;
    } else {
      assert (a + c)[1..] == a[1..] + c && (b + d)[1..] == b[1..] + d;
      BytesLessJoin(a[1..], b[1..], c, d);
      assert a == [a[0]] + a[1..] && b == [b[0]] + b[1..];
    }
  }

  lemma TimestampOrder(t: Int64, u: Int64)
    ensures var a := EncodeUint64(FlipSign(ToUint64(t))); var b := EncodeUint64(FlipSign(ToUint64(u)));
      (BytesLess(a, b) <==> t < u) && (a == b <==> t == u)
  {
    Pow256Is64();
    BigEndianOrder(8, FlipSign(ToUint64(t)), FlipSign(ToUint64(u)));
  }

  /** The byte order of the keys of "event_times" is the order the model's cursor follows: signed
      timestamp, then sequence. */
  lemma QueueTimeKeyOrder(t: Int64, s: Uint64, u: Int64, r: Uint64)
    ensures BytesLess(QueueTimeKey(t, s), QueueTimeKey(u, r)) <==> KeyLess(TimeKey(t, s), TimeKey(u, r))
  {
    TimestampOrder(t, u);
    Pow256Is64();
    BigEndianOrder(8, s, r);
    BytesLessJoin(EncodeUint64(FlipSign(ToUint64(t))), EncodeUint64(FlipSign(ToUint64(u))), EncodeUint64(s),
      EncodeUint64(r));
  }

  /** Keys of "delivered_by_time" order by timestamp first, whatever the ids. */
  lemma DeliveredTimeKeyOrder(t: Int64, id: seq<Byte>, u: Int64, other: seq<Byte>)
    ensures BytesLess(DeliveredTimeKey(t, id), DeliveredTimeKey(u, other)) <==>
      t < u || (t == u && BytesLess(id, other))
  {
    TimestampOrder(t, u);
    BytesLessJoin(EncodeUint64(FlipSign(ToUint64(t))), EncodeUint64(FlipSign(ToUint64(u))), id, other);
  }
}
