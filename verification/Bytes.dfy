// Bytes and the fixed-width big-endian integers every codec of the repository uses.
module Bytes {
  type byte = x: int | 0 <= x < 256

  datatype Option<+T> = None | Some(value: T)

  function Pow256(k: nat): (p: nat)
    ensures p > 0
  {
    if k == 0 then 1 else 256 * Pow256(k - 1)
  }

  /** The low k bytes of n, most significant first: a Go conversion to uintN followed by
      binary.BigEndian.PutUintN. */
  function PutBytes(n: nat, k: nat): (r: seq<byte>)
    ensures |r| == k
  {
    if k == 0 then [] else PutBytes(n / 256, k - 1) + [n % 256]
  }

  /** binary.BigEndian.UintN. */
  function GetBytes(s: seq<byte>): (r: nat)
    ensures r < Pow256(|s|)
  {
    if s == [] then 0 else GetBytes(s[..|s| - 1]) * 256 + s[|s| - 1]
  }

  lemma {:induction false} GetOfPutBytes(n: nat, k: nat)
    requires n < Pow256(k)
    ensures GetBytes(PutBytes(n, k)) == n
  {
    if k > 0 {
      GetOfPutBytes(n / 256, k - 1);
      assert PutBytes(n, k)[..k - 1] == PutBytes(n / 256, k - 1);
    }
  }

  lemma LastByte(high: nat, low: byte)
    ensures (high * 256 + low) / 256 == high && (high * 256 + low) % 256 == low
  {
  }

  lemma {:induction false} PutOfGetBytes(s: seq<byte>)
    ensures PutBytes(GetBytes(s), |s|) == s
    decreases |s|
  {
    if s != [] {
      PutOfGetBytes(s[..|s| - 1]);
      LastByte(GetBytes(s[..|s| - 1]), s[|s| - 1]);
      assert s == s[..|s| - 1] + [s[|s| - 1]];
    }
  }

  function PutUint16(n: nat): (r: seq<byte>)
    ensures |r| == 2
  {
    PutBytes(n, 2)
  }

  function Uint16(s: seq<byte>): (r: nat)
    requires |s| == 2
    ensures r < 0x1_0000
  {
    assert Pow256(2) == 0x1_0000;
    GetBytes(s)
  }

  function PutUint32(n: nat): (r: seq<byte>)
    ensures |r| == 4
  {
    PutBytes(n, 4)
  }

  function Uint32(s: seq<byte>): (r: nat)
    requires |s| == 4
    ensures r < 0x1_0000_0000
  {
    assert Pow256(4) == 0x1_0000_0000;
    GetBytes(s)
  }

  lemma Uint16OfPut(n: nat)
    requires n < 0x1_0000
    ensures Uint16(PutUint16(n)) == n
  {
    assert Pow256(2) == 0x1_0000;
    GetOfPutBytes(n, 2);
  }

  lemma PutOfUint16(s: seq<byte>)
    requires |s| == 2
    ensures PutUint16(Uint16(s)) == s
  {
    PutOfGetBytes(s);
  }

  lemma Uint32OfPut(n: nat)
    requires n < 0x1_0000_0000
    ensures Uint32(PutUint32(n)) == n
  {
    assert Pow256(4) == 0x1_0000_0000;
    GetOfPutBytes(n, 4);
  }

  /** binary.BigEndian.PutUint64(uint64(n)) of a signed n: two's complement. */
  function PutInt64(n: int): (r: seq<byte>)
    ensures |r| == 8
  {
    PutBytes(n % 0x1_0000_0000_0000_0000, 8)
  }

  /** int64(binary.BigEndian.Uint64(s)). */
  function Int64(s: seq<byte>): int
    requires |s| == 8
  {
    var bits := GetBytes(s);
    if bits < 0x8000_0000_0000_0000 then bits else bits - 0x1_0000_0000_0000_0000
  }

  lemma Int64OfPut(n: int)
    requires -0x8000_0000_0000_0000 <= n < 0x8000_0000_0000_0000
    ensures Int64(PutInt64(n)) == n
  {
    assert Pow256(8) == 0x1_0000_0000_0000_0000;
    GetOfPutBytes(n % 0x1_0000_0000_0000_0000, 8);
  }

  lemma PutOfInt64(s: seq<byte>)
    requires |s| == 8
    ensures PutInt64(Int64(s)) == s && -0x8000_0000_0000_0000 <= Int64(s) < 0x8000_0000_0000_0000
  {
    var bits: int := GetBytes(s);
    assert Pow256(8) == 0x1_0000_0000_0000_0000;
    Reduced(bits);
    PutOfGetBytes(s);
  }

  lemma Reduced(bits: int)
    requires 0 <= bits < 0x1_0000_0000_0000_0000
    ensures bits % 0x1_0000_0000_0000_0000 == bits
    ensures (bits - 0x1_0000_0000_0000_0000) % 0x1_0000_0000_0000_0000 == bits
  {
  }

  function Min(a: int, b: int): int {
    if a <= b then a else b
  }

  function Max(a: int, b: int): int {
    if a >= b then a else b
  }

  lemma Assoc<T>(a: seq<T>, b: seq<T>, c: seq<T>)
    ensures (a + b) + c == a + (b + c)
  {
  }

  lemma Slices<T>(a: seq<T>, b: seq<T>, c: seq<T>)
    ensures var s := a + (b + c);
      s[..|a|] == a && s[|a|..|a| + |b|] == b && s[|a| + |b|..] == c
  {
  }

  function Flatten<T>(parts: seq<seq<T>>): seq<T> {
    if parts == [] then [] else parts[0] + Flatten(parts[1..])
  }

  lemma {:induction false} FlattenAppend<T>(a: seq<seq<T>>, b: seq<seq<T>>)
    ensures Flatten(a + b) == Flatten(a) + Flatten(b)
  {
    if a == [] {
      assert a + b == b;
    } else {
      FlattenAppend(a[1..], b);
      assert (a + b)[1..] == a[1..] + b;
      Assoc(a[0], Flatten(a[1..]), Flatten(b));
    }
  }

  lemma FlattenSnoc<T>(a: seq<seq<T>>, x: seq<T>)
    ensures Flatten(a + [x]) == Flatten(a) + x
  {
    FlattenAppend(a, [x]);
    assert Flatten([x]) == x + Flatten([]);
  }
}
