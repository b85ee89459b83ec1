/** Unsigned integers in bytes, and byte memory: what the other modules need of `memcpy`. */
module Bytes {

  type Byte = x: int | 0 <= x < 256

  function Pow256(k: nat): nat {
    if k == 0 then 1 else 256 * Pow256(k - 1)
  }

  const U16_LIMIT := 0x1_0000
  const U32_LIMIT := 0x1_0000_0000
  const I64_LIMIT := 0x8000_0000_0000_0000

  /** Native order of the machines the format is defined for: least significant byte first. */
  function Little(v: nat, k: nat): (b: seq<Byte>)
    ensures |b| == k
  {
    if k == 0 then [] else [v % 256] + Little(v / 256, k - 1)
  }

  function FromLittle(b: seq<Byte>): nat {
    if b == [] then 0 else b[0] + 256 * FromLittle(b[1..])
  }

  /** Network order, used by the socket frames: most significant byte first. */
  function Big(v: nat, k: nat): (b: seq<Byte>)
    ensures |b| == k
  {
    if k == 0 then [] else Big(v / 256, k - 1) + [v % 256]
  }

  function FromBig(b: seq<Byte>): nat {
    if b == [] then 0 else 256 * FromBig(b[..|b| - 1]) + b[|b| - 1]
  }

  lemma {:induction false} LittleRoundTrip(v: nat, k: nat)
    requires v < Pow256(k)
    ensures FromLittle(Little(v, k)) == v
  {
    if k > 0 {
      assert v / 256 < Pow256(k - 1);
      LittleRoundTrip(v / 256, k - 1);
      assert Little(v, k)[1..] == Little(v / 256, k - 1);
    }
  }

  lemma {:induction false} LittleOfBytes(b: seq<Byte>)
    ensures Little(FromLittle(b), |b|) == b && FromLittle(b) < Pow256(|b|)
  {
    if b != [] {
      LittleOfBytes(b[1..]);
      assert FromLittle(b) / 256 == FromLittle(b[1..]) && FromLittle(b) % 256 == b[0];
      assert b == [b[0]] + b[1..];
    }
  }

  lemma {:induction false} BigRoundTrip(v: nat, k: nat)
    requires v < Pow256(k)
    ensures FromBig(Big(v, k)) == v
  {
    if k > 0 {
      assert v / 256 < Pow256(k - 1);
      BigRoundTrip(v / 256, k - 1);
      var b := Big(v, k);
      assert b[..|b| - 1] == Big(v / 256, k - 1);
    }
  }

  lemma Widths()
    ensures Pow256(2) == U16_LIMIT && Pow256(4) == U32_LIMIT && Pow256(8) == 0x1_0000_0000_0000_0000
  {
    assert Pow256(1) == 256 && Pow256(2) == 256 * Pow256(1) && Pow256(3) == 256 * Pow256(2);
    assert Pow256(4) == 256 * Pow256(3) && Pow256(5) == 256 * Pow256(4) && Pow256(6) == 256 * Pow256(5);
    assert Pow256(7) == 256 * Pow256(6) && Pow256(8) == 256 * Pow256(7);
  }

  // ---------------------------------------------------------------------------------------------
  // Memory
  // ---------------------------------------------------------------------------------------------

  function Splice(m: seq<Byte>, off: nat, b: seq<Byte>): (r: seq<Byte>)
    requires off + |b| <= |m|
    ensures |r| == |m|
    ensures r[off..off + |b|] == b
    ensures forall i | 0 <= i < |m| && !(off <= i < off + |b|) :: r[i] == m[i]
  {
    m[..off] + b + m[off + |b|..]
  }

  function Load(m: seq<Byte>, off: nat, k: nat): nat
    requires off + k <= |m|
  {
    FromLittle(m[off..off + k])
  }

  function Store(m: seq<Byte>, off: nat, v: nat, k: nat): (r: seq<Byte>)
    requires off + k <= |m|
    ensures |r| == |m|
  {
    Splice(m, off, Little(v, k))
  }

  lemma LoadStored(m: seq<Byte>, off: nat, v: nat, k: nat)
    requires off + k <= |m| && v < Pow256(k)
    ensures Load(Store(m, off, v, k), off, k) == v
  {
    LittleRoundTrip(v, k);
  }

  lemma LoadElsewhere(m: seq<Byte>, off: nat, v: nat, k: nat, at: nat, n: nat)
    requires off + k <= |m| && at + n <= |m|
    requires at + n <= off || off + k <= at
    ensures Load(Store(m, off, v, k), at, n) == Load(m, at, n)
  {
    var r := Store(m, off, v, k);
    assert r[at..at + n] == m[at..at + n];
  }

  /** Storing back what was there. */
  lemma StoreBack(m: seq<Byte>, off: nat, v: nat, k: nat)
    requires off + k <= |m|
    ensures Store(Store(m, off, v, k), off, Load(m, off, k), k) == m
  {
    LittleOfBytes(m[off..off + k]);
  }

  /** A store into a window of a larger memory. */
  lemma WindowStore(m: seq<Byte>, base: nat, len: nat, off: nat, v: nat, k: nat)
    requires base + len <= |m| && off + k <= len
    ensures var r := Store(m, base + off, v, k);
            && r[base..base + len] == Store(m[base..base + len], off, v, k)
            && r[..base] == m[..base] && r[base + len..] == m[base + len..]
  {
  }

  lemma WindowLoad(m: seq<Byte>, base: nat, len: nat, off: nat, k: nat)
    requires base + len <= |m| && off + k <= len
    ensures Load(m[base..base + len], off, k) == Load(m, base + off, k)
  {
    var w := m[base..base + len];
    var a, b := w[off..off + k], m[base + off..base + off + k];
    forall i | 0 <= i < k ensures a[i] == b[i] { assert a[i] == w[off + i] == m[base + (off + i)]; }
    assert a == b;
  }

  /** `memcpy` of an integer into a mapped region. */
  method StoreInto(a: array<Byte>, off: nat, v: nat, k: nat)
    requires off + k <= a.Length
    modifies a
    ensures a[..] == Store(old(a[..]), off, v, k)
  {
    var b := Little(v, k);
    for i := 0 to k
      invariant forall j | 0 <= j < i :: a[off + j] == b[j]
      invariant forall j | 0 <= j < a.Length && !(off <= j < off + i) :: a[j] == old(a[j])
    {
      a[off + i] := b[i];
    }
    assert a[..] == Store(old(a[..]), off, v, k);
  }

  method LoadFrom(a: array<Byte>, off: nat, k: nat) returns (v: nat)
    requires off + k <= a.Length
    ensures v == Load(a[..], off, k)
  {
    v := 0;
    var i := k;
    while i > 0
      invariant 0 <= i <= k
      invariant v == FromLittle(a[off + i..off + k])
    {
      i := i - 1;
      v := a[off + i] + 256 * v;
      assert a[off + i..off + k][1..] == a[off + i + 1..off + k];
    }
    assert a[..][off..off + k] == a[off..off + k];
  }
}
