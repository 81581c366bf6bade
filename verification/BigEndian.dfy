/** Big-endian integers, as `struct` packs them with a `>` format. */
module BigEndian {
  import opened Prelude

  function Pow256(n: nat): (p: nat)
    ensures p >= 1
  {
    if n == 0 then 1 else 256 * Pow256(n - 1)
  }

  lemma Pow256Values()
    ensures Pow256(2) == 0x1_0000
    ensures Pow256(4) == 0x1_0000_0000
    ensures Pow256(8) == 0x1_0000_0000_0000_0000
  {
    assert Pow256(1) == 256 * Pow256(0);
    assert Pow256(3) == 256 * Pow256(2);
    assert Pow256(5) == 256 * Pow256(4);
    assert Pow256(6) == 256 * Pow256(5);
    assert Pow256(7) == 256 * Pow256(6);
  }

  /** The unsigned formats: `H` is width 2. */
  function Pack(v: nat, width: nat): (b: bytes)
    requires v < Pow256(width)
    ensures |b| == width
    decreases width
  {
    if width == 0 then [] else Pack(v / 256, width - 1) + [v % 256]
  }

  function Unpack(b: bytes): (v: nat)
    ensures v < Pow256(|b|)
  {
    if b == [] then 0 else 256 * Unpack(b[..|b| - 1]) + b[|b| - 1]
  }

  lemma {:induction false} UnpackPack(v: nat, width: nat)
    requires v < Pow256(width)
    ensures Unpack(Pack(v, width)) == v
    decreases width
  {
    if width > 0 {
      var b := Pack(v, width);
      assert b[..width - 1] == Pack(v / 256, width - 1);
      UnpackPack(v / 256, width - 1);
    }
  }

  lemma {:induction false} PackUnpack(b: bytes)
    ensures Pack(Unpack(b), |b|) == b
    decreases |b|
  {
    if b != [] {
      var front := b[..|b| - 1];
      PackUnpack(front);
      assert Unpack(b) / 256 == Unpack(front);
      assert b == front + [b[|b| - 1]];
    }
  }

  /** The range of the two's-complement formats: `l` is width 4, `q` is width 8. */
  predicate Fits(v: int, width: nat)
  {
    0 <= 2 * v + Pow256(width) < 2 * Pow256(width)
  }

  function PackSigned(v: int, width: nat): (b: bytes)
    requires Fits(v, width)
    ensures |b| == width
  {
    Pack(if v < 0 then v + Pow256(width) else v, width)
  }

  function UnpackSigned(b: bytes): (v: int)
    ensures Fits(v, |b|)
  {
    var u := Unpack(b);
    if 2 * u >= Pow256(|b|) then u - Pow256(|b|) else u
  }

  lemma UnpackPackSigned(v: int, width: nat)
    requires Fits(v, width)
    ensures UnpackSigned(PackSigned(v, width)) == v
  {
    UnpackPack(if v < 0 then v + Pow256(width) else v, width);
  }

  lemma PackUnpackSigned(b: bytes)
    ensures PackSigned(UnpackSigned(b), |b|) == b
  {
    PackUnpack(b);
  }

  function Int32(b: bytes): int
    requires |b| == 4
  {
    UnpackSigned(b)
  }

  /** A length that `struct.pack('>l', n)` accepts. */
  predicate IsLength(n: nat)
  {
    n < 0x8000_0000
  }

  function PackLength(n: nat): (b: bytes)
    requires IsLength(n)
    ensures |b| == 4
  {
    Pow256Values();
    PackSigned(n, 4)
  }

  lemma Int32PackLength(n: nat)
    requires IsLength(n)
    ensures Int32(PackLength(n)) == n
  {
    Pow256Values();
    UnpackPackSigned(n, 4);
  }
}
