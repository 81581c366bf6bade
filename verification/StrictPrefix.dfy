/** When the bytes that a drain leaves unread are the beginning of a frame. */
module StrictPrefix {
  import opened Prelude
  import opened BigEndian
  import opened Frames

  /** Some more bytes complete `v` to exactly one frame. */
  ghost predicate IsStrictPrefix(v: bytes)
  {
    exists x, f :: x != [] && Next(v + x) == Got(f, [])
  }

  /** The type bytes that are present leave a type open for a frame of this size. */
  predicate TypePossible(t: bytes, size: int)
    requires |t| <= 4
  {
    && (forall i :: 0 <= i < |t| && i < 3 ==> t[i] == 0)
    && (|t| == 4 ==> t[3] <= 2 && (t[3] == 2 ==> FRAME_SIZE + MSG_HEADER <= size))
  }

  /** The bytes that are present allow a frame: a size that is not negative, then one of at
      least 4, then a known type, and for a message room for its header. */
  predicate CanBeFrame(v: bytes)
  {
    if |v| < DATA_SIZE then v == [] || v[0] < 0x80
    else
      var size := Int32(v[..4]);
      FRAME_SIZE <= size && TypePossible(v[4..Min(8, |v|)], size)
  }

  lemma Int32Bytes(b: bytes)
    requires |b| == 4
    ensures var u := 256 * (256 * (256 * (b[0] as int) + b[1]) + b[2]) + b[3];
            Int32(b) == if b[0] >= 0x80 then u - 0x1_0000_0000 else u
  {
    Pow256Values();
    assert b[..3][..2] == b[..2] && b[..2][..1] == b[..1] && b[..1][..0] == [];
    assert Unpack(b[..1]) == b[0];
    assert Unpack(b[..2]) == 256 * Unpack(b[..1]) + b[1];
    assert Unpack(b[..3]) == 256 * Unpack(b[..2]) + b[2];
  }

  /** A type is known exactly if its first three bytes are 0 and the last is at most 2. */
  lemma KnownType(t: bytes)
    requires |t| == 4
    ensures Int32(t) in {FRAME_TYPE_RESPONSE, FRAME_TYPE_ERROR, FRAME_TYPE_MESSAGE} <==>
            t[0] == 0 && t[1] == 0 && t[2] == 0 && t[3] <= 2
    ensures t[0] == 0 && t[1] == 0 && t[2] == 0 ==> Int32(t) == t[3]
  {
    Int32Bytes(t);
  }

  function Zeros(n: nat): (z: bytes)
    ensures |z| == n && forall i :: 0 <= i < n ==> z[i] == 0
  {
    seq(n, _ => 0)
  }

  /** With the size and the type there, any payload of the right length will do. */
  lemma FillPayload(v: bytes) returns (f: Frame)
    requires 8 <= |v| <= DATA_SIZE + Int32(v[..4]) && CanBeFrame(v)
    ensures Next(v + Zeros(DATA_SIZE + Int32(v[..4]) - |v|)) == Got(f, [])
  {
    var u := v + Zeros(DATA_SIZE + Int32(v[..4]) - |v|);
    KnownType(v[4..8]);
    assert u[..4] == v[..4] && u[4..8] == v[4..8];
    assert u[|u|..] == [];
    f := Next(u).frame;
  }

  /** The first missing bytes of a size, of a type, or of a payload. */
  function Missing(v: bytes): bytes
    requires Next(v).More?
  {
    if |v| < 4 then [0, 0, 0, 0xFF][|v|..]
    else if |v| < 8 then Zeros(8 - |v|)
    else Zeros(DATA_SIZE + Int32(v[..4]) - |v|)
  }

  lemma FillSize(v: bytes)
    requires |v| < 4 && CanBeFrame(v)
    ensures |v + Missing(v)| == 4 && CanBeFrame(v + Missing(v)) && Next(v + Missing(v)).More?
  {
    var w := v + Missing(v);
    assert w[..4] == w;
    Int32Bytes(w);
  }

  lemma FillType(v: bytes)
    requires 4 <= |v| < 8 && Next(v).More? && CanBeFrame(v)
    ensures var w := v + Missing(v);
            && |w| == 8 <= DATA_SIZE + Int32(w[..4]) && CanBeFrame(w)
  {
    var w := v + Missing(v);
    assert w[..4] == v[..4];
    assert w[4..8] == v[4..] + Missing(v) && v[4..Min(8, |v|)] == v[4..];
  }

  lemma CompleteFrom8(v: bytes) returns (x: bytes, f: Frame)
    requires |v| >= 8 && |v| <= DATA_SIZE + Int32(v[..4]) && CanBeFrame(v)
    ensures Next(v + x) == Got(f, [])
    ensures |v + x| == DATA_SIZE + Int32(v[..4])
  {
    f := FillPayload(v);
    x := Zeros(DATA_SIZE + Int32(v[..4]) - |v|);
  }

  lemma CompleteFrom4(v: bytes) returns (x: bytes, f: Frame)
    requires |v| >= 4 && Next(v).More? && CanBeFrame(v)
    ensures x != [] && Next(v + x) == Got(f, [])
  {
    if |v| < 8 {
      FillType(v);
      var y;
      y, f := CompleteFrom8(v + Missing(v));
      x := Missing(v) + y;
      assert (v + Missing(v)) + y == v + x;
    } else {
      x, f := CompleteFrom8(v);
    }
  }

  /** Bytes that allow a frame can be completed to one. */
  lemma Complete(v: bytes) returns (x: bytes, f: Frame)
    requires Next(v).More? && CanBeFrame(v)
    ensures x != [] && Next(v + x) == Got(f, [])
  {
    if |v| < 4 {
      FillSize(v);
      var y;
      y, f := CompleteFrom4(v + Missing(v));
      x := Missing(v) + y;
      assert (v + Missing(v)) + y == v + x;
    } else {
      x, f := CompleteFrom4(v);
    }
  }

  /** A frame allows each of its own prefixes. */
  lemma FrameAllows(v: bytes, x: bytes)
    requires Next(v + x).Got?
    ensures CanBeFrame(v)
  {
    var u := v + x;
    KnownType(u[4..8]);
    Int32Bytes(u[..4]);
    if |v| >= 4 {
      assert u[..4] == v[..4];
      assert forall i :: 0 <= i < Min(8, |v|) - 4 ==> v[4..Min(8, |v|)][i] == u[4..8][i];
    } else if v != [] {
      assert v[0] == u[..4][0];
    }
  }

  /** The unread bytes are a strict prefix of a frame if and only if `gets` wants more and
      the bytes present allow a frame. */
  lemma StrictPrefixIff(v: bytes)
    ensures IsStrictPrefix(v) <==> Next(v).More? && CanBeFrame(v)
  {
    if IsStrictPrefix(v) {
      var x, f :| x != [] && Next(v + x) == Got(f, []);
      NextAppend(v, x);
      FrameAllows(v, x);
    }
    if Next(v).More? && CanBeFrame(v) {
      var x, f := Complete(v);
      assert x != [] && Next(v + x) == Got(f, []);
    }
  }

  /** A drain that met no error leaves a strict prefix of a frame if and only if the bytes it
      leaves allow one; otherwise no bytes that follow will ever give a frame. */
  lemma DrainLeavesAPrefixIff(v: bytes)
    requires Parse(v).error.None?
    ensures var r := Parse(v).rest;
            && (IsStrictPrefix(r) <==> CanBeFrame(r))
            && (!IsStrictPrefix(r) ==> forall x :: !Next(r + x).Got?)
  {
    var r := Parse(v).rest;
    ParseStops(v);
    StrictPrefixIff(r);
    forall x | Next(r + x).Got?
      ensures CanBeFrame(r)
    {
      FrameAllows(r, x);
    }
  }

  /** The condition does fail: after a size of 100 and the unknown type 7, `gets` goes on
      waiting for the announced bytes, and rejects the type only then. */
  lemma WaitsBehindAnUnknownType(v: bytes)
    requires v == PackLength(100) + PackLength(7)
    ensures Parse(v) == Parsed([], v, None) && !IsStrictPrefix(v)
    ensures Next(v + Zeros(96)) == Bad(InvalidFrameType(7))
  {
    var u := v + Zeros(96);
    Int32PackLength(100);
    Int32PackLength(7);
    assert v[..4] == PackLength(100);
    assert v[4..8] == PackLength(7);
    assert u[..4] == PackLength(100);
    assert u[4..8] == PackLength(7);
    KnownType(v[4..8]);
    StrictPrefixIff(v);
  }
}
