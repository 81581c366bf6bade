/** The frames of the "Data Format" section of the NSQ TCP Protocol Spec, byte by byte: which
    numbers mean which frame, and where its fields stand. */
module FrameBytes {
  import opened Prelude
  import opened BigEndian
  import opened Frames
  import opened StrictPrefix

  /** Four bytes, most significant first. */
  function Unsigned32(b: bytes): int
    requires |b| == 4
  {
    b[0] as int * 0x100_0000 + b[1] as int * 0x1_0000 + b[2] as int * 0x100 + b[3] as int
  }

  /** The same in two's complement. */
  function Signed32(b: bytes): int
    requires |b| == 4
  {
    Unsigned32(b) - (if b[0] >= 128 then 0x1_0000_0000 else 0)
  }

  lemma Int32IsSigned(b: bytes)
    requires |b| == 4
    ensures Int32(b) == Signed32(b)
  {
    Int32Bytes(b);
  }

  // ---------- Sizes, types and errors ----------

  /** The first frame, decided by the size in bytes 0 to 3 and the type in bytes 4 to 7: type 0
      is a response, type 1 an error, and type 2 a message, whose header takes 26 bytes. */
  lemma NextByBytes(v: bytes)
    ensures Next(v).More? <==> |v| < 4 || |v| < 4 + Signed32(v[..4])
    ensures !Next(v).More? ==>
              var size := Signed32(v[..4]);
              if size < 4 then Next(v) == Bad(InvalidFrameSize)
              else
                var t := Signed32(v[4..8]);
                if t != 0 && t != 1 && t != 2 then Next(v) == Bad(InvalidFrameType(t))
                else if t == 2 && size < 30 then Next(v) == Bad(InvalidMessageSize)
                else
                  && Next(v).Got? && Next(v).rest == v[4 + size..]
                  && (Next(v).frame.Response? <==> t == 0)
                  && (Next(v).frame.Error? <==> t == 1)
                  && (Next(v).frame.Message? <==> t == 2)
  {
    if |v| >= 4 {
      Int32IsSigned(v[..4]);
      if |v| >= 8 { Int32IsSigned(v[4..8]); }
    }
  }

  /** A frame that is found says in one byte what it is. */
  lemma TypeByte(v: bytes)
    requires Next(v).Got?
    ensures |v| >= 8 && v[4] == 0 && v[5] == 0 && v[6] == 0
    ensures match Next(v).frame
            case Response(_) => v[7] == 0
            case Error(_, _) => v[7] == 1
            case Message(_, _, _, _) => v[7] == 2
  {
    NextByBytes(v);
    var t := v[4..8];
    assert t[0] == v[4] && t[1] == v[5] && t[2] == v[6] && t[3] == v[7];
  }

  // ---------- Fields ----------

  /** A response is everything behind the type. */
  lemma ResponseFields(v: bytes)
    requires Next(v).Got? && Next(v).frame.Response?
    ensures 8 <= 4 + Signed32(v[..4]) <= |v|
    ensures Next(v).frame.body == v[8..4 + Signed32(v[..4])]
  {
    NextByBytes(v);
    Int32IsSigned(v[..4]);
  }

  /** An error is its code and its text, around the first byte 32. */
  lemma ErrorFields(v: bytes)
    requires Next(v).Got? && Next(v).frame.Error?
    ensures 8 <= 4 + Signed32(v[..4]) <= |v|
    ensures var (data, f) := (v[8..4 + Signed32(v[..4])], Next(v).frame);
            && 32 !in f.code
            && (if 32 in data then data == f.code + [32] + f.msg else f.code == data && f.msg == [])
  {
    NextByBytes(v);
    Int32IsSigned(v[..4]);
  }

  lemma {:induction false} UnpackAppend(a: bytes, b: bytes)
    ensures Unpack(a + b) == Unpack(a) * Pow256(|b|) + Unpack(b)
    decreases |b|
  {
    if b == [] {
      assert a + b == a;
    } else {
      var front := b[..|b| - 1];
      assert (a + b)[..|a + b| - 1] == a + front;
      UnpackAppend(a, front);
      OneMoreDigit(Unpack(a), Pow256(|front|), Unpack(front), b[|b| - 1]);
    }
  }

  lemma OneMoreDigit(u: int, p: int, x: int, digit: int)
    ensures 256 * (u * p + x) + digit == u * (256 * p) + (256 * x + digit)
  {
  }

  lemma Unpack32(b: bytes)
    requires |b| == 4
    ensures Unpack(b) == Unsigned32(b)
  {
    Pow256Values();
    Int32Bytes(b);
  }

  lemma Unpack64(b: bytes)
    requires |b| == 8
    ensures Unpack(b) == Unsigned32(b[..4]) * 0x1_0000_0000 + Unsigned32(b[4..])
    ensures UnpackSigned(b) == Signed32(b[..4]) * 0x1_0000_0000 + Unsigned32(b[4..])
  {
    Pow256Values();
    assert b == b[..4] + b[4..];
    UnpackAppend(b[..4], b[4..]);
    Unpack32(b[..4]);
    Unpack32(b[4..]);
  }

  lemma Unpack16(b: bytes)
    requires |b| == 2
    ensures Unpack(b) == 256 * b[0] as int + b[1] as int
  {
    assert b[..1][..0] == [];
    assert Unpack(b[..1]) == b[0];
  }

  lemma PartsOf(v: bytes, end: nat)
    requires 34 <= end <= |v|
    ensures var data := v[8..end];
            && data[..8][..4] == v[8..12] && data[..8][4..] == v[12..16]
            && data[8..10] == [v[16], v[17]] && data[10..26] == v[18..34] && data[26..] == v[34..end]
  {
    var data := v[8..end];
    SliceOfSlice(v, 8, end, 0, 8);
    SliceOfSlice(v, 8, 16, 0, 4);
    SliceOfSlice(v, 8, 16, 4, 8);
    SliceOfSlice(v, 8, end, 8, 10);
    SliceOfSlice(v, 8, end, 10, 26);
    SliceOfSlice(v, 8, end, 26, end - 8);
    assert v[8..16][..4] == v[8..16][0..4] && v[8..16][4..] == v[8..16][4..8];
  }

  lemma SliceOfSlice(v: bytes, a: nat, b: nat, i: nat, j: nat)
    requires a <= b <= |v| && i <= j <= b - a
    ensures v[a..b][i..j] == v[a + i..a + j]
  {
    forall k | 0 <= k < j - i
      ensures v[a..b][i..j][k] == v[a + i..a + j][k]
    {
      assert v[a..b][i..j][k] == v[a..b][i + k] == v[a + i + k];
    }
    assert |v[a..b][i..j]| == |v[a + i..a + j]|;
  }

  /** A message has its timestamp at byte 8, its attempts at 16, its id at 18 and its body from
      34 on; the timestamp is signed, the attempts are not. */
  lemma MessageFields(v: bytes)
    requires Next(v).Got? && Next(v).frame.Message?
    ensures 34 <= 4 + Signed32(v[..4]) <= |v|
    ensures var f := Next(v).frame;
            && f.timestamp == Signed32(v[8..12]) * 0x1_0000_0000 + Unsigned32(v[12..16])
            && f.attempts == 256 * v[16] as int + v[17] as int
            && f.id == v[18..34]
            && f.content == v[34..4 + Signed32(v[..4])]
  {
    NextByBytes(v);
    Int32IsSigned(v[..4]);
    var data := v[8..4 + Signed32(v[..4])];
    PartsOf(v, 4 + Signed32(v[..4]));
    Unpack64(data[..8]);
    Unpack16(data[8..10]);
  }

  /** The reply OK, as nsqd writes it. */
  lemma OkReply(v: bytes)
    requires v == [0, 0, 0, 6, 0, 0, 0, 0, 0x4F, 0x4B]
    ensures Next(v) == Got(Response([0x4F, 0x4B]), [])
  {
    assert Signed32(v[..4]) == 6 && Signed32(v[4..8]) == 0;
    NextByBytes(v);
    ResponseFields(v);
    assert v[8..10] == [0x4F, 0x4B] && v[10..] == [];
  }

  // ---------- Lengths that are written ----------

  /** A length is written most significant byte first. */
  lemma LengthBytesWritten(n: nat)
    requires IsLength(n)
    ensures var b := PackLength(n);
            b[0] == n / 0x100_0000 && b[1] == n / 0x1_0000 % 256 && b[2] == n / 0x100 % 256 && b[3] == n % 256
  {
    var b := PackLength(n);
    Int32PackLength(n);
    Int32IsSigned(b);
  }
}
