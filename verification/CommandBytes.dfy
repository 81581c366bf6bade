/** The bytes of a command: a reference layout of the encoder's output, in numbers. */
module CommandBytes {
  import opened Prelude
  import opened BigEndian
  import opened Commands
  import opened FrameBytes

  // ---------- The name ----------

  predicate White(c: byte)
  {
    c == 32 || c == 9 || c == 10 || c == 11 || c == 12 || c == 13
  }

  /** `bytes.upper()` moves the 26 small letters and nothing else. */
  lemma {:induction false} UpperBytes(b: bytes)
    ensures |Upper(b)| == |b|
    ensures forall i :: 0 <= i < |b| ==> Upper(b)[i] == if 97 <= b[i] <= 122 then b[i] - 32 else b[i]
  {
    if b != [] { UpperBytes(b[1..]); }
  }

  /** `bytes.strip()` cuts white space off both ends, all of it and nothing else. */
  lemma {:induction false} StripBytes(b: bytes) returns (i: nat, j: nat)
    ensures i <= j <= |b| && Strip(b) == b[i..j]
    ensures forall k :: 0 <= k < i || j <= k < |b| ==> White(b[k])
    ensures i < j ==> !White(b[i]) && !White(b[j - 1])
    decreases |b|
  {
    if b == [] {
      i, j := 0, 0;
    } else if IsWhite(b[0]) {
      i, j := StripBytes(b[1..]);
      assert b[1..][i..j] == b[i + 1..j + 1];
      assert forall k :: 1 <= k < |b| ==> b[k] == b[1..][k - 1];
      i, j := i + 1, j + 1;
    } else if IsWhite(b[|b| - 1]) {
      var front := b[..|b| - 1];
      i, j := StripBytes(front);
      assert front[i..j] == b[i..j];
      assert forall k :: 0 <= k < |b| - 1 ==> b[k] == front[k];
    } else {
      i, j := 0, |b|;
      assert b[0..|b|] == b;
    }
  }

  // ---------- The line and the data ----------

  /** Every argument behind a space. */
  function Spaced(args: seq<bytes>): bytes
  {
    if args == [] then [] else [32] + args[0] + Spaced(args[1..])
  }

  lemma {:induction false} JoinIsSpaced(args: seq<bytes>)
    requires args != []
    ensures [SPACE] + Join(args, SPACE) == Spaced(args)
    decreases |args|
  {
    if |args| == 1 {
      assert Spaced(args[1..]) == [];
    } else {
      JoinIsSpaced(args[1..]);
      AppendAssociates([32], args[0], [SPACE] + Join(args[1..], SPACE));
      AppendAssociates(args[0], [SPACE], Join(args[1..], SPACE));
    }
  }

  /** A length in four bytes. */
  function Length4(n: nat): bytes
    requires n < 0x8000_0000
  {
    [n / 0x100_0000, n / 0x1_0000 % 256, n / 0x100 % 256, n % 256]
  }

  lemma LengthIsFour(n: nat)
    requires IsLength(n)
    ensures PackLength(n) == Length4(n)
  {
    LengthBytesWritten(n);
  }

  /** Every part behind its length. */
  function Prefixed(parts: seq<bytes>): bytes
    requires forall p :: p in parts ==> |p| < 0x8000_0000
  {
    if parts == [] then [] else Length4(|parts[0]|) + parts[0] + Prefixed(parts[1..])
  }

  lemma {:induction false} PartsArePrefixed(parts: seq<bytes>)
    requires EncodeParts(parts).Some?
    ensures forall p :: p in parts ==> |p| < 0x8000_0000
    ensures EncodeParts(parts).value == Prefixed(parts)
    decreases |parts|
  {
    EncodePartsSize(parts);
    if parts != [] {
      PartsArePrefixed(parts[1..]);
      LengthIsFour(|parts[0]|);
    }
  }

  ghost predicate IsDataOf(v: bytes, data: Data)
  {
    match data
    case NoData => v == []
    case Single(body) => |body| < 0x8000_0000 && v == Length4(|body|) + body
    case Many(parts) =>
      && |parts| < 0x8000_0000 && (forall p :: p in parts ==> |p| < 0x8000_0000)
      && 4 + |Prefixed(parts)| < 0x8000_0000
      && v == Length4(4 + |Prefixed(parts)|) + (Length4(|parts|) + Prefixed(parts))
  }

  lemma DataBytes(data: Data)
    requires EncodeData(data).Some?
    ensures IsDataOf(EncodeData(data).value, data)
  {
    match data
    case NoData =>
    case Single(body) => LengthIsFour(|body|);
    case Many(parts) =>
      PartsArePrefixed(parts);
      LengthIsFour(|parts|);
      LengthIsFour(4 + |Prefixed(parts)|);
  }

  /** What `encode_command` writes: the name in capitals without white space around it, every
      argument behind byte 32, byte 10, and the data behind its length; the parts of a list
      are behind their number, each behind its own length. */
  lemma CommandLayout(c: Command) returns (data: bytes)
    requires EncodeCommand(c).Some?
    ensures IsDataOf(data, c.data)
    ensures EncodeCommand(c).value == Strip(Upper(c.name)) + Spaced(c.args) + [10] + data
  {
    data := EncodeData(c.data).value;
    DataBytes(c.data);
    if c.args != [] { JoinIsSpaced(c.args); }
  }

  /** A command that is its name alone, as NOP and CLS are: the name and byte 10. */
  lemma BareCommand(name: bytes)
    requires forall i :: 0 <= i < |name| ==> 65 <= name[i] <= 90
    ensures EncodeCommand(Command(name, [], NoData)) == Some(name + [10])
  {
    PlainName(name);
    var data := CommandLayout(Command(name, [], NoData));
    assert Spaced([]) == [] && name + [] + [10] + [] == name + [10];
  }

  /** A name in capitals stays as it is. */
  lemma PlainName(name: bytes)
    requires forall i :: 0 <= i < |name| ==> 65 <= name[i] <= 90
    ensures Strip(Upper(name)) == name
  {
    UpperBytes(name);
    assert Upper(name) == name;
  }
}
