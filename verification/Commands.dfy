/** Commands to nsqd: the encoder of asyncnsq/tcp/protocol.py, and a reference decoder that
    shows the stream of commands to be self-delimiting. */
module Commands {
  import opened Prelude
  import opened BigEndian

  /** The `data` argument of `encode_command`: absent, a scalar, or a list. */
  datatype Data = NoData | Single(body: bytes) | Many(parts: seq<bytes>)

  datatype Command = Command(name: bytes, args: seq<bytes>, data: Data)

  // The names of nsqd's commands, as bytes.
  const PUB: bytes := [0x50, 0x55, 0x42]
  const DPUB: bytes := [0x44, 0x50, 0x55, 0x42]
  const MPUB: bytes := [0x4D, 0x50, 0x55, 0x42]
  const IDENTIFY: bytes := [0x49, 0x44, 0x45, 0x4E, 0x54, 0x49, 0x46, 0x59]
  const AUTH: bytes := [0x41, 0x55, 0x54, 0x48]

  // ---------- The encoder ----------

  function Upper(b: bytes): (u: bytes)
    ensures |u| == |b|
  {
    if b == [] then []
    else [if 0x61 <= b[0] <= 0x7A then b[0] - 0x20 else b[0]] + Upper(b[1..])
  }

  predicate IsWhite(c: byte)
  {
    c == SPACE || 0x09 <= c <= 0x0D
  }

  function Strip(b: bytes): bytes
    decreases |b|
  {
    if b == [] then []
    else if IsWhite(b[0]) then Strip(b[1..])
    else if IsWhite(b[|b| - 1]) then Strip(b[..|b| - 1])
    else b
  }

  /** `cmd.upper().strip()`. */
  function Canonical(c: Command): Command
  {
    c.(name := Strip(Upper(c.name)))
  }

  function Join(parts: seq<bytes>, sep: byte): bytes
  {
    if parts == [] then []
    else if |parts| == 1 then parts[0]
    else parts[0] + [sep] + Join(parts[1..], sep)
  }

  /** `_encode_body`. `struct.pack` refuses a length that does not fit in a signed 32-bit
      integer; `None` stands for the `struct.error` it raises. */
  function EncodeBody(data: bytes): Option<bytes>
  {
    if IsLength(|data|) then Some(PackLength(|data|) + data) else None
  }

  function EncodeParts(parts: seq<bytes>): Option<bytes>
  {
    if parts == [] then Some([])
    else
      match (EncodeBody(parts[0]), EncodeParts(parts[1..]))
      case (Some(first), Some(others)) => Some(first + others)
      case _ => None
  }

  function EncodeData(data: Data): Option<bytes>
  {
    match data
    case NoData => Some([])
    case Single(body) => EncodeBody(body)
    case Many(parts) =>
      var encoded := EncodeParts(parts);
      if encoded.Some? && IsLength(|parts|) then EncodeBody(PackLength(|parts|) + encoded.value) else None
  }

  function EncodeCommand(c: Command): Option<bytes>
  {
    var params := if c.args == [] then [] else [SPACE] + Join(c.args, SPACE);
    match EncodeData(c.data)
    case None => None
    case Some(body) => Some(Canonical(c).name + params + [NL] + body)
  }

  function EncodePub(topic: bytes, data: bytes): Option<bytes>
  {
    match EncodeBody(data)
    case None => None
    case Some(body) => Some(PUB + [SPACE] + topic + [NL] + body)
  }

  function EncodeAll(cs: seq<Command>): Option<bytes>
  {
    if cs == [] then Some([])
    else
      match (EncodeCommand(cs[0]), EncodeAll(cs[1..]))
      case (Some(first), Some(others)) => Some(first + others)
      case _ => None
  }

  // ---------- When the encoder raises ----------

  function PartsSize(parts: seq<bytes>): nat
  {
    if parts == [] then 0 else 4 + |parts[0]| + PartsSize(parts[1..])
  }

  lemma {:induction false} EncodePartsSize(parts: seq<bytes>)
    ensures EncodeParts(parts).Some? <==> forall p :: p in parts ==> IsLength(|p|)
    ensures EncodeParts(parts).Some? ==> |EncodeParts(parts).value| == PartsSize(parts)
  {
    if parts != [] {
      EncodePartsSize(parts[1..]);
      assert parts == [parts[0]] + parts[1..];
    }
  }

  /** A command can be encoded if and only if every length in it fits in 31 bits. */
  lemma EncodableIff(c: Command)
    ensures EncodeCommand(c).Some? <==>
            match c.data
            case NoData => true
            case Single(body) => IsLength(|body|)
            case Many(parts) => IsLength(|parts|) && IsLength(4 + PartsSize(parts))
  {
    if c.data.Many? {
      EncodePartsSize(c.data.parts);
      PartFits(c.data.parts);
    }
  }

  lemma {:induction false} PartFits(parts: seq<bytes>)
    ensures forall p :: p in parts ==> |p| <= PartsSize(parts)
  {
    if parts != [] {
      PartFits(parts[1..]);
      assert parts == [parts[0]] + parts[1..];
    }
  }

  // ---------- The reference decoder ----------

  /** What follows the line of a command, by the protocol's definition of that command. */
  datatype Shape = LineOnly | OneBody | Bodies

  function ShapeOf(name: bytes): Shape
  {
    if name in {PUB, DPUB, IDENTIFY, AUTH} then OneBody
    else if name == MPUB then Bodies
    else LineOnly
  }

  /** The text before the first `sep`, and the text after it. */
  function Cut(s: bytes, sep: byte): (r: Option<(bytes, bytes)>)
    ensures r.Some? ==> |r.value.0| + 1 + |r.value.1| == |s|
  {
    if s == [] then None
    else if s[0] == sep then Some(([], s[1..]))
    else
      match Cut(s[1..], sep)
      case None => None
      case Some((front, back)) => Some(([s[0]] + front, back))
  }

  /** `s.split(sep)`. */
  function Split(s: bytes, sep: byte): (r: seq<bytes>)
    ensures |r| >= 1
  {
    if s == [] then [[]]
    else
      var r := Split(s[1..], sep);
      if s[0] == sep then [[]] + r else [[s[0]] + r[0]] + r[1..]
  }

  function DecodeBody(s: bytes): (r: Option<(bytes, bytes)>)
    ensures r.Some? ==> |r.value.1| < |s|
  {
    if |s| < 4 || !(0 <= Int32(s[..4]) <= |s| - 4) then None
    else
      var n := Int32(s[..4]);
      Some((s[4..4 + n], s[4 + n..]))
  }

  function DecodeParts(count: nat, s: bytes): Option<seq<bytes>>
    decreases count
  {
    if count == 0 then (if s == [] then Some([]) else None)
    else
      match DecodeBody(s)
      case None => None
      case Some((part, rest)) =>
        match DecodeParts(count - 1, rest)
        case None => None
        case Some(parts) => Some([part] + parts)
  }

  function DecodeData(shape: Shape, s: bytes): (r: Option<(Data, bytes)>)
    ensures r.Some? ==> |r.value.1| <= |s|
  {
    if shape == LineOnly then Some((NoData, s))
    else
      match DecodeBody(s)
      case None => None
      case Some((body, rest)) =>
        if shape == OneBody then Some((Single(body), rest))
        else if |body| < 4 || Int32(body[..4]) < 0 then None
        else
          match DecodeParts(Int32(body[..4]), body[4..])
          case None => None
          case Some(parts) => Some((Many(parts), rest))
  }

  function DecodeCommand(s: bytes): (r: Option<(Command, bytes)>)
    ensures r.Some? ==> |r.value.1| < |s|
  {
    match Cut(s, NL)
    case None => None
    case Some((line, after)) =>
      var fields := Split(line, SPACE);
      match DecodeData(ShapeOf(fields[0]), after)
      case None => None
      case Some((data, rest)) => Some((Command(fields[0], fields[1..], data), rest))
  }

  function DecodeAll(s: bytes): Option<seq<Command>>
    decreases |s|
  {
    if s == [] then Some([])
    else
      match DecodeCommand(s)
      case None => None
      case Some((c, rest)) =>
        match DecodeAll(rest)
        case None => None
        case Some(cs) => Some([c] + cs)
  }

  // ---------- Round trip ----------

  predicate Clean(word: bytes)
  {
    SPACE !in word && NL !in word
  }

  predicate HasShape(data: Data, shape: Shape)
  {
    match data
    case NoData => shape == LineOnly
    case Single(_) => shape == OneBody
    case Many(_) => shape == Bodies
  }

  /** No separator inside a word, and the body that the command calls for. */
  predicate WellFormed(c: Command)
  {
    var name := Canonical(c).name;
    Clean(name) && (forall a :: a in c.args ==> Clean(a)) && HasShape(c.data, ShapeOf(name))
  }

  function CanonicalAll(cs: seq<Command>): seq<Command>
  {
    if cs == [] then [] else [Canonical(cs[0])] + CanonicalAll(cs[1..])
  }

  lemma {:induction false} CutClean(front: bytes, sep: byte, back: bytes)
    requires sep !in front
    ensures Cut(front + [sep] + back, sep) == Some((front, back))
  {
    var s := front + [sep] + back;
    if front == [] {
      assert s[1..] == back;
    } else {
      assert s[1..] == front[1..] + [sep] + back;
      CutClean(front[1..], sep, back);
      assert [front[0]] + front[1..] == front;
    }
  }

  lemma {:induction false} SplitClean(word: bytes, sep: byte, back: bytes)
    requires sep !in word
    ensures Split(word, sep) == [word]
    ensures Split(word + [sep] + back, sep) == [word] + Split(back, sep)
  {
    var s := word + [sep] + back;
    if word == [] {
      assert s[1..] == back;
    } else {
      assert s[1..] == word[1..] + [sep] + back;
      SplitClean(word[1..], sep, back);
      assert [word[0]] + word[1..] == word;
    }
  }

  lemma {:induction false} SplitJoin(words: seq<bytes>, sep: byte)
    requires words != [] && forall w :: w in words ==> sep !in w
    ensures Split(Join(words, sep), sep) == words
  {
    if |words| == 1 {
      SplitClean(words[0], sep, []);
    } else {
      assert Join(words, sep) == words[0] + [sep] + Join(words[1..], sep);
      SplitClean(words[0], sep, Join(words[1..], sep));
      SplitJoin(words[1..], sep);
      assert [words[0]] + words[1..] == words;
    }
  }

  lemma {:induction false} JoinClean(words: seq<bytes>, sep: byte, other: byte)
    requires sep != other && forall w :: w in words ==> other !in w
    ensures other !in Join(words, sep)
  {
    if |words| > 1 {
      JoinClean(words[1..], sep, other);
    }
  }

  lemma DecodeEncodeBody(body: bytes, tail: bytes)
    requires IsLength(|body|)
    ensures DecodeBody(PackLength(|body|) + body + tail) == Some((body, tail))
  {
    var s := PackLength(|body|) + body + tail;
    assert s[..4] == PackLength(|body|);
    Int32PackLength(|body|);
    assert s[4..4 + |body|] == body;
    assert s[4 + |body|..] == tail;
  }

  lemma {:induction false} DecodeEncodeParts(parts: seq<bytes>)
    requires EncodeParts(parts).Some?
    ensures DecodeParts(|parts|, EncodeParts(parts).value) == Some(parts)
    decreases |parts|
  {
    if parts != [] {
      var others := EncodeParts(parts[1..]).value;
      DecodeEncodeBody(parts[0], others);
      DecodeEncodeParts(parts[1..]);
      assert [parts[0]] + parts[1..] == parts;
    }
  }

  lemma DecodeEncodeData(data: Data, shape: Shape, tail: bytes)
    requires HasShape(data, shape) && EncodeData(data).Some?
    ensures DecodeData(shape, EncodeData(data).value + tail) == Some((data, tail))
  {
    match data
    case NoData => assert [] + tail == tail;
    case Single(body) => DecodeEncodeBody(body, tail);
    case Many(parts) =>
      var count := PackLength(|parts|);
      var payload := count + EncodeParts(parts).value;
      DecodeEncodeBody(payload, tail);
      assert payload[..4] == count && payload[4..] == EncodeParts(parts).value;
      Int32PackLength(|parts|);
      DecodeEncodeParts(parts);
  }

  /** The line of a command is its fields, joined by spaces. */
  lemma LineOf(c: Command)
    requires EncodeCommand(c).Some?
    ensures EncodeCommand(c).value ==
            Join([Canonical(c).name] + c.args, SPACE) + [NL] + EncodeData(c.data).value
  {
    var words := [Canonical(c).name] + c.args;
    assert words[1..] == c.args;
    if c.args != [] {
      assert words[0] + [SPACE] + Join(c.args, SPACE) == words[0] + ([SPACE] + Join(c.args, SPACE));
    }
  }

  /** An encoded command says by itself where it ends: it decodes whatever follows it. */
  lemma DecodeEncodeCommand(c: Command, tail: bytes)
    requires WellFormed(c) && EncodeCommand(c).Some?
    ensures DecodeCommand(EncodeCommand(c).value + tail) == Some((Canonical(c), tail))
  {
    var words := [Canonical(c).name] + c.args;
    var line := Join(words, SPACE);
    var body := EncodeData(c.data).value;
    LineOf(c);
    assert EncodeCommand(c).value + tail == line + [NL] + (body + tail);
    JoinClean(words, SPACE, NL);
    CutClean(line, NL, body + tail);
    SplitJoin(words, SPACE);
    assert words[1..] == c.args;
    DecodeEncodeData(c.data, ShapeOf(words[0]), tail);
  }

  /** Decoding the concatenation of any list of encoded commands gives the list back. */
  lemma {:induction false} CommandsRoundTrip(cs: seq<Command>)
    requires EncodeAll(cs).Some? && forall c :: c in cs ==> WellFormed(c)
    ensures DecodeAll(EncodeAll(cs).value) == Some(CanonicalAll(cs))
  {
    if cs != [] {
      DecodeEncodeCommand(cs[0], EncodeAll(cs[1..]).value);
      CommandsRoundTrip(cs[1..]);
    }
  }

  /** Two lists of commands with the same bytes are the same commands. */
  lemma EncodingIsInjective(cs: seq<Command>, ds: seq<Command>)
    requires EncodeAll(cs).Some? && forall c :: c in cs ==> WellFormed(c)
    requires EncodeAll(ds).Some? && forall d :: d in ds ==> WellFormed(d)
    requires EncodeAll(cs) == EncodeAll(ds)
    ensures CanonicalAll(cs) == CanonicalAll(ds)
  {
    CommandsRoundTrip(cs);
    CommandsRoundTrip(ds);
  }

  /** The fast path for a scalar PUB writes the bytes of the general encoder. */
  lemma EncodePubAgrees(topic: bytes, data: bytes)
    ensures EncodePub(topic, data) == EncodeCommand(Command(PUB, [topic], Single(data)))
  {
    assert Upper(PUB[2..]) == PUB[2..];
    assert Upper(PUB[1..]) == PUB[1..];
    assert Canonical(Command(PUB, [topic], Single(data))).name == PUB;
    assert [SPACE] + Join([topic], SPACE) == [SPACE] + topic;
    assert PUB + ([SPACE] + topic) == PUB + [SPACE] + topic;
  }
}
