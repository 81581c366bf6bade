/** What a byte stream from nsqd means: the reference parser of the "Data Format"
    section of the NSQ TCP Protocol Spec, and an encoder to compare it with. */
module Frames {
  import opened Prelude
  import opened BigEndian

  const DATA_SIZE := 4
  const FRAME_SIZE := 4
  const MSG_HEADER := 26
  const FRAME_TYPE_RESPONSE := 0
  const FRAME_TYPE_ERROR := 1
  const FRAME_TYPE_MESSAGE := 2

  datatype Frame =
    | Response(body: bytes)
    | Error(code: bytes, msg: bytes)
    | Message(timestamp: int, attempts: nat, id: bytes, content: bytes)

  datatype ProtocolError = InvalidFrameSize | InvalidFrameType(frameType: int) | InvalidMessageSize

  /** What the front of a stream holds. */
  datatype Outcome = More | Got(frame: Frame, rest: bytes) | Bad(error: ProtocolError)

  datatype Parsed = Parsed(frames: seq<Frame>, rest: bytes, error: Option<ProtocolError>)

  /** `error.partition(b' ')` without the separator: split at the first space only. */
  function Partition(e: bytes): (r: (bytes, bytes))
    ensures SPACE !in r.0
    ensures if SPACE in e then e == r.0 + [SPACE] + r.1 else r == (e, [])
  {
    if e == [] then ([], [])
    else if e[0] == SPACE then ([], e[1..])
    else
      var (code, msg) := Partition(e[1..]);
      assert e == [e[0]] + e[1..];
      ([e[0]] + code, msg)
  }

  function ErrorFrame(data: bytes): Frame
  {
    var (code, msg) := Partition(data);
    Error(code, msg)
  }

  /** The payload after the frame type. */
  function Payload(frameType: int, data: bytes): (o: Option<Frame>)
    requires frameType in {FRAME_TYPE_RESPONSE, FRAME_TYPE_ERROR, FRAME_TYPE_MESSAGE}
    ensures o.None? <==> frameType == FRAME_TYPE_MESSAGE && |data| < MSG_HEADER
  {
    if frameType == FRAME_TYPE_RESPONSE then Some(Response(data))
    else if frameType == FRAME_TYPE_ERROR then Some(ErrorFrame(data))
    else if |data| < MSG_HEADER then None
    else Some(Message(UnpackSigned(data[..8]), Unpack(data[8..10]), data[10..26], data[26..]))
  }

  /** The first frame of a stream. */
  function Next(v: bytes): (o: Outcome)
    ensures o.Got? ==> |o.rest| + DATA_SIZE + FRAME_SIZE <= |v|
  {
    if |v| < DATA_SIZE then More
    else
      var size := Int32(v[..4]);
      if |v| < DATA_SIZE + size then More
      else if size < FRAME_SIZE then Bad(InvalidFrameSize)
      else
        var frameType := Int32(v[4..8]);
        if frameType !in {FRAME_TYPE_RESPONSE, FRAME_TYPE_ERROR, FRAME_TYPE_MESSAGE} then
          Bad(InvalidFrameType(frameType))
        else
          match Payload(frameType, v[8..DATA_SIZE + size])
          case None => Bad(InvalidMessageSize)
          case Some(frame) => Got(frame, v[DATA_SIZE + size..])
  }

  /** Every frame of a stream, up to the first malformed one. */
  function Parse(v: bytes): Parsed
    decreases |v|
  {
    match Next(v)
    case More => Parsed([], v, None)
    case Bad(e) => Parsed([], v, Some(e))
    case Got(f, rest) => Prepend([f], Parse(rest))
  }

  function Prepend(fs: seq<Frame>, p: Parsed): Parsed
  {
    p.(frames := fs + p.frames)
  }

  lemma PrependPrepend(fs: seq<Frame>, gs: seq<Frame>, p: Parsed)
    ensures Prepend(fs, Prepend(gs, p)) == Prepend(fs + gs, p)
  {
    assert fs + (gs + p.frames) == (fs + gs) + p.frames;
  }

  // ---------- More bytes never change what has been decided ----------

  lemma NextAppend(v: bytes, x: bytes)
    ensures Next(v).Got? ==> Next(v + x) == Got(Next(v).frame, Next(v).rest + x)
    ensures Next(v).Bad? ==> Next(v + x) == Next(v)
  {
    if !Next(v).More? {
      var size := Int32(v[..4]);
      assert (v + x)[..4] == v[..4];
      if size >= FRAME_SIZE {
        assert (v + x)[4..8] == v[4..8];
        assert (v + x)[8..DATA_SIZE + size] == v[8..DATA_SIZE + size];
        assert (v + x)[DATA_SIZE + size..] == v[DATA_SIZE + size..] + x;
      }
    }
  }

  /** Parsing may stop anywhere and resume from what was left over. */
  lemma {:induction false} ParseAppend(v: bytes, x: bytes)
    ensures Parse(v).error.None? ==> Parse(v + x) == Prepend(Parse(v).frames, Parse(Parse(v).rest + x))
    ensures Parse(v).error.Some? ==> Parse(v + x) == Parse(v).(rest := Parse(v).rest + x)
    decreases |v|
  {
    NextAppend(v, x);
    match Next(v)
    case More => assert Prepend([], Parse(v + x)).frames == Parse(v + x).frames;
    case Bad(e) =>
    case Got(f, rest) =>
      ParseAppend(rest, x);
      if Parse(v).error.None? {
        PrependPrepend([f], Parse(rest).frames, Parse(Parse(rest).rest + x));
      }
  }

  /** What follows a stream that ends with a frame is parsed on its own. */
  lemma ParseAfter(v: bytes, fs: seq<Frame>, x: bytes)
    requires Parse(v) == Parsed(fs, [], None)
    ensures Parse(v + x) == Prepend(fs, Parse(x))
  {
    ParseAppend(v, x);
    assert [] + x == x;
  }

  // ---------- Any interleaving of feeding and reading ----------

  datatype Op = Feed(chunk: bytes) | Gets

  /** What one call of `gets` answers. */
  datatype Reply = Nothing | Returned(frame: Frame) | Raised(error: ProtocolError)

  function ReplyOf(o: Outcome): Reply
  {
    match o
    case More => Nothing
    case Got(f, _) => Returned(f)
    case Bad(e) => Raised(e)
  }

  function After(v: bytes): bytes
  {
    if Next(v).Got? then Next(v).rest else v
  }

  /** The unread bytes and the answers, after a sequence of calls. */
  function RunOps(v: bytes, ops: seq<Op>): (bytes, seq<Reply>)
    decreases |ops|
  {
    if ops == [] then (v, [])
    else match ops[0]
      case Feed(chunk) => RunOps(v + chunk, ops[1..])
      case Gets =>
        var (v', replies) := RunOps(After(v), ops[1..]);
        (v', [ReplyOf(Next(v))] + replies)
  }

  function Fed(ops: seq<Op>): bytes
  {
    if ops == [] then [] else (if ops[0].Feed? then ops[0].chunk else []) + Fed(ops[1..])
  }

  function Returns(replies: seq<Reply>): seq<Frame>
  {
    if replies == [] then []
    else (if replies[0].Returned? then [replies[0].frame] else []) + Returns(replies[1..])
  }

  /** The frames already returned, followed by the parse of the unread bytes, are the
      parse of every byte ever fed, however feeding and reading were interleaved. */
  lemma {:induction false} RunRefinesParse(v: bytes, ops: seq<Op>)
    ensures var (v', replies) := RunOps(v, ops);
            Parse(v + Fed(ops)) == Prepend(Returns(replies), Parse(v'))
    decreases |ops|
  {
    if ops == [] {
      assert v + [] == v;
      assert Prepend([], Parse(v)).frames == Parse(v).frames;
    } else {
      var rest := ops[1..];
      match ops[0]
      case Feed(chunk) =>
        RunRefinesParse(v + chunk, rest);
        assert v + (chunk + Fed(rest)) == (v + chunk) + Fed(rest);
      case Gets =>
        assert Fed(ops) == Fed(rest);
        var (v', replies) := RunOps(After(v), rest);
        var all := [ReplyOf(Next(v))] + replies;
        assert all[1..] == replies;
        RunRefinesParse(After(v), rest);
        if Next(v).Got? {
          NextAppend(v, Fed(rest));
          PrependPrepend([Next(v).frame], Returns(replies), Parse(v'));
        } else {
          assert Returns(all) == Returns(replies);
        }
    }
  }

  /** Once `gets` has raised, every later `gets` raises the same error, whatever is fed. */
  lemma {:induction false} ErrorsAreSticky(v: bytes, ops: seq<Op>)
    requires Next(v).Bad?
    ensures var (v', replies) := RunOps(v, ops);
            && Next(v') == Next(v)
            && forall i :: 0 <= i < |replies| ==> replies[i] == Raised(Next(v).error)
    decreases |ops|
  {
    if ops != [] {
      if ops[0].Feed? {
        NextAppend(v, ops[0].chunk);
        ErrorsAreSticky(v + ops[0].chunk, ops[1..]);
      } else {
        ErrorsAreSticky(v, ops[1..]);
      }
    }
  }

  /** A run of which one call raised has returned exactly the frames before the bad one. */
  lemma NothingLostBeforeAnError(ops: seq<Op>, k: nat)
    requires k < |RunOps([], ops).1| && RunOps([], ops).1[k].Raised?
    ensures var replies := RunOps([], ops).1;
            && Returns(replies) == Parse(Fed(ops)).frames
            && Parse(Fed(ops)).error == Some(replies[k].error)
            && (forall i :: k <= i < |replies| ==> replies[i] == replies[k])
  {
    RaisedLeavesBad([], ops, k);
    RunRefinesParse([], ops);
    assert [] + Fed(ops) == Fed(ops);
    var (v', replies) := RunOps([], ops);
    assert Returns(replies) + [] == Returns(replies);
  }

  lemma {:induction false} RaisedLeavesBad(v: bytes, ops: seq<Op>, k: nat)
    requires k < |RunOps(v, ops).1| && RunOps(v, ops).1[k].Raised?
    ensures var (v', replies) := RunOps(v, ops);
            && Next(v') == Bad(replies[k].error)
            && forall i :: k <= i < |replies| ==> replies[i] == replies[k]
    decreases |ops|
  {
    match ops[0]
    case Feed(chunk) => RaisedLeavesBad(v + chunk, ops[1..], k);
    case Gets =>
      if k == 0 {
        ErrorsAreSticky(v, ops);
      } else {
        RaisedLeavesBad(After(v), ops[1..], k - 1);
        var replies := RunOps(After(v), ops[1..]).1;
        assert forall i :: k <= i < |RunOps(v, ops).1| ==> RunOps(v, ops).1[i] == replies[i - 1];
      }
  }

  // ---------- Round trip ----------

  /** The frames nsqd can put on the wire. */
  predicate WellFormed(f: Frame)
  {
    match f
    case Response(body) => IsLength(4 + |body|)
    case Error(code, msg) => SPACE !in code && IsLength(5 + |code| + |msg|)
    case Message(timestamp, attempts, id, content) =>
      && Fits(timestamp, 8) && attempts < Pow256(2) && |id| == 16 && IsLength(30 + |content|)
  }

  function EncodePayload(f: Frame): (b: bytes)
    requires WellFormed(f)
    ensures IsLength(4 + |b|)
  {
    match f
    case Response(body) => body
    case Error(code, msg) => code + [SPACE] + msg
    case Message(timestamp, attempts, id, content) =>
      PackSigned(timestamp, 8) + Pack(attempts, 2) + id + content
  }

  function TypeOf(f: Frame): (t: nat)
    ensures t in {FRAME_TYPE_RESPONSE, FRAME_TYPE_ERROR, FRAME_TYPE_MESSAGE}
  {
    match f
    case Response(_) => FRAME_TYPE_RESPONSE
    case Error(_, _) => FRAME_TYPE_ERROR
    case Message(_, _, _, _) => FRAME_TYPE_MESSAGE
  }

  function Envelope(frameType: nat, payload: bytes): bytes
    requires IsLength(frameType) && IsLength(4 + |payload|)
  {
    PackLength(4 + |payload|) + PackLength(frameType) + payload
  }

  function EncodeFrame(f: Frame): bytes
    requires WellFormed(f)
  {
    Envelope(TypeOf(f), EncodePayload(f))
  }

  function EncodeFrames(fs: seq<Frame>): bytes
    requires forall f :: f in fs ==> WellFormed(f)
  {
    if fs == [] then [] else EncodeFrame(fs[0]) + EncodeFrames(fs[1..])
  }

  /** A payload is split where it was joined, and only there. */
  lemma {:induction false} PartitionJoin(code: bytes, msg: bytes)
    requires SPACE !in code
    ensures Partition(code + [SPACE] + msg) == (code, msg)
  {
    var e := code + [SPACE] + msg;
    if code == [] {
      assert e[1..] == msg;
    } else {
      assert e[1..] == code[1..] + [SPACE] + msg;
      PartitionJoin(code[1..], msg);
      assert [code[0]] + code[1..] == code;
    }
  }

  lemma PayloadEncode(f: Frame)
    requires WellFormed(f)
    ensures Payload(TypeOf(f), EncodePayload(f)) == Some(f)
  {
    match f
    case Response(_) =>
    case Error(code, msg) => PartitionJoin(code, msg);
    case Message(timestamp, attempts, id, content) =>
      var p := EncodePayload(f);
      assert p[..8] == PackSigned(timestamp, 8);
      assert p[8..10] == Pack(attempts, 2);
      assert p[10..26] == id;
      assert p[26..] == content;
      UnpackPackSigned(timestamp, 8);
      UnpackPack(attempts, 2);
  }

  lemma NextEnvelope(frameType: nat, payload: bytes, tail: bytes)
    requires IsLength(frameType) && IsLength(4 + |payload|)
    ensures var v := Envelope(frameType, payload) + tail;
            && |v| >= 8 + |payload|
            && Int32(v[..4]) == 4 + |payload| && Int32(v[4..8]) == frameType
            && v[8..8 + |payload|] == payload && v[8 + |payload|..] == tail
  {
    var v := Envelope(frameType, payload) + tail;
    assert v[..4] == PackLength(4 + |payload|);
    assert v[4..8] == PackLength(frameType);
    Int32PackLength(4 + |payload|);
    Int32PackLength(frameType);
  }

  lemma NextEncode(f: Frame, tail: bytes)
    requires WellFormed(f)
    ensures Next(EncodeFrame(f) + tail) == Got(f, tail)
  {
    NextEnvelope(TypeOf(f), EncodePayload(f), tail);
    PayloadEncode(f);
  }

  /** Encoding any list of frames and parsing the bytes gives the list back. */
  lemma {:induction false} FramesRoundTrip(fs: seq<Frame>, tail: bytes)
    requires forall f :: f in fs ==> WellFormed(f)
    ensures Parse(EncodeFrames(fs) + tail) == Prepend(fs, Parse(tail))
    decreases |fs|
  {
    if fs == [] {
      assert [] + tail == tail;
      assert Prepend([], Parse(tail)).frames == Parse(tail).frames;
    } else {
      assert EncodeFrames(fs) + tail == EncodeFrame(fs[0]) + (EncodeFrames(fs[1..]) + tail);
      NextEncode(fs[0], EncodeFrames(fs[1..]) + tail);
      FramesRoundTrip(fs[1..], tail);
      PrependPrepend([fs[0]], fs[1..], Parse(tail));
      assert [fs[0]] + fs[1..] == fs;
    }
  }

  lemma MessageIsCanonical(data: bytes)
    requires MSG_HEADER <= |data| && IsLength(4 + |data|)
    ensures var f := Message(UnpackSigned(data[..8]), Unpack(data[8..10]), data[10..26], data[26..]);
            WellFormed(f) && EncodePayload(f) == data
  {
    PackUnpackSigned(data[..8]);
    PackUnpack(data[8..10]);
    assert data == data[..8] + data[8..10] + data[10..26] + data[26..];
  }

  lemma PayloadIsCanonical(frameType: nat, data: bytes, f: Frame)
    requires frameType in {FRAME_TYPE_RESPONSE, FRAME_TYPE_ERROR, FRAME_TYPE_MESSAGE}
    requires IsLength(4 + |data|) && Payload(frameType, data) == Some(f)
    ensures TypeOf(f) == frameType
    ensures if f.Error? && SPACE !in data then f == Error(data, [])
            else WellFormed(f) && EncodePayload(f) == data
  {
    if f.Message? { MessageIsCanonical(data); }
  }

  lemma CutInFour(v: bytes, end: nat)
    requires 8 <= end <= |v|
    ensures v == v[..4] + v[4..8] + v[8..end] + v[end..]
  {
  }

  /** Four bytes that hold a length are its encoding. */
  lemma LengthBytes(b: bytes)
    requires |b| == 4 && Int32(b) >= 0
    ensures IsLength(Int32(b)) && PackLength(Int32(b)) == b
  {
    Pow256Values();
    PackUnpackSigned(b);
  }

  lemma NextHeader(v: bytes)
    requires Next(v).Got?
    ensures var size := Int32(v[..4]);
            FRAME_SIZE <= size <= |v| - DATA_SIZE && Int32(v[4..8]) >= 0 && Next(v).rest == v[DATA_SIZE + size..]
  {
  }

  lemma NextTookAnEnvelope(v: bytes)
    requires Next(v).Got?
    ensures var size := Int32(v[..4]);
            && FRAME_SIZE <= size <= |v| - DATA_SIZE && IsLength(size)
            && IsLength(Int32(v[4..8]))
            && v == Envelope(Int32(v[4..8]), v[8..4 + size]) + Next(v).rest
  {
    var size := Int32(v[..4]);
    NextHeader(v);
    LengthBytes(v[..4]);
    LengthBytes(v[4..8]);
    assert 4 + |v[8..4 + size]| == size;
    CutInFour(v, 4 + size);
  }

  /** The converse: a frame that was parsed is well formed, and the bytes it took are its
      encoding. The one exception is an error payload without a space, which reads the
      same as one that ends in its only space. */
  lemma NextIsCanonical(v: bytes)
    requires Next(v).Got?
    ensures var Got(f, rest) := Next(v);
            || (WellFormed(f) && v == EncodeFrame(f) + rest)
            || (f.Error? && f.msg == [] && SPACE !in f.code && IsLength(4 + |f.code|)
                && v == Envelope(FRAME_TYPE_ERROR, f.code) + rest)
  {
    NextTookAnEnvelope(v);
    PayloadIsCanonical(Int32(v[4..8]), v[8..4 + Int32(v[..4])], Next(v).frame);
  }

  /** The bytes of the first frame alone. */
  lemma NextPiece(view: bytes) returns (piece: bytes)
    requires Next(view).Got?
    ensures view == piece + Next(view).rest && Next(piece) == Got(Next(view).frame, [])
  {
    var size := Int32(view[..4]);
    piece := view[..DATA_SIZE + size];
    assert piece[..4] == view[..4];
    assert piece[4..8] == view[4..8];
    assert piece[8..DATA_SIZE + size] == view[8..DATA_SIZE + size];
    assert piece[DATA_SIZE + size..] == [];
    assert view == piece + view[DATA_SIZE + size..];
  }

  // ---------- What a drained buffer holds ----------

  /** Draining stops at bytes that are not decided yet, or at the malformed frame. */
  lemma {:induction false} ParseStops(v: bytes)
    ensures match Parse(v).error
            case None => Next(Parse(v).rest).More?
            case Some(e) => Next(Parse(v).rest) == Bad(e)
    decreases |v|
  {
    if Next(v).Got? { ParseStops(Next(v).rest); }
  }
}
