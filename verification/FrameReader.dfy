/** The incremental frame parser of asyncnsq/tcp/protocol.py: a growing buffer, a read
    offset, a cached header and lazy compaction. */
module FrameReader {
  import opened Prelude
  import opened BigEndian
  import opened Frames

  const MAX_CHUNK_SIZE := 65536

  /** The stream `fed` is the bytes `taken`, exactly the frames `fs`, and then the unread
      bytes `view`. */
  ghost predicate Accounts(fed: bytes, taken: bytes, fs: seq<Frame>, view: bytes)
  {
    fed == taken + view && Parse(taken) == Parsed(fs, [], None)
  }

  lemma AccountsTake(fed: bytes, taken: bytes, fs: seq<Frame>, view: bytes) returns (piece: bytes)
    requires Accounts(fed, taken, fs, view) && Next(view).Got?
    ensures Accounts(fed, taken + piece, fs + [Next(view).frame], Next(view).rest)
  {
    piece := NextPiece(view);
    assert fed == (taken + piece) + Next(view).rest;
    ParseAfter(taken, fs, piece);
    assert Parse(piece) == Parsed([Next(view).frame], [], None);
  }

  /** The law of the whole stream: the frames returned so far, followed by the parse of the
      unread bytes, are the parse of every byte ever fed. */
  lemma AccountsRefineParse(fed: bytes, taken: bytes, fs: seq<Frame>, view: bytes)
    requires Accounts(fed, taken, fs, view)
    ensures Parse(fed) == Prepend(fs, Parse(view))
  {
    ParseAfter(taken, fs, view);
  }

  lemma SliceOfSlice(b: bytes, start: nat, end: nat, i: nat, j: nat)
    requires start <= end <= |b| && i <= j <= end - start
    ensures b[start..end][i..j] == b[start + i..start + j]
  {
    var s, t := b[start..end][i..j], b[start + i..start + j];
    assert |s| == |t|;
    assert forall k :: 0 <= k < |s| ==> s[k] == b[start..end][i + k] == b[start + i + k] == t[k];
  }

  lemma SliceOfTail(b: bytes, start: nat, i: nat, j: nat)
    requires i <= j && start + j <= |b|
    ensures b[start..][i..j] == b[start + i..start + j]
  {
    assert b[start..] == b[start..|b|];
    SliceOfSlice(b, start, |b|, i, j);
  }

  class Reader {
    var buffer: bytes
    var offset: nat
    var payloadSize: Option<int>
    var isHeader: bool
    var frameType: Option<int>

    /** Every byte ever fed, those of them already read, and every frame ever returned. */
    ghost var fed: bytes
    ghost var taken: bytes
    ghost var returned: seq<Frame>

    ghost predicate Valid()
      reads this
    {
      Cached() && Accounts(fed, taken, returned, View())
    }

    /** A cached header is the one that the unread bytes start with. */
    ghost predicate Cached()
      reads this
    {
      && Placed()
      && isHeader == payloadSize.Some?
      && (isHeader ==> |View()| >= DATA_SIZE && payloadSize == Some(Int32(View()[..4])))
    }

    /** The residency bound on consumed bytes that are still in the buffer. */
    ghost predicate Placed()
      reads this
    {
      offset <= MAX_CHUNK_SIZE && (offset == 0 || offset < |buffer|)
    }

    /** The unread bytes: the `buffer` property. */
    function View(): bytes
      requires Placed()
      reads this
    {
      buffer[offset..]
    }

    constructor (initial: bytes)
      ensures Valid() && View() == initial && fed == initial && returned == []
    {
      buffer, offset := [], 0;
      payloadSize, isHeader, frameType := None, false, None;
      fed, taken, returned := [], [], [];
      new;
      Feed(initial);
    }

    method Feed(chunk: bytes)
      requires Valid()
      modifies this
      ensures Valid()
      ensures View() == old(View()) + chunk && fed == old(fed) + chunk && returned == old(returned)
    {
      ghost var view := View();
      if chunk == [] {
        assert fed + chunk == fed && view + chunk == view;
        return;
      }
      buffer := buffer + chunk;
      fed := fed + chunk;
      assert View() == view + chunk;
      assert isHeader ==> View()[..4] == view[..4];
    }

    /** The next frame, if the unread bytes hold one. The answer, and what stays unread,
        are those of the reference parser; a raised error leaves every byte in place. */
    method Gets() returns (r: Reply)
      requires Valid()
      modifies this
      ensures Valid() && fed == old(fed)
      ensures r == ReplyOf(Next(old(View()))) && View() == After(old(View()))
      ensures returned == old(returned) + (if r.Returned? then [r.frame] else [])
    {
      var bufferSize := |buffer| - offset;
      if !isHeader && bufferSize >= DATA_SIZE {
        SliceOfTail(buffer, offset, 0, DATA_SIZE);
        payloadSize := Some(Int32(buffer[offset..offset + DATA_SIZE]));
        isHeader := true;
      }
      if isHeader && bufferSize >= DATA_SIZE + payloadSize.value {
        ghost var view := View();
        r := TakeFrame();
        if r.Returned? {
          ghost var piece := AccountsTake(fed, taken, returned, view);
          taken, returned := taken + piece, returned + [r.frame];
        }
      } else {
        r := Nothing;
      }
    }

    /** The part of `gets` that runs once a whole frame has arrived. */
    method TakeFrame() returns (r: Reply)
      requires Cached() && isHeader && |View()| >= DATA_SIZE + payloadSize.value
      modifies this`buffer, this`offset, this`isHeader, this`payloadSize, this`frameType
      ensures Cached()
      ensures r == ReplyOf(Next(old(View()))) && View() == After(old(View()))
    {
      if payloadSize.value < FRAME_SIZE {
        return Raised(InvalidFrameSize);
      }
      ReadFrameType();
      if frameType.value !in {FRAME_TYPE_RESPONSE, FRAME_TYPE_ERROR, FRAME_TYPE_MESSAGE} {
        return Raised(InvalidFrameType(frameType.value));
      }
      var payload := ParsePayload();
      if payload.None? {
        return Raised(InvalidMessageSize);
      }
      Reset();
      return Returned(payload.value);
    }

    method ReadFrameType()
      requires Placed() && |View()| >= DATA_SIZE + FRAME_SIZE
      modifies this`frameType
      ensures frameType == Some(Int32(View()[4..8]))
    {
      var start := offset + DATA_SIZE;
      SliceOfTail(buffer, offset, DATA_SIZE, DATA_SIZE + FRAME_SIZE);
      frameType := Some(Int32(buffer[start..start + FRAME_SIZE]));
    }

    /** A complete frame is cached: `ParsePayload` reads it, `Reset` drops it. */
    ghost predicate HasFrame()
      reads this
    {
      && Placed() && payloadSize.Some? && FRAME_SIZE <= payloadSize.value
      && DATA_SIZE + payloadSize.value <= |View()|
    }

    /** The bytes after the type of the cached frame. */
    ghost function PayloadView(): bytes
      requires HasFrame()
      reads this
    {
      View()[DATA_SIZE + FRAME_SIZE..DATA_SIZE + payloadSize.value]
    }

    method ParsePayload() returns (r: Option<Frame>)
      requires HasFrame() && frameType.Some?
      requires frameType.value in {FRAME_TYPE_RESPONSE, FRAME_TYPE_ERROR, FRAME_TYPE_MESSAGE}
      ensures r == Payload(frameType.value, PayloadView())
    {
      if frameType.value == FRAME_TYPE_RESPONSE {
        var body := UnpackResponse();
        return Some(body);
      } else if frameType.value == FRAME_TYPE_ERROR {
        var error := UnpackError();
        return Some(error);
      } else {
        r := UnpackMessage();
      }
    }

    method UnpackError() returns (f: Frame)
      requires HasFrame()
      ensures f == ErrorFrame(PayloadView())
    {
      var start := offset + DATA_SIZE + FRAME_SIZE;
      var end := offset + DATA_SIZE + payloadSize.value;
      SliceOfTail(buffer, offset, 8, DATA_SIZE + payloadSize.value);
      var error := buffer[start..end];
      assert error == PayloadView();
      return ErrorFrame(error);
    }

    method UnpackResponse() returns (f: Frame)
      requires HasFrame()
      ensures f == Response(PayloadView())
    {
      var start := offset + DATA_SIZE + FRAME_SIZE;
      var end := offset + DATA_SIZE + payloadSize.value;
      SliceOfTail(buffer, offset, 8, DATA_SIZE + payloadSize.value);
      return Response(buffer[start..end]);
    }

    method UnpackMessage() returns (r: Option<Frame>)
      requires HasFrame()
      ensures r == Payload(FRAME_TYPE_MESSAGE, PayloadView())
    {
      var start := offset + DATA_SIZE + FRAME_SIZE;
      var end := offset + DATA_SIZE + payloadSize.value;
      SliceOfTail(buffer, offset, 8, DATA_SIZE + payloadSize.value);
      if end - start < MSG_HEADER {
        return None;
      }
      SliceOfSlice(buffer, start, end, 0, 8);
      SliceOfSlice(buffer, start, end, 8, 10);
      SliceOfSlice(buffer, start, end, 10, 26);
      SliceOfSlice(buffer, start, end, 26, end - start);
      return Some(Message(UnpackSigned(buffer[start..start + 8]), Unpack(buffer[start + 8..start + 10]),
                          buffer[start + 10..start + 26], buffer[start + MSG_HEADER..end]));
    }

    method Reset()
      requires HasFrame()
      modifies this`buffer, this`offset, this`isHeader, this`payloadSize, this`frameType
      ensures Placed() && !isHeader && payloadSize.None? && frameType.None?
      ensures View() == old(View()[DATA_SIZE + payloadSize.value..])
    {
      offset := offset + DATA_SIZE + payloadSize.value;
      if offset == |buffer| {
        buffer := [];
        offset := 0;
      } else if offset > MAX_CHUNK_SIZE {
        buffer := buffer[offset..];
        offset := 0;
      }
      isHeader, payloadSize, frameType := false, None, None;
    }
  }
}
