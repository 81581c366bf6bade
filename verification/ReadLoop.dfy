/** The reader task of a connection: it drains the parser after every chunk, whatever is done
    with a frame, and between two reads the event loop may run a close that a drain has
    scheduled (`_read_data` and `_read_buffer` of asyncnsq/tcp/connection.py). */
module ReadLoop {
  import opened Prelude
  import opened Frames
  import opened ConnectionState

  /** What is done with a frame: `Dispatch`, or more where a handler is called directly. */
  type FrameStep = (Conn, Frame) -> Conn

  function Fold(step: FrameStep, c: Conn, fs: seq<Frame>): Conn
    decreases |fs|
  {
    if fs == [] then c else Fold(step, step(c, fs[0]), fs[1..])
  }

  function AfterError(c: Conn, error: Option<ProtocolError>): Conn
  {
    match error
    case None => c
    case Some(e) => Closing(c, BadFrame(e))
  }

  /** `_read_buffer`: every complete frame is taken; a malformed one is fatal. */
  function Drained(step: FrameStep, c: Conn, view: bytes): Conn
  {
    AfterError(Fold(step, c, Parse(view).frames), Parse(view).error)
  }

  // ---------- Draining ----------

  lemma {:induction false} FoldAppend(step: FrameStep, c: Conn, fs: seq<Frame>, gs: seq<Frame>)
    ensures Fold(step, c, fs + gs) == Fold(step, Fold(step, c, fs), gs)
    decreases |fs|
  {
    if fs == [] {
      assert fs + gs == gs;
    } else {
      assert (fs + gs)[1..] == fs[1..] + gs;
      FoldAppend(step, step(c, fs[0]), fs[1..], gs);
    }
  }

  /** Draining may be interrupted anywhere. */
  lemma DrainedInTwo(step: FrameStep, c: Conn, v: bytes, x: bytes)
    ensures Drained(step, c, v + x) == Drained(step, Drained(step, c, v), Parse(v).rest + x)
    ensures Parse(v + x).rest == Parse(Parse(v).rest + x).rest
  {
    ParseAppend(v, x);
    match Parse(v).error
    case None => FoldAppend(step, c, Parse(v).frames, Parse(Parse(v).rest + x).frames);
    case Some(e) =>
      ParseStops(v);
      NextAppend(Parse(v).rest, x);
  }

  /** Nothing is left to do with the unread bytes. */
  predicate Rested(step: FrameStep, c: Conn, view: bytes)
  {
    Drained(step, c, view) == c && Parse(view).rest == view
  }

  lemma DrainedRests(step: FrameStep, c: Conn, v: bytes)
    ensures Rested(step, Drained(step, c, v), Parse(v).rest)
  {
    ParseStops(v);
  }

  /** `_parse_data` on what `gets` finds. */
  function Received(c: Conn, o: Outcome): Conn
  {
    match o
    case More => c
    case Got(f, _) => Dispatch(c, f)
    case Bad(e) => Closing(c, BadFrame(e))
  }

  /** Draining from either point ends in the same state. */
  ghost predicate SameDrain(c: Conn, v: bytes, d: Conn, w: bytes)
  {
    Drained(Dispatch, c, v) == Drained(Dispatch, d, w) && Parse(v).rest == Parse(w).rest
  }

  lemma DrainStep(c: Conn, v: bytes)
    ensures SameDrain(c, v, Received(c, Next(v)), After(v))
    ensures !Next(v).Got? ==> Rested(Dispatch, Received(c, Next(v)), After(v))
  {
    if Next(v).Got? {
      var Got(f, rest) := Next(v);
      assert ([f] + Parse(rest).frames)[1..] == Parse(rest).frames;
    }
  }

  // ---------- Reading ----------

  /** What one `read` brings, and whether the task waits before the next one. It does not
      while more bytes have arrived than one `read` takes. */
  datatype Arrival = Arrival(chunk: bytes, waits: bool)

  function Stream(arrivals: seq<Arrival>): bytes
  {
    if arrivals == [] then [] else arrivals[0].chunk + Stream(arrivals[1..])
  }

  /** A close has been scheduled, or has happened inside the drain. */
  predicate Due(c: Conn)
  {
    c.scheduled.Some? || c.closed
  }

  /** The event loop runs: a scheduled close happens. */
  function LoopRan(c: Conn): Conn
  {
    if c.scheduled.Some? then Closed(c, c.scheduled.value, false) else c
  }

  /** `_read_data` on the reads that are ready, up to where it waits for more: the connection
      and what stays unread. A close cancels the task where it waits. */
  function ReadAll(step: FrameStep, c: Conn, view: bytes, arrivals: seq<Arrival>): (Conn, bytes)
    decreases |arrivals|
  {
    if arrivals == [] then (LoopRan(c), view)
    else
      var (d, rest) := (Drained(step, c, view + arrivals[0].chunk), Parse(view + arrivals[0].chunk).rest);
      if arrivals[0].waits && Due(d) then (LoopRan(d), rest) else ReadAll(step, d, rest, arrivals[1..])
  }

  /** The bytes that the task takes of them. */
  function Taken(step: FrameStep, c: Conn, view: bytes, arrivals: seq<Arrival>): bytes
    decreases |arrivals|
  {
    if arrivals == [] then []
    else
      var (d, rest) := (Drained(step, c, view + arrivals[0].chunk), Parse(view + arrivals[0].chunk).rest);
      if arrivals[0].waits && Due(d) then arrivals[0].chunk else arrivals[0].chunk + Taken(step, d, rest, arrivals[1..])
  }

  /** However a stream is cut, and whatever is done with a frame: the connection ends as if the
      bytes that were taken had arrived at once and the close, if one is due, had followed. */
  lemma {:induction false} ReadingIsOneDrain(step: FrameStep, c: Conn, view: bytes, arrivals: seq<Arrival>)
    requires Rested(step, c, view)
    ensures var v := view + Taken(step, c, view, arrivals);
            ReadAll(step, c, view, arrivals) == (LoopRan(Drained(step, c, v)), Parse(v).rest)
    decreases |arrivals|
  {
    if arrivals == [] {
      assert view + [] == view;
    } else {
      var v := view + arrivals[0].chunk;
      var (d, rest) := (Drained(step, c, v), Parse(v).rest);
      if !(arrivals[0].waits && Due(d)) {
        var more := Taken(step, d, rest, arrivals[1..]);
        DrainedRests(step, c, v);
        ReadingIsOneDrain(step, d, rest, arrivals[1..]);
        DrainedInTwo(step, c, v, more);
        AppendAssociates(view, arrivals[0].chunk, more);
      }
    }
  }

  /** The task takes the whole stream, or stops where it waits with a close that is due. */
  lemma {:induction false} TakenIsAPrefix(step: FrameStep, c: Conn, view: bytes, arrivals: seq<Arrival>)
    returns (x: bytes)
    requires Rested(step, c, view)
    ensures Stream(arrivals) == Taken(step, c, view, arrivals) + x
    ensures x == [] || Due(Drained(step, c, view + Taken(step, c, view, arrivals)))
    decreases |arrivals|
  {
    if arrivals == [] {
      x := [];
    } else {
      var v := view + arrivals[0].chunk;
      var (d, rest) := (Drained(step, c, v), Parse(v).rest);
      if arrivals[0].waits && Due(d) {
        x := Stream(arrivals[1..]);
      } else {
        var more := Taken(step, d, rest, arrivals[1..]);
        DrainedRests(step, c, v);
        x := TakenIsAPrefix(step, d, rest, arrivals[1..]);
        DrainedInTwo(step, c, v, more);
        AppendAssociates(view, arrivals[0].chunk, more);
        AppendAssociates(arrivals[0].chunk, more, x);
      }
    }
  }

  /** After these reads the task waits, and a close is due. */
  predicate StopsAfter(step: FrameStep, c: Conn, view: bytes, arrivals: seq<Arrival>)
  {
    arrivals != [] && arrivals[|arrivals| - 1].waits && Due(Drained(step, c, view + Stream(arrivals)))
  }

  /** The task takes the reads up to the first at which it waits with a close due, and all of
      them if there is none. */
  lemma {:induction false} TakenUpToTheFirstStop(step: FrameStep, c: Conn, view: bytes, arrivals: seq<Arrival>)
    returns (i: nat)
    requires Rested(step, c, view)
    ensures i <= |arrivals| && Taken(step, c, view, arrivals) == Stream(arrivals[..i])
    ensures i < |arrivals| ==> StopsAfter(step, c, view, arrivals[..i])
    ensures forall j :: 0 <= j < i ==> !StopsAfter(step, c, view, arrivals[..j])
    decreases |arrivals|
  {
    if arrivals == [] {
      i := 0;
    } else {
      var (v, rest) := (view + arrivals[0].chunk, arrivals[1..]);
      var (d, left) := (Drained(step, c, v), Parse(v).rest);
      OneArrival(arrivals);
      if arrivals[0].waits && Due(d) {
        i := 1;
      } else {
        DrainedRests(step, c, v);
        i := TakenUpToTheFirstStop(step, d, left, rest);
        StopsLater(step, c, view, arrivals, i);
        StreamHead(arrivals, i);
        forall j | 0 <= j < i + 1
          ensures !StopsAfter(step, c, view, arrivals[..j])
        {
          if j > 0 { StopsLater(step, c, view, arrivals, j - 1); }
        }
        i := i + 1;
      }
    }
  }

  lemma OneArrival(arrivals: seq<Arrival>)
    requires arrivals != []
    ensures Stream(arrivals[..1]) == arrivals[0].chunk && arrivals[..1] == [arrivals[0]]
  {
    assert arrivals[..1][1..] == [];
  }

  lemma StopsLater(step: FrameStep, c: Conn, view: bytes, arrivals: seq<Arrival>, j: nat)
    requires arrivals != [] && j <= |arrivals[1..]|
    ensures var v := view + arrivals[0].chunk;
            StopsAfter(step, c, view, arrivals[..j + 1]) <==>
            (if j == 0 then arrivals[0].waits && Due(Drained(step, c, v))
             else StopsAfter(step, Drained(step, c, v), Parse(v).rest, arrivals[1..][..j]))
  {
    var (first, later) := (arrivals[..j + 1], arrivals[1..][..j]);
    StreamHead(arrivals, j);
    AppendAssociates(view, arrivals[0].chunk, Stream(later));
    DrainedInTwo(step, c, view + arrivals[0].chunk, Stream(later));
    if j == 0 {
      OneArrival(arrivals);
    } else {
      assert first[|first| - 1] == later[|later| - 1];
    }
  }

  lemma StreamHead(arrivals: seq<Arrival>, j: nat)
    requires arrivals != [] && j <= |arrivals[1..]|
    ensures Stream(arrivals[..j + 1]) == arrivals[0].chunk + Stream(arrivals[1..][..j])
  {
    assert arrivals[..j + 1][1..] == arrivals[1..][..j];
  }

  /** The frames that the reads hand over, chunk after chunk. */
  function FramesTaken(step: FrameStep, c: Conn, view: bytes, arrivals: seq<Arrival>): seq<Frame>
    decreases |arrivals|
  {
    if arrivals == [] then []
    else
      var v := view + arrivals[0].chunk;
      var (d, rest) := (Drained(step, c, v), Parse(v).rest);
      Parse(v).frames + (if arrivals[0].waits && Due(d) then [] else FramesTaken(step, d, rest, arrivals[1..]))
  }

  /** Chunk after chunk, exactly the frames of the bytes that were taken are handed over, in
      order, with all that they hold. */
  lemma {:induction false} FramesOfOneDrain(step: FrameStep, c: Conn, view: bytes, arrivals: seq<Arrival>)
    requires Rested(step, c, view) && Parse(view).frames == []
    ensures FramesTaken(step, c, view, arrivals) == Parse(view + Taken(step, c, view, arrivals)).frames
    decreases |arrivals|
  {
    if arrivals == [] {
      assert view + [] == view;
    } else {
      var v := view + arrivals[0].chunk;
      var (d, rest) := (Drained(step, c, v), Parse(v).rest);
      var more := Taken(step, d, rest, arrivals[1..]);
      if !(arrivals[0].waits && Due(d)) {
        DrainedRests(step, c, v);
        ParseStops(v);
        FramesOfOneDrain(step, d, rest, arrivals[1..]);
        FramesInTwo(v, more);
        AppendAssociates(view, arrivals[0].chunk, more);
      }
    }
  }

  lemma FramesInTwo(v: bytes, x: bytes)
    ensures Parse(v + x).frames == Parse(v).frames + Parse(Parse(v).rest + x).frames
  {
    ParseAppend(v, x);
    if Parse(v).error.Some? {
      ParseStops(v);
      NextAppend(Parse(v).rest, x);
      assert Parse(v).frames + [] == Parse(v).frames;
    }
  }

  /** One read of several, and what follows it. */
  lemma ReadOne(step: FrameStep, c: Conn, view: bytes, arrivals: seq<Arrival>, i: nat)
    requires i < |arrivals|
    ensures var (a, p) := (arrivals[i], Parse(view + arrivals[i].chunk));
            var d := Drained(step, c, view + a.chunk);
            if a.waits && Due(d) then
              && ReadAll(step, c, view, arrivals[i..]) == (LoopRan(d), p.rest)
              && FramesTaken(step, c, view, arrivals[i..]) == p.frames
            else
              && ReadAll(step, c, view, arrivals[i..]) == ReadAll(step, d, p.rest, arrivals[i + 1..])
              && FramesTaken(step, c, view, arrivals[i..]) ==
                 p.frames + FramesTaken(step, d, p.rest, arrivals[i + 1..])
  {
    assert arrivals[i..][0] == arrivals[i] && arrivals[i..][1..] == arrivals[i + 1..];
    assert Parse(view + arrivals[i].chunk).frames + [] == Parse(view + arrivals[i].chunk).frames;
  }
}
