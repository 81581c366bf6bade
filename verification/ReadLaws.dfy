/** When a connection does not depend on how its input is cut, and what a fatal frame changes:
    the reader task stops where it next waits, so later frames may or may not be taken. */
module ReadLaws {
  import opened Prelude
  import opened Frames
  import opened ConnectionState
  import opened ConnectionLaws
  import opened ReadLoop

  /** An error that closes the connection. */
  predicate Fatal(f: Frame)
  {
    f.Error? && IsFatal(f.code)
  }

  /** The stream holds a malformed frame or a fatal error. */
  ghost predicate Poisoned(p: Parsed)
  {
    p.error.Some? || exists f :: f in p.frames && Fatal(f)
  }

  /** An open connection with no close on its way, and nothing left to read. */
  ghost predicate Reading(step: FrameStep, c: Conn, view: bytes)
  {
    !c.closed && c.scheduled.None? && Rested(step, c, view)
  }

  /** A connection on which only fatal errors have scheduled a close. */
  predicate Marked(c: Conn)
  {
    !c.closed && (c.scheduled.Some? ==> c.closing)
  }

  // ---------- One frame ----------

  lemma ResponseMarks(c: Conn, body: bytes)
    requires Marked(c)
    ensures var d := OnResponse(c, body); Marked(d) && d.scheduled == c.scheduled
  {
  }

  lemma ErrorMarks(c: Conn, code: bytes, msg: bytes)
    requires Marked(c)
    ensures var d := OnError(c, code, msg); Marked(d) && (d.scheduled.Some? <==> c.scheduled.Some? || IsFatal(code))
  {
  }

  /** Exactly the fatal errors schedule a close. */
  lemma FrameMarks(c: Conn, f: Frame)
    requires Marked(c)
    ensures var d := Dispatch(c, f); Marked(d) && (d.scheduled.Some? <==> c.scheduled.Some? || Fatal(f))
  {
    match f
    case Response(body) => ResponseMarks(c, body);
    case Error(code, msg) => ErrorMarks(c, code, msg);
    case Message(_, _, _, _) =>
  }

  /** What is done with a frame closes the connection exactly as the frame itself does. */
  ghost predicate ClosesOnFatal(step: FrameStep)
  {
    forall c, f :: Marked(c) ==>
      var d := step(c, f); Marked(d) && (d.scheduled.Some? <==> c.scheduled.Some? || Fatal(f))
  }

  lemma DispatchClosesOnFatal()
    ensures ClosesOnFatal(Dispatch)
  {
    forall c, f | Marked(c)
      ensures var d := Dispatch(c, f); Marked(d) && (d.scheduled.Some? <==> c.scheduled.Some? || Fatal(f))
    {
      FrameMarks(c, f);
    }
  }

  /** A message is handed to a handler inside the drain, which ends in one way or the other. */
  function Handed(c: Conn, id: bytes, failed: bool, autoFin: bool, autoRequeue: bool): Conn
  {
    AfterHandler(OnMessage(c, id), |c.msgs|, failed, autoFin, autoRequeue)
  }

  lemma HandedMarks(c: Conn, id: bytes, failed: bool, autoFin: bool, autoRequeue: bool)
    requires Marked(c)
    ensures var d := Handed(c, id, failed, autoFin, autoRequeue); Marked(d) && d.scheduled == c.scheduled
  {
  }

  /** `_dispatch_message`: a handler that is called directly, with how it ends on each message. */
  function Direct(fails: Frame -> bool, autoFin: bool, autoRequeue: bool): FrameStep
  {
    (c: Conn, f: Frame) => if f.Message? then Handed(c, f.id, fails(f), autoFin, autoRequeue) else Dispatch(c, f)
  }

  lemma DirectClosesOnFatal(fails: Frame -> bool, autoFin: bool, autoRequeue: bool)
    ensures ClosesOnFatal(Direct(fails, autoFin, autoRequeue))
  {
    forall c, f | Marked(c)
      ensures var d := Direct(fails, autoFin, autoRequeue)(c, f);
              Marked(d) && (d.scheduled.Some? <==> c.scheduled.Some? || Fatal(f))
    {
      if f.Message? { HandedMarks(c, f.id, fails(f), autoFin, autoRequeue); } else { FrameMarks(c, f); }
    }
  }

  lemma HandedKeeps(c: Conn, id: bytes, failed: bool, autoFin: bool, autoRequeue: bool)
    requires ConnInv(c)
    ensures ConnInv(Handed(c, id, failed, autoFin, autoRequeue))
  {
    DispatchKeeps(c, Message(0, 0, id, []));
    HandlerKeeps(OnMessage(c, id), |c.msgs|, failed, autoFin, autoRequeue);
  }

  /** Settling messages inside the drain keeps what every step of the machine keeps. */
  lemma {:induction false} DirectKeeps(c: Conn, fs: seq<Frame>, fails: Frame -> bool, autoFin: bool, autoRequeue: bool)
    requires ConnInv(c)
    ensures ConnInv(Fold(Direct(fails, autoFin, autoRequeue), c, fs))
    decreases |fs|
  {
    if fs != [] {
      if fs[0].Message? {
        HandedKeeps(c, fs[0].id, fails(fs[0]), autoFin, autoRequeue);
      } else {
        DispatchKeeps(c, fs[0]);
      }
      DirectKeeps(Direct(fails, autoFin, autoRequeue)(c, fs[0]), fs[1..], fails, autoFin, autoRequeue);
    }
  }

  lemma {:induction false} FoldMarks(step: FrameStep, c: Conn, fs: seq<Frame>)
    requires ClosesOnFatal(step) && Marked(c)
    ensures var d := Fold(step, c, fs);
            Marked(d) && (d.scheduled.Some? <==> c.scheduled.Some? || exists f :: f in fs && Fatal(f))
    decreases |fs|
  {
    if fs != [] {
      assert Marked(step(c, fs[0]));
      FoldMarks(step, step(c, fs[0]), fs[1..]);
      assert fs == [fs[0]] + fs[1..];
    }
  }

  lemma DrainMarks(step: FrameStep, c: Conn, v: bytes)
    requires ClosesOnFatal(step) && Marked(c) && c.scheduled.None?
    ensures var d := Drained(step, c, v); Marked(d) && (Due(d) <==> Poisoned(Parse(v)))
  {
    FoldMarks(step, c, Parse(v).frames);
  }

  // ---------- Reading is a run ----------

  /** What the frames of a stream are to the connection, and what its malformed end is. */
  function Arrivals(fs: seq<Frame>, error: Option<ProtocolError>): seq<Event>
    decreases |fs|
  {
    if fs != [] then [Recv(fs[0])] + Arrivals(fs[1..], error)
    else if error.Some? then [RecvBad(error.value)]
    else []
  }

  lemma {:induction false} DrainIsARun(c: Conn, fs: seq<Frame>, error: Option<ProtocolError>, es: seq<Event>)
    ensures Run(c, Arrivals(fs, error) + es) == Run(AfterError(Fold(Dispatch, c, fs), error), es)
    decreases |fs|
  {
    if fs != [] {
      AppendAssociates([Recv(fs[0])], Arrivals(fs[1..], error), es);
      RunCons(c, Recv(fs[0]), Arrivals(fs[1..], error) + es);
      DrainIsARun(Dispatch(c, fs[0]), fs[1..], error, es);
    } else if error.Some? {
      RunCons(c, RecvBad(error.value), es);
    } else {
      assert [] + es == es;
    }
  }

  lemma RunCons(c: Conn, e: Event, es: seq<Event>)
    ensures Run(c, [e] + es) == Run(Step(c, e), es)
  {
    assert ([e] + es)[1..] == es;
  }

  /** However the stream is cut, the connection ends as after a run of the machine: the frames
      of the bytes that the task took, the error that stopped them, and the loop. So every law
      over all runs holds of every reading. */
  lemma ReadingIsARun(c: Conn, view: bytes, arrivals: seq<Arrival>)
    requires Rested(Dispatch, c, view)
    ensures var p := Parse(view + Taken(Dispatch, c, view, arrivals));
            ReadAll(Dispatch, c, view, arrivals).0 == Run(c, Arrivals(p.frames, p.error) + [RunScheduledClose])
  {
    var v := view + Taken(Dispatch, c, view, arrivals);
    ReadingIsOneDrain(Dispatch, c, view, arrivals);
    DrainIsARun(c, Parse(v).frames, Parse(v).error, [RunScheduledClose]);
    RunCons(Drained(Dispatch, c, v), RunScheduledClose, []);
    assert [RunScheduledClose] + [] == [RunScheduledClose];
  }

  /** A frame that a direct handler gets is two steps of the machine: its arrival, and the outcome
      of the handler. */
  lemma DirectIsARun(c: Conn, f: Frame, fails: Frame -> bool, autoFin: bool, autoRequeue: bool)
    ensures Direct(fails, autoFin, autoRequeue)(c, f) ==
            if f.Message? then Step(Step(c, Recv(f)), Handled(|c.msgs|, fails(f), autoFin, autoRequeue))
            else Step(c, Recv(f))
  {
  }

  // ---------- Exactly when the cut does not matter ----------

  /** A longer stream holds what a shorter one holds. */
  lemma PoisonStays(v: bytes, x: bytes)
    requires Poisoned(Parse(v))
    ensures Poisoned(Parse(v + x))
  {
    ParseAppend(v, x);
    if Parse(v).error.None? {
      var f :| f in Parse(v).frames && Fatal(f);
      assert f in Parse(v + x).frames;
    }
  }

  /** However the stream is cut, and whether messages are queued or handled inside the drain,
      the connection ends closed if and only if the stream holds a malformed frame or a fatal
      error. When it holds none, everything is taken, and the connection is that of the whole
      stream at once. */
  lemma ClosedIffPoisoned(step: FrameStep, c: Conn, view: bytes, arrivals: seq<Arrival>)
    requires ClosesOnFatal(step) && Reading(step, c, view)
    ensures var (d, v) := (ReadAll(step, c, view, arrivals).0, view + Stream(arrivals));
            && (d.closed <==> Poisoned(Parse(v)))
            && (!Poisoned(Parse(v)) ==>
                  ReadAll(step, c, view, arrivals) == (Drained(step, c, v), Parse(v).rest))
  {
    var taken := Taken(step, c, view, arrivals);
    var x := TakenIsAPrefix(step, c, view, arrivals);
    ReadingIsOneDrain(step, c, view, arrivals);
    DrainMarks(step, c, view + taken);
    AppendAssociates(view, taken, x);
    if Poisoned(Parse(view + taken)) {
      PoisonStays(view + taken, x);
    } else {
      assert x == [] && view + taken + x == view + taken;
    }
  }

  // ---------- Past a fatal frame ----------

  /** A frame that changes nothing on a connection that is about to close: a reply for which
      nobody waits, and no heartbeat. */
  predicate Inert(c: Conn, f: Frame)
  {
    match f
    case Response(body) => body != HEARTBEAT && c.waiters == []
    case Error(_, _) => c.waiters == []
    case Message(_, _, _, _) => false
  }

  /** What dispatching adds to a connection and a close does not take away. */
  function Weight(c: Conn): nat
  {
    |c.msgs| + |c.sent| + |c.answers|
  }

  predicate Doomed(c: Conn)
  {
    !c.closed && c.closing && c.scheduled.Some?
  }

  lemma ResponseWeighs(c: Conn, body: bytes)
    requires Doomed(c)
    ensures var d := OnResponse(c, body);
            && Doomed(d) && Weight(c) <= Weight(d)
            && (if body != HEARTBEAT && c.waiters == [] then d == c else Weight(c) < Weight(d))
  {
  }

  lemma ErrorWeighs(c: Conn, code: bytes, msg: bytes)
    requires Doomed(c)
    ensures var d := OnError(c, code, msg);
            && Doomed(d) && Weight(c) <= Weight(d) && (if c.waiters == [] then d == c else Weight(c) < Weight(d))
  {
  }

  lemma FrameWeighs(c: Conn, f: Frame)
    requires Doomed(c)
    ensures var d := Dispatch(c, f);
            Doomed(d) && Weight(c) <= Weight(d) && (if Inert(c, f) then d == c else Weight(c) < Weight(d))
  {
    match f
    case Response(body) => ResponseWeighs(c, body);
    case Error(code, msg) => ErrorWeighs(c, code, msg);
    case Message(_, _, _, _) =>
  }

  lemma {:induction false} FoldWeighs(c: Conn, fs: seq<Frame>)
    requires Doomed(c)
    ensures var d := Fold(Dispatch, c, fs);
            && Doomed(d) && Weight(c) <= Weight(d)
            && (if forall f :: f in fs ==> Inert(c, f) then d == c else Weight(c) < Weight(d))
    decreases |fs|
  {
    if fs != [] {
      FrameWeighs(c, fs[0]);
      FoldWeighs(Dispatch(c, fs[0]), fs[1..]);
      assert fs == [fs[0]] + fs[1..];
    }
  }

  /** More bytes on a connection that is about to close change what it ends as if and only if
      one of their frames takes effect. */
  lemma PastTheEndIff(c: Conn, v: bytes)
    requires Doomed(c)
    ensures LoopRan(Drained(Dispatch, c, v)) == LoopRan(c) <==> forall f :: f in Parse(v).frames ==> Inert(c, f)
  {
    FoldWeighs(c, Parse(v).frames);
  }

  /** The frames of the stream that one reading takes and a shorter one leaves. */
  function LateFrames(c: Conn, view: bytes, arrivals: seq<Arrival>, more: bytes): seq<Frame>
  {
    Parse(Parse(view + Taken(Dispatch, c, view, arrivals)).rest + more).frames
  }

  /** Two readings of one stream, of which the first takes no more than the second, end in
      the same connection if and only if none of the frames that only the second takes has
      any effect on a connection about to close. Without a fatal frame there are none. */
  lemma TwoReadingsAgreeIff(c: Conn, view: bytes, first: seq<Arrival>, second: seq<Arrival>, more: bytes)
    requires Reading(Dispatch, c, view) && Stream(first) == Stream(second)
    requires Taken(Dispatch, c, view, second) == Taken(Dispatch, c, view, first) + more
    ensures var d := Drained(Dispatch, c, view + Taken(Dispatch, c, view, first));
            ReadAll(Dispatch, c, view, first).0 == ReadAll(Dispatch, c, view, second).0 <==>
            forall f :: f in LateFrames(c, view, first, more) ==> Inert(d, f)
  {
    var v := view + Taken(Dispatch, c, view, first);
    var d := Drained(Dispatch, c, v);
    var x := TakenIsAPrefix(Dispatch, c, view, first);
    ReadingIsOneDrain(Dispatch, c, view, first);
    ReadingIsOneDrain(Dispatch, c, view, second);
    AppendAssociates(view, Taken(Dispatch, c, view, first), more);
    DrainedInTwo(Dispatch, c, v, more);
    DispatchClosesOnFatal();
    DrainMarks(Dispatch, c, v);
    if Due(d) {
      PastTheEndIff(d, Parse(v).rest + more);
    } else {
      var y := TakenIsAPrefix(Dispatch, c, view, second);
      NothingMore(Taken(Dispatch, c, view, first), more, y, x);
      assert Parse(v).rest + [] == Parse(v).rest;
      ParseStops(v);
      DrainedRests(Dispatch, c, v);
    }
  }

  lemma NothingMore(taken: bytes, more: bytes, y: bytes, x: bytes)
    requires taken + x == (taken + more) + y && x == []
    ensures more == []
  {
    assert |taken + x| == |taken| + |x| && |(taken + more) + y| == |taken| + |more| + |y|;
  }

  /** One of two readings of a stream always takes no more than the other. */
  lemma ReadingsAreOrdered(c: Conn, view: bytes, first: seq<Arrival>, second: seq<Arrival>) returns (more: bytes)
    requires Reading(Dispatch, c, view) && Stream(first) == Stream(second)
    requires |Taken(Dispatch, c, view, first)| <= |Taken(Dispatch, c, view, second)|
    ensures Taken(Dispatch, c, view, second) == Taken(Dispatch, c, view, first) + more
  {
    var (a, b) := (Taken(Dispatch, c, view, first), Taken(Dispatch, c, view, second));
    var x := TakenIsAPrefix(Dispatch, c, view, first);
    var y := TakenIsAPrefix(Dispatch, c, view, second);
    assert a == (a + x)[..|a|] == (b + y)[..|a|] == b[..|a|];
    more := b[|a|..];
  }

  // ---------- The cut can matter ----------

  /** Bytes that are exactly one frame. */
  predicate IsFrame(v: bytes, f: Frame)
  {
    Next(v) == Got(f, [])
  }

  lemma EncodedIsFrame(f: Frame)
    requires WellFormed(f)
    ensures IsFrame(EncodeFrame(f), f)
  {
    NextEncode(f, []);
    assert EncodeFrame(f) + [] == EncodeFrame(f);
  }

  lemma OneFrame(c: Conn, v: bytes, f: Frame)
    requires IsFrame(v, f)
    ensures Drained(Dispatch, c, v) == Dispatch(c, f) && Parse(v) == Parsed([f], [], None)
  {
    assert Parse([]) == Parsed([], [], None) && [f] + [] == [f];
    assert Fold(Dispatch, Dispatch(c, f), [f][1..]) == Dispatch(c, f);
  }

  lemma FrameAndMore(c: Conn, a: bytes, e: Frame, b: bytes, m: Frame)
    requires IsFrame(a, e) && IsFrame(b, m)
    ensures Drained(Dispatch, c, a + b) == Dispatch(Dispatch(c, e), m)
  {
    OneFrame(c, a, e);
    OneFrame(Dispatch(c, e), b, m);
    DrainedInTwo(Dispatch, c, a, b);
    assert [] + b == b;
  }

  lemma FatalOnANewOne(e: Frame, d: Conn)
    requires Fatal(e) && d == Dispatch(NewConn(2500), e)
    ensures Doomed(d) && d.msgs == []
  {
    FrameMarks(NewConn(2500), e);
    ErrorTouchesNoMessage(NewConn(2500), e.code, e.msg);
  }

  lemma InTwo(c: Conn, a: bytes, b: bytes, d: Conn)
    requires d == Drained(Dispatch, c, a) && Doomed(d)
    ensures ReadAll(Dispatch, c, [], [Arrival(a, true), Arrival(b, true)]).0.msgs == d.msgs
  {
    assert [] + a == a;
  }

  lemma InOne(c: Conn, a: bytes, d: Conn)
    requires d == Drained(Dispatch, c, a) && Doomed(d)
    ensures ReadAll(Dispatch, c, [], [Arrival(a, true)]).0.msgs == d.msgs
  {
    assert [] + a == a;
  }

  lemma TheCutDecidesFor(e: Frame, m: Frame, a: bytes, b: bytes)
    requires IsFrame(a, e) && Fatal(e) && IsFrame(b, m) && m.Message?
    ensures ReadAll(Dispatch, NewConn(2500), [], [Arrival(a, true), Arrival(b, true)]).0.msgs == []
    ensures ReadAll(Dispatch, NewConn(2500), [], [Arrival(a + b, true)]).0.msgs == [Msg(m.id, false)]
  {
    var d := Dispatch(NewConn(2500), e);
    FatalOnANewOne(e, d);
    OneFrame(NewConn(2500), a, e);
    InTwo(NewConn(2500), a, b, d);
    FrameAndMore(NewConn(2500), a, e, b, m);
    InOne(NewConn(2500), a + b, OnMessage(d, m.id));
  }

  /** A fatal error and a message: in one chunk the message is delivered, in two it never is. */
  lemma TheCutDecides(e: Frame, m: Frame)
    requires WellFormed(e) && Fatal(e) && WellFormed(m) && m.Message?
    ensures var (a, b) := (EncodeFrame(e), EncodeFrame(m));
            && ReadAll(Dispatch, NewConn(2500), [], [Arrival(a, true), Arrival(b, true)]).0.msgs == []
            && ReadAll(Dispatch, NewConn(2500), [], [Arrival(a + b, true)]).0.msgs == [Msg(m.id, false)]
  {
    EncodedIsFrame(e);
    EncodedIsFrame(m);
    TheCutDecidesFor(e, m, EncodeFrame(e), EncodeFrame(m));
  }
}
