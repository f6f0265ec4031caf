/** The laws of the tunnel transport hold in every schedule, and what they promise. */
module TransportLaws {
  import opened Common
  import opened Notify
  import opened Transport

  lemma {:induction false} CountAppend<T>(s: seq<T>, y: T, x: T)
    ensures Count(s + [y], x) == Count(s, x) + One(y == x)
  {
    if s == [] {
      assert s + [y] == [y];
    } else {
      CountAppend(s[1..], y, x);
      assert s + [y] == [s[0]] + (s[1..] + [y]);
      assert ([s[0]] + (s[1..] + [y]))[1..] == s[1..] + [y];
    }
  }

  lemma BothCounts(s: seq<Frame>, f: Frame)
    ensures Count(s + [f], Ping) == Count(s, Ping) + One(f.Ping?)
    ensures Count(s + [f], Pong) == Count(s, Pong) + One(f.Pong?)
  {
    CountAppend(s, f, Ping);
    CountAppend(s, f, Pong);
  }

  // ----- pings are conserved -----

  ghost predicate PingLaws(me: Endpoint, peer: Endpoint) {
    PingLaw(me, peer) && PingLaw(peer, me)
  }

  lemma StopWriterKeepsPings(me: Endpoint, peer: Endpoint, sendClose: bool)
    requires me.inFlight == Outstanding(me, peer) + me.lost && me.inFlight <= MAX_IN_FLIGHT + 1
    requires PingLaw(peer, me)
    ensures var (m, p) := StopWriter(me, peer, sendClose); PingLaws(m, p)
  {
    BothCounts(me.out, Close);
  }

  lemma StopReaderKeepsPings(me: Endpoint, peer: Endpoint, n: nat)
    requires PingLaws(me, peer) && (me.rpc.WritingOut? ==> n <= |me.rpc.data|)
    requires me.rpc.Enqueuing? ==> me.wpc.WriterEnded?
    requires !me.rpc.Notifying? && !me.rpc.ReaderEnded?
    ensures var (m, p) := StopReader(me, peer, n); PingLaws(m, p)
  {
  }

  lemma DrainKeepsPings(me: Endpoint, peer: Endpoint)
    requires PingLaws(me, peer) && Can(me, peer, DrainOne)
    ensures var (m, p) := Do(me, peer, DrainOne); PingLaws(m, p)
    ensures me.ops[0].OpPong? ==> me.inFlight > 0
  {
    BothCounts(me.out, Pong);
    BothCounts(me.out, Close);
    assert Count(me.ops, OpPing) == One(me.ops[0].OpPing?) + Count(me.ops[1..], OpPing);
    assert Count(me.ops, OpPong) == One(me.ops[0].OpPong?) + Count(me.ops[1..], OpPong);
  }

  lemma TickKeepsPings(me: Endpoint, peer: Endpoint)
    requires PingLaws(me, peer) && Can(me, peer, Tick)
    ensures var (m, p) := Do(me, peer, Tick); PingLaws(m, p)
  {
    BothCounts(me.out, Ping);
    if me.inFlight >= MAX_IN_FLIGHT {
      StopWriterKeepsPings(me.(inFlight := me.inFlight + 1, lost := me.lost + 1), peer, false);
    }
  }

  lemma RecvKeepsPings(me: Endpoint, peer: Endpoint)
    requires PingLaws(me, peer) && Can(me, peer, RecvFrame)
    ensures var (m, p) := Do(me, peer, RecvFrame); PingLaws(m, p)
  {
    var f := peer.out[0];
    assert Count(peer.out, Ping) == One(f.Ping?) + Count(peer.out[1..], Ping);
    assert Count(peer.out, Pong) == One(f.Pong?) + Count(peer.out[1..], Pong);
  }

  lemma SendKeepsPings(me: Endpoint, peer: Endpoint)
    requires PingLaws(me, peer) && Can(me, peer, SendOp)
    ensures var (m, p) := Do(me, peer, SendOp); PingLaws(m, p)
  {
    CountAppend(me.ops, me.rpc.op, OpPing);
    CountAppend(me.ops, me.rpc.op, OpPong);
  }

  lemma WriteKeepsPings(me: Endpoint, peer: Endpoint)
    requires PingLaws(me, peer) && Can(me, peer, WriteData)
    ensures var (m, p) := Do(me, peer, WriteData); PingLaws(m, p)
  {
    BothCounts(me.out, Binary(me.wpc.data));
  }

  lemma QuietKeepsPings(me: Endpoint, peer: Endpoint, a: Act)
    requires PingLaws(me, peer) && Can(me, peer, a)
    requires a.Start? || a.PollPending? || a.DrainDone? || a.ReadLocal? || a.WriteOut? || a.NotifyOps?
    ensures var (m, p) := Do(me, peer, a); PingLaws(m, p)
  {
    hide Count;
  }

  lemma StepKeepsPings(me: Endpoint, peer: Endpoint, a: Act)
    requires PingLaws(me, peer) && Can(me, peer, a)
    ensures var (m, p) := Do(me, peer, a); PingLaws(m, p)
  {
    match a
    case DrainOne => DrainKeepsPings(me, peer);
    case DrainFails(closeOk) => StopWriterKeepsPings(me, peer, closeOk);
    case WriteData => WriteKeepsPings(me, peer);
    case WriteFails(closeOk) => StopWriterKeepsPings(me.(dropped := [me.wpc.data]), peer, closeOk);
    case LeaveLoop(closeOk) => StopWriterKeepsPings(me, peer, closeOk);
    case Tick => TickKeepsPings(me, peer);
    case TickFails => StopWriterKeepsPings(me.(inFlight := me.inFlight + 1, lost := me.lost + 1), peer, false);
    case RecvFrame => RecvKeepsPings(me, peer);
    case WriteOutFails(n) => StopReaderKeepsPings(me, peer, n);
    case SendOp => SendKeepsPings(me, peer);
    case SendOpFails => StopReaderKeepsPings(me, peer, 0);
    case ReaderFails => StopReaderKeepsPings(me, peer, 0);
    case CancelReader(n) => StopReaderKeepsPings(me, peer, n);
    case _ => QuietKeepsPings(me, peer, a);
  }

  // ----- bytes and chunks are preserved -----

  ghost predicate StreamLaws(me: Endpoint, peer: Endpoint) {
    StreamLaw(me, peer) && StreamLaw(peer, me)
  }

  lemma {:induction false} BinariesAppend(fs: seq<Frame>, f: Frame)
    ensures Binaries(fs + [f]) == Binaries(fs) + (if f.Binary? then [f.data] else [])
  {
    if fs == [] {
      assert fs + [f] == [f];
    } else {
      BinariesAppend(fs[1..], f);
      assert (fs + [f])[1..] == fs[1..] + [f];
      Assoc(if fs[0].Binary? then [fs[0].data] else [], Binaries(fs[1..]), if f.Binary? then [f.data] else []);
    }
  }

  lemma StopWriterKeepsStreams(me: Endpoint, peer: Endpoint, sendClose: bool)
    requires StreamLaw(peer, me) && |me.dropped| <= 1
    requires me.readLog == peer.writtenLog + BeingWritten(peer) + Binaries(me.out) + me.dropped
    requires |peer.cut| <= 1 && (!peer.rpc.ReaderEnded? ==> peer.cut == [] && peer.partial == [])
    requires (peer.cut == [] ==> peer.partial == []) && (peer.cut != [] ==> peer.partial <= peer.cut[0])
    ensures var (m, p) := StopWriter(me, peer, sendClose); StreamLaws(m, p)
  {
    hide Binaries;
    hide Count;
    BinariesAppend(me.out, Close);
    assert Binaries(me.out) + [] == Binaries(me.out);
  }

  lemma StopReaderKeepsStreams(me: Endpoint, peer: Endpoint, n: nat)
    requires StreamLaws(me, peer) && (me.rpc.WritingOut? ==> n <= |me.rpc.data|)
    requires !me.rpc.ReaderEnded?
    ensures var (m, p) := StopReader(me, peer, n); StreamLaws(m, p)
  {
    hide Binaries;
  }

  /** A step that touches no data and keeps the writer running keeps the streams. */
  lemma SameStreams(me: Endpoint, peer: Endpoint, m: Endpoint, p: Endpoint)
    requires StreamLaws(me, peer)
    requires Binaries(m.out) == Binaries(me.out) && Binaries(p.out) == Binaries(peer.out)
    requires m.readLog == me.readLog && m.writtenLog == me.writtenLog && m.cut == me.cut && m.partial == me.partial
    requires m.dropped == me.dropped && InHand(m) == InHand(me) && m.wpc.WriterEnded? == me.wpc.WriterEnded?
    requires BeingWritten(m) == BeingWritten(me) && m.rpc.ReaderEnded? == me.rpc.ReaderEnded?
    requires p == peer.(out := p.out, lost := p.lost)
    ensures StreamLaws(m, p)
  {
  }

  lemma DrainWritesNoData(me: Endpoint, peer: Endpoint)
    requires Can(me, peer, DrainOne)
    ensures Binaries(Do(me, peer, DrainOne).0.out) == Binaries(me.out)
  {
    match me.ops[0]
    case OpPing => BinariesAppend(me.out, Pong);
    case OpPong =>
    case OpClose => BinariesAppend(me.out, Close);
  }

  lemma DrainKeepsStreams(me: Endpoint, peer: Endpoint)
    requires StreamLaws(me, peer) && Can(me, peer, DrainOne)
    ensures var (m, p) := Do(me, peer, DrainOne); StreamLaws(m, p)
  {
    DrainWritesNoData(me, peer);
    SameStreams(me, peer, Do(me, peer, DrainOne).0, peer);
  }

  lemma PingKeepsStreams(me: Endpoint, peer: Endpoint)
    requires StreamLaws(me, peer) && Can(me, peer, Tick) && me.inFlight < MAX_IN_FLIGHT
    ensures var (m, p) := Do(me, peer, Tick); StreamLaws(m, p)
  {
    var m := Do(me, peer, Tick).0;
    assert Binaries(m.out) == Binaries(me.out) by {
      BinariesAppend(me.out, Ping);
    }
    SameStreams(me, peer, m, peer);
  }

  lemma ReadKeepsStreams(me: Endpoint, peer: Endpoint, d: Chunk)
    requires StreamLaws(me, peer) && Can(me, peer, ReadLocal(d))
    ensures var (m, p) := Do(me, peer, ReadLocal(d)); StreamLaws(m, p)
  {
  }

  lemma WriteKeepsStreams(me: Endpoint, peer: Endpoint)
    requires StreamLaws(me, peer) && Can(me, peer, WriteData)
    ensures var (m, p) := Do(me, peer, WriteData); StreamLaws(m, p)
  {
    BinariesAppend(me.out, Binary(me.wpc.data));
    var before, wire, d := peer.writtenLog + BeingWritten(peer), Binaries(me.out), [me.wpc.data];
    assert before + wire + d == before + (wire + d) + [];
  }

  lemma RecvKeepsStreams(me: Endpoint, peer: Endpoint)
    requires StreamLaws(me, peer) && Can(me, peer, RecvFrame)
    ensures var (m, p) := Do(me, peer, RecvFrame); StreamLaws(m, p)
  {
    if peer.out[0].Binary? {
      var written, d, wire := me.writtenLog, [peer.out[0].data], Binaries(peer.out[1..]);
      assert Binaries(peer.out) == d + wire;
      assert written + [] + (d + wire) == written + d + wire;
    }
  }

  lemma WriteOutKeepsStreams(me: Endpoint, peer: Endpoint)
    requires StreamLaws(me, peer) && Can(me, peer, WriteOut)
    ensures var (m, p) := Do(me, peer, WriteOut); StreamLaws(m, p)
  {
    assert me.writtenLog + [me.rpc.data] + [] == me.writtenLog + [me.rpc.data];
  }

  lemma QuietKeepsStreams(me: Endpoint, peer: Endpoint, a: Act)
    requires StreamLaws(me, peer) && Can(me, peer, a)
    requires a.Start? || a.PollPending? || a.DrainDone? || a.SendOp? || (a.NotifyOps? && !me.rpc.op.OpClose?)
    ensures var (m, p) := Do(me, peer, a); StreamLaws(m, p)
  {
    SameStreams(me, peer, Do(me, peer, a).0, peer);
  }

  predicate StopsALoop(me: Endpoint, a: Act) {
    || a.DrainFails? || a.WriteFails? || a.LeaveLoop? || a.TickFails? || (a.Tick? && me.inFlight >= MAX_IN_FLIGHT)
    || a.WriteOutFails? || a.SendOpFails? || a.ReaderFails? || a.CancelReader?
    || (a.NotifyOps? && me.rpc.Notifying? && me.rpc.op.OpClose?)
  }

  lemma EndingKeepsStreams(me: Endpoint, peer: Endpoint, a: Act)
    requires StreamLaws(me, peer) && Can(me, peer, a) && StopsALoop(me, a)
    ensures var (m, p) := Do(me, peer, a); StreamLaws(m, p)
  {
    hide Binaries;
    hide Count;
    hide StopWriter;
    hide StopReader;
    match a
    case DrainFails(closeOk) => StopWriterKeepsStreams(me, peer, closeOk);
    case WriteFails(closeOk) => StopWriterKeepsStreams(me.(dropped := [me.wpc.data]), peer, closeOk);
    case LeaveLoop(closeOk) => StopWriterKeepsStreams(me, peer, closeOk);
    case Tick => StopWriterKeepsStreams(me.(inFlight := me.inFlight + 1, lost := me.lost + 1), peer, false);
    case TickFails => StopWriterKeepsStreams(me.(inFlight := me.inFlight + 1, lost := me.lost + 1), peer, false);
    case WriteOutFails(n) => StopReaderKeepsStreams(me, peer, n);
    case CancelReader(n) => StopReaderKeepsStreams(me, peer, n);
    case SendOpFails => StopReaderKeepsStreams(me, peer, 0);
    case ReaderFails => StopReaderKeepsStreams(me, peer, 0);
    case _ =>
  }

  lemma StepKeepsStreams(me: Endpoint, peer: Endpoint, a: Act)
    requires StreamLaws(me, peer) && Can(me, peer, a)
    ensures var (m, p) := Do(me, peer, a); StreamLaws(m, p)
  {
    hide Do;
    hide StreamLaws;
    if StopsALoop(me, a) {
      EndingKeepsStreams(me, peer, a);
    } else {
      match a
      case Tick => PingKeepsStreams(me, peer);
      case DrainOne => DrainKeepsStreams(me, peer);
      case ReadLocal(d) => ReadKeepsStreams(me, peer, d);
      case WriteData => WriteKeepsStreams(me, peer);
      case RecvFrame => RecvKeepsStreams(me, peer);
      case WriteOut => WriteOutKeepsStreams(me, peer);
      case _ => QuietKeepsStreams(me, peer, a);
    }
  }

  // ----- wake-ups and order of control frames -----

  predicate ReaderAct(a: Act) {
    || a.RecvFrame? || a.WriteOut? || a.WriteOutFails? || a.SendOp?
    || a.SendOpFails? || a.NotifyOps? || a.ReaderFails? || a.CancelReader?
  }

  predicate DrainAct(a: Act) { a.Start? || a.PollPending? || a.DrainOne? || a.DrainDone? }

  lemma DrainKeepsWake(me: Endpoint, peer: Endpoint, a: Act)
    requires WakeLaw(me) && Can(me, peer, a) && DrainAct(a)
    ensures WakeLaw(Do(me, peer, a).0)
  {
  }

  lemma WriterKeepsWake(me: Endpoint, peer: Endpoint, a: Act)
    requires WakeLaw(me) && Can(me, peer, a) && !DrainAct(a) && !ReaderAct(a)
    ensures WakeLaw(Do(me, peer, a).0)
  {
    hide Count;
  }

  lemma ReaderKeepsWake(me: Endpoint, peer: Endpoint, a: Act)
    requires WakeLaw(me) && Can(me, peer, a) && ReaderAct(a)
    ensures WakeLaw(Do(me, peer, a).0)
  {
  }

  lemma StepKeepsWake(me: Endpoint, peer: Endpoint, a: Act)
    requires WakeLaw(me) && Can(me, peer, a)
    ensures WakeLaw(Do(me, peer, a).0)
  {
    hide WakeLaw;
    hide Do;
    if DrainAct(a) {
      DrainKeepsWake(me, peer, a);
    } else if ReaderAct(a) {
      ReaderKeepsWake(me, peer, a);
    } else {
      WriterKeepsWake(me, peer, a);
    }
  }

  lemma WriterKeepsFifo(me: Endpoint, peer: Endpoint, a: Act)
    requires FifoLaw(me) && Can(me, peer, a) && !ReaderAct(a)
    ensures FifoLaw(Do(me, peer, a).0)
  {
    hide Count;
    if a.DrainOne? {
      assert me.handled + me.ops == me.handled + [me.ops[0]] + me.ops[1..];
    }
  }

  lemma ReaderKeepsFifo(me: Endpoint, peer: Endpoint, a: Act)
    requires FifoLaw(me) && Can(me, peer, a) && ReaderAct(a)
    ensures FifoLaw(Do(me, peer, a).0)
  {
    if a.SendOp? && !me.wpc.WriterEnded? {
      assert me.handled + (me.ops + [me.rpc.op]) == me.handled + me.ops + [me.rpc.op];
    }
  }

  lemma StepKeepsFifo(me: Endpoint, peer: Endpoint, a: Act)
    requires FifoLaw(me) && Can(me, peer, a)
    ensures FifoLaw(Do(me, peer, a).0)
  {
    hide FifoLaw;
    hide Do;
    if ReaderAct(a) {
      ReaderKeepsFifo(me, peer, a);
    } else {
      WriterKeepsFifo(me, peer, a);
    }
  }

  lemma StepKeepsClose(me: Endpoint, peer: Endpoint, a: Act)
    requires CloseLaw(me) && Can(me, peer, a)
    ensures CloseLaw(Do(me, peer, a).0)
  {
    hide Count;
    var m := Do(me, peer, a).0;
    if a.SendOp? {
      CountAppend(me.ops, me.rpc.op, OpClose);
    } else if a.DrainOne? {
      CountTail(me.ops, OpClose);
    } else if m.ops != me.ops {
      NoneCounted(OpClose);
    }
  }

  lemma CountTail(ops: seq<Op>, op: Op)
    requires ops != []
    ensures Count(ops[1..], op) <= Count(ops, op)
  {
  }

  lemma NoneCounted(op: Op)
    ensures Count<Op>([], op) == 0
  {
  }

  lemma StepKeepsPeerQueue(me: Endpoint, peer: Endpoint, a: Act)
    requires WakeLaw(peer) && FifoLaw(peer) && CloseLaw(peer) && Can(me, peer, a)
    ensures var p := Do(me, peer, a).1; WakeLaw(p) && FifoLaw(p) && CloseLaw(p)
  {
    var p := Do(me, peer, a).1;
    assert p == peer.(lost := p.lost, out := p.out);
  }

  // ----- every schedule -----

  ghost predicate Laws(me: Endpoint, peer: Endpoint) {
    && PingLaws(me, peer) && StreamLaws(me, peer)
    && WakeLaw(me) && WakeLaw(peer) && FifoLaw(me) && FifoLaw(peer) && CloseLaw(me) && CloseLaw(peer)
  }

  lemma StepKeepsLaws(me: Endpoint, peer: Endpoint, a: Act)
    requires Laws(me, peer) && Can(me, peer, a)
    ensures var (m, p) := Do(me, peer, a); Laws(m, p)
  {
    StepKeepsPings(me, peer, a);
    StepKeepsStreams(me, peer, a);
    StepKeepsWake(me, peer, a);
    StepKeepsFifo(me, peer, a);
    StepKeepsClose(me, peer, a);
    StepKeepsPeerQueue(me, peer, a);
  }

  lemma {:induction false} RunKeepsLaws(s: Pair, steps: seq<Step>)
    requires Laws(s.left, s.right) && Runs(s, steps)
    ensures Laws(Exec(s, steps).left, Exec(s, steps).right)
    decreases |steps|
  {
    if steps != [] {
      if steps[0].onLeft {
        StepKeepsLaws(s.left, s.right, steps[0].act);
      } else {
        StepKeepsLaws(s.right, s.left, steps[0].act);
      }
      RunKeepsLaws(Apply(s, steps[0]), steps[1..]);
    }
  }

  lemma InitialStreams(e: Endpoint)
    requires e.out == [] && e.readLog == [] && e.writtenLog == [] && e.cut == [] && e.partial == [] && e.dropped == []
    requires e.wpc.NotStarted? && e.rpc.Reading?
    ensures StreamLaw(e, e)
  {
  }

  lemma InitialPings(e: Endpoint)
    requires e.out == [] && e.ops == [] && e.inFlight == 0 && e.lost == 0 && e.rpc.Reading? && e.wpc.NotStarted?
    ensures PingLaw(e, e)
  {
    assert Count(e.out, Ping) == 0 && Count(e.out, Pong) == 0 && Count(e.ops, OpPing) == 0 && Count(e.ops, OpPong) == 0;
  }

  lemma InitialQueue(e: Endpoint)
    requires e.ops == [] && e.handled == [] && e.received == [] && e.notify == FRESH
    requires e.rpc.Reading? && e.wpc.NotStarted?
    ensures WakeLaw(e) && FifoLaw(e) && CloseLaw(e)
  {
  }

  lemma InitialLaws(e: Endpoint)
    requires e == FRESH_ENDPOINT
    ensures PingLaw(e, e) && StreamLaw(e, e) && WakeLaw(e) && FifoLaw(e) && CloseLaw(e)
  {
    InitialStreams(e);
    InitialPings(e);
    InitialQueue(e);
  }

  lemma ReachedLaws(s: Pair)
    requires Reached(s)
    ensures Laws(s.left, s.right)
  {
    var steps :| Runs(INITIAL, steps) && Exec(INITIAL, steps) == s;
    InitialLaws(FRESH_ENDPOINT);
    RunKeepsLaws(INITIAL, steps);
  }

  // ----- the promises, for either endpoint -----

  /** `me` and `peer` are the two endpoints of a reachable state, in either order. */
  ghost predicate Ends(me: Endpoint, peer: Endpoint) {
    Reached(Pair(me, peer)) || Reached(Pair(peer, me))
  }

  lemma EndsLaws(me: Endpoint, peer: Endpoint)
    requires Ends(me, peer)
    ensures Laws(me, peer)
  {
    if Reached(Pair(me, peer)) {
      ReachedLaws(Pair(me, peer));
    } else {
      ReachedLaws(Pair(peer, me));
    }
  }

  /**
   An endpoint's in-flight counter is at all times its pings on the wire, plus those in the
   peer's hands, plus the pongs on their way back, plus the pongs waiting at home, plus what died
   with a loop that ended; nothing is lost while both writer loops run.
   */
  lemma PingsAreConserved(me: Endpoint, peer: Endpoint)
    requires Ends(me, peer)
    ensures me.inFlight == Outstanding(me, peer) + me.lost
    ensures !me.wpc.WriterEnded? && !peer.wpc.WriterEnded? ==> me.inFlight == Outstanding(me, peer)
  {
    EndsLaws(me, peer);
  }

  /**
   The counter never underflows and never exceeds three in a live loop; a tick ends the writer
   loop exactly when three pings are in flight, which with both loops running means that exactly
   three pings are unanswered somewhere between the two endpoints.
   */
  lemma PingLimitIsExact(me: Endpoint, peer: Endpoint)
    requires Ends(me, peer)
    ensures !me.wpc.WriterEnded? ==> me.inFlight <= 3
    ensures Can(me, peer, DrainOne) && me.ops[0].OpPong? ==>
              me.inFlight > 0 && Do(me, peer, DrainOne).0.inFlight == me.inFlight - 1
    ensures Can(me, peer, Tick) ==> (Do(me, peer, Tick).0.wpc.WriterEnded? <==> me.inFlight == 3)
    ensures Can(me, peer, Tick) && !peer.wpc.WriterEnded? ==>
              (Do(me, peer, Tick).0.wpc.WriterEnded? <==> Outstanding(me, peer) == 3)
  {
    EndsLaws(me, peer);
  }

  /**
   What is written at the far side is always a prefix of what was read at the near side: chunk
   by chunk, so that datagram boundaries survive, and byte by byte even when the writing out of
   a chunk is interrupted. Nothing is missing but what is on the wire or in hand.
   */
  lemma StreamIsPreserved(me: Endpoint, peer: Endpoint)
    requires Ends(me, peer)
    ensures peer.writtenLog <= me.readLog
    ensures Flatten(peer.writtenLog) + peer.partial <= Flatten(me.readLog)
    ensures me.readLog == peer.writtenLog + BeingWritten(peer) + Binaries(me.out) + InHand(me)
    ensures peer.partial != [] ==> peer.rpc.ReaderEnded?
  {
    EndsLaws(me, peer);
    Pieces(me.readLog, peer.writtenLog, BeingWritten(peer), Binaries(me.out), InHand(me));
    BytesArePreserved(peer.writtenLog, BeingWritten(peer), Binaries(me.out) + InHand(me), peer.partial);
  }

  lemma Pieces(all: seq<Chunk>, a: seq<Chunk>, b: seq<Chunk>, c: seq<Chunk>, d: seq<Chunk>)
    requires all == a + b + c + d
    ensures a <= all && all == a + (b + (c + d))
  {
  }

  lemma BytesArePreserved(written: seq<Chunk>, current: seq<Chunk>, rest: seq<Chunk>, partial: Chunk)
    requires partial == [] || (|current| == 1 && partial <= current[0])
    ensures Flatten(written) + partial <= Flatten(written + (current + rest))
  {
    FlattenAppend(written, current + rest);
    if partial != [] {
      assert (current + rest)[1..] == rest;
      assert partial <= Flatten(current + rest);
    }
    PrefixExtends(Flatten(written), partial, Flatten(current + rest));
  }

  lemma PrefixExtends(a: Chunk, b: Chunk, c: Chunk)
    requires b <= c
    ensures a + b <= a + c
  {
  }

  /**
   Control frames are handled in the order received, and none is left behind by a loop that
   could have heard of it: when the writer waits and was not woken, the queue holds exactly the
   frames announced before the loop began to listen, and at most the one being announced now.
   */
  lemma NoLostWakeup(me: Endpoint, peer: Endpoint)
    requires Ends(me, peer)
    ensures me.handled <= me.received
    ensures !me.wpc.WriterEnded? ==>
              me.received == me.handled + me.ops + (if me.rpc.Enqueuing? then [me.rpc.op] else [])
    ensures me.wpc.Select? && !me.notify.Ready() && !me.rpc.Notifying? ==> |me.ops| == me.early
    ensures me.wpc.Select? && !me.notify.Ready() && me.early == 0 && me.ops != [] ==> me.rpc.Notifying?
    ensures me.wpc.Draining? ==> me.early == 0
    ensures |me.ops| <= QUEUE_SIZE
  {
    EndsLaws(me, peer);
  }

  /** A writer loop that ends and can still write sends a close last; one that was asked to close answers with one. */
  lemma ClosesAreTold(me: Endpoint, peer: Endpoint, a: Act)
    requires Can(me, peer, a)
    ensures a == LeaveLoop(true) || a == DrainFails(true) || a == WriteFails(true) ==>
              var m := Do(me, peer, a).0; m.wpc.WriterEnded? && m.out == me.out + [Close]
    ensures a == LeaveLoop(false) || a == DrainFails(false) || a == WriteFails(false) || a == TickFails ==>
              var m := Do(me, peer, a).0; m.wpc.WriterEnded? && m.out == me.out
    ensures a == DrainOne && me.ops[0].OpClose? ==> Do(me, peer, a).0.out == me.out + [Close]
    ensures a == NotifyOps ==> (Do(me, peer, a).0.rpc.ReaderEnded? <==> me.rpc.op.OpClose?)
  {
    hide Count;
  }

  /**
   A reader loop ends exactly by a failure, by being cancelled, or by announcing a close; of a chunk
   it was writing out exactly the first `n` bytes are then written. A read takes what the local side
   had, and is possible whenever the writer selects.
   */
  lemma ReaderEndsExactly(me: Endpoint, peer: Endpoint, a: Act)
    requires Can(me, peer, a)
    ensures var m := Do(me, peer, a).0;
            m.rpc.ReaderEnded? != me.rpc.ReaderEnded? <==>
            || a.WriteOutFails? || a.SendOpFails? || a.ReaderFails? || a.CancelReader?
            || (a.NotifyOps? && me.rpc.op.OpClose?)
    ensures a.WriteOutFails? || (a.CancelReader? && me.rpc.WritingOut?) ==>
              Do(me, peer, a).0.cut == [me.rpc.data] && Do(me, peer, a).0.partial == me.rpc.data[..a.n]
  {
    hide Count;
  }

  lemma AnythingCanBeRead(me: Endpoint, peer: Endpoint, d: Chunk)
    requires me.wpc.Select? && d != []
    ensures Can(me, peer, ReadLocal(d))
    ensures var m := Do(me, peer, ReadLocal(d)).0; m.readLog == me.readLog + [d] && m.wpc == Holding(d)
  {
  }

  lemma {:induction false} OpsAreCounted(ops: seq<Op>)
    ensures |ops| == Count(ops, OpPing) + Count(ops, OpPong) + Count(ops, OpClose)
  {
    if ops != [] {
      OpsAreCounted(ops[1..]);
      assert Count(ops, OpPing) == One(ops[0].OpPing?) + Count(ops[1..], OpPing);
      assert Count(ops, OpPong) == One(ops[0].OpPong?) + Count(ops[1..], OpPong);
      assert Count(ops, OpClose) == One(ops[0].OpClose?) + Count(ops[1..], OpClose);
    }
  }

  /**
   The queue of control frames never fills: at most eight of its ten places are ever taken, so a
   reader with a control frame in hand never waits for room, not even before the writer loop starts.
   */
  lemma QueueNeverFills(me: Endpoint, peer: Endpoint)
    requires Ends(me, peer)
    ensures |me.ops| + One(me.rpc.Enqueuing? && !me.rpc.op.OpClose?) <= 8 < QUEUE_SIZE
    ensures me.rpc.Enqueuing? && !me.wpc.WriterEnded? ==> Can(me, peer, SendOp)
  {
    EndsLaws(me, peer);
    OpsAreCounted(me.ops);
  }

  /** The far endpoint starts and sends its first ping; this one has not started yet. */
  lemma PingOnTheWire() returns (s: Pair)
    ensures Reached(s) && s.left == FRESH_ENDPOINT && s.right.out == [Ping]
  {
    hide Runs;
    hide Exec;
    var s1 := Apply(INITIAL, Step(false, Start));
    NoSteps();
    ReachStep(INITIAL, Step(false, Start));
    s := Apply(s1, Step(false, Tick));
    ReachStep(s1, Step(false, Tick));
  }

  /** The reader of this endpoint takes the ping, queues it and announces it to nobody. */
  lemma PingAnnounced(s: Pair) returns (t: Pair)
    requires Reached(s) && s.left == FRESH_ENDPOINT && s.right.out == [Ping]
    ensures Reached(t) && t.left.wpc.NotStarted? && t.left.rpc.Reading? && t.left.ops == [OpPing]
    ensures !t.left.notify.permit && t.left.notify.fut.Absent?
  {
    hide Reached;
    var s1 := Apply(s, Step(true, RecvFrame));
    var s2 := Apply(s1, Step(true, SendOp));
    t := Apply(s2, Step(true, NotifyOps));
    ReachStep(s, Step(true, RecvFrame));
    ReachStep(s1, Step(true, SendOp));
    ReachStep(s2, Step(true, NotifyOps));
  }

  /** The writer of this endpoint begins to listen only now. */
  lemma ListensTooLate(s: Pair) returns (t: Pair)
    requires Reached(s) && s.left.wpc.NotStarted? && s.left.rpc.Reading? && s.left.ops == [OpPing]
    requires !s.left.notify.permit && s.left.notify.fut.Absent?
    ensures Reached(t) && t.left.wpc.Select? && t.left.notify.fut.Waiting?
    ensures t.left.ops == [OpPing] && t.left.rpc.Reading?
  {
    hide Reached;
    var s1 := Apply(s, Step(true, Start));
    t := Apply(s1, Step(true, PollPending));
    ReachStep(s, Step(true, Start));
    ReachStep(s1, Step(true, PollPending));
  }

  /**
   The qualification is needed: a ping announced before the writer loop has created its first
   future is left in the queue, with the loop waiting and nobody about to wake it.
   */
  lemma EarlyFrameIsNotHeard()
    ensures exists s :: Reached(s) && s.left.wpc.Select? && s.left.notify.fut.Waiting? &&
                        s.left.ops == [OpPing] && s.left.rpc.Reading?
  {
    hide Reached;
    var sent := PingOnTheWire();
    var announced := PingAnnounced(sent);
    var unheard := ListensTooLate(announced);
  }

  lemma NoSteps()
    ensures Reached(INITIAL)
  {
    assert Runs(INITIAL, []) && Exec(INITIAL, []) == INITIAL;
  }

  lemma {:induction false} ReachFrom(s: Pair, steps: seq<Step>, st: Step)
    requires Runs(s, steps) && Enabled(Exec(s, steps), st)
    ensures Runs(s, steps + [st]) && Exec(s, steps + [st]) == Apply(Exec(s, steps), st)
    decreases |steps|
  {
    if steps == [] {
      assert (steps + [st])[1..] == [];
      assert Runs(Apply(s, st), []);
    } else {
      ReachFrom(Apply(s, steps[0]), steps[1..], st);
      assert (steps + [st])[1..] == steps[1..] + [st];
    }
  }

  lemma ReachNext(steps: seq<Step>, s: Pair, st: Step)
    requires Runs(INITIAL, steps) && Exec(INITIAL, steps) == s && Enabled(s, st)
    ensures Reached(Apply(s, st))
  {
    ReachFrom(INITIAL, steps, st);
  }

  lemma ReachStep(s: Pair, st: Step)
    requires Reached(s) && Enabled(s, st)
    ensures Reached(Apply(s, st))
  {
    var steps :| Runs(INITIAL, steps) && Exec(INITIAL, steps) == s;
    ReachNext(steps, s, st);
  }
}
