/**
 Two tunnel endpoints joined by two first-in first-out wires, each endpoint running the writer
 loop `propagate_local_to_remote` and the reader loop `propagate_remote_to_local` over the
 websocket transport. The reader hands control frames to the writer through a bounded queue and
 a broadcast notification. Each step is one await-to-await stretch of one loop, so an action
 sequence is an arbitrary schedule of reads, pings, control frames, failures and closes.
 */
module Transport {
  import opened Notify

  type Chunk = seq<nat>
  datatype Frame = Binary(data: Chunk) | Ping | Pong | Close
  datatype Op = OpPing | OpPong | OpClose

  const QUEUE_SIZE := 10
  const MAX_IN_FLIGHT := 3
  const USIZE_MAX: nat := 0xFFFF_FFFF_FFFF_FFFF
  type Usize = x: nat | x <= USIZE_MAX

  datatype WriterPc =
    | NotStarted            // the reader task may already be running
    | Select
    | Draining              // inside `handle_pending_operations`
    | Holding(data: Chunk)  // read from the local side, not written yet
    | WriterEnded

  datatype ReaderPc =
    | Reading
    | Enqueuing(op: Op)     // a control frame was read, `pending_operations.send` is awaited
    | Notifying(op: Op)     // enqueued, `notify_waiters` comes next
    | WritingOut(data: Chunk)
    | ReaderEnded

  /**
   `out` is the wire towards the peer. The remaining fields record history: `lost` counts the
   endpoint's pings whose ping, pong or reply was destroyed with a loop that ended, `early` the
   control frames announced before the writer loop could hear, `cut`/`partial` a chunk whose
   writing out was interrupted, `dropped` a chunk that was read but could not be sent.
   */
  datatype Endpoint = Endpoint(
    inFlight: nat, ops: seq<Op>, notify: Notify, wpc: WriterPc, rpc: ReaderPc, out: seq<Frame>,
    lost: nat, early: nat,
    readLog: seq<Chunk>, writtenLog: seq<Chunk>, cut: seq<Chunk>, partial: Chunk, dropped: seq<Chunk>,
    received: seq<Op>, handled: seq<Op>)

  const FRESH_ENDPOINT := Endpoint(0, [], FRESH, NotStarted, Reading, [], 0, 0, [], [], [], [], [], [], [])

  datatype Act =
    // writer loop
    | Start | PollPending | DrainOne | DrainFails(closeOk: bool) | DrainDone
    | ReadLocal(data: Chunk) | WriteData | WriteFails(closeOk: bool)
    | LeaveLoop(closeOk: bool) | Tick | TickFails
    // reader loop
    | RecvFrame | WriteOut | WriteOutFails(n: nat) | SendOp | SendOpFails | NotifyOps
    | ReaderFails | CancelReader(n: nat)

  function Count<T(==)>(s: seq<T>, x: T): nat {
    if s == [] then 0 else (if s[0] == x then 1 else 0) + Count(s[1..], x)
  }

  function OpOf(f: Frame): Op
    requires !f.Binary?
  {
    match f
    case Ping => OpPing
    case Pong => OpPong
    case Close => OpClose
  }

  /** `fetch_sub(1)` on an unsigned counter, which wraps around below zero. */
  function FetchSub(n: nat): nat {
    if n == 0 then USIZE_MAX else n - 1
  }

  predicate Can(me: Endpoint, peer: Endpoint, a: Act) {
    match a
    case Start => me.wpc.NotStarted?
    case PollPending => me.wpc.Select?
    case DrainOne => me.wpc.Draining? && me.ops != []
    case DrainFails(_) => me.wpc.Draining? && me.ops != [] && !me.ops[0].OpPong?
    case DrainDone => me.wpc.Draining? && me.ops == []
    case ReadLocal(d) => me.wpc.Select? && d != []
    case WriteData => me.wpc.Holding?
    case WriteFails(_) => me.wpc.Holding?
    case LeaveLoop(_) => me.wpc.Select?
    case Tick => me.wpc.Select?
    case TickFails => me.wpc.Select? && me.inFlight < MAX_IN_FLIGHT
    case RecvFrame => me.rpc.Reading? && peer.out != []
    case WriteOut => me.rpc.WritingOut?
    case WriteOutFails(n) => me.rpc.WritingOut? && n <= |me.rpc.data|
    case SendOp => me.rpc.Enqueuing? && !me.wpc.WriterEnded? && |me.ops| < QUEUE_SIZE
    case SendOpFails => me.rpc.Enqueuing? && me.wpc.WriterEnded?
    case NotifyOps => me.rpc.Notifying?
    case ReaderFails => me.rpc.Reading?
    case CancelReader(n) =>
      me.wpc.WriterEnded? &&
      (me.rpc.Reading? || me.rpc.Enqueuing? || (me.rpc.WritingOut? && n <= |me.rpc.data|))
  }

  /** The writer loop ends: the queue is dropped with it, and a close frame may still get out. */
  function StopWriter(me: Endpoint, peer: Endpoint, sendClose: bool): (Endpoint, Endpoint) {
    (me.(wpc := WriterEnded, ops := [], early := 0,
         out := if sendClose then me.out + [Close] else me.out,
         lost := me.lost + Count(me.ops, OpPong)),
     peer.(lost := peer.lost + Count(me.ops, OpPing)))
  }

  /** The reader loop ends while holding what `rpc` holds; `n` bytes of a chunk got written. */
  function StopReader(me: Endpoint, peer: Endpoint, n: nat): (Endpoint, Endpoint)
    requires me.rpc.WritingOut? ==> n <= |me.rpc.data|
  {
    (me.(rpc := ReaderEnded,
         cut := if me.rpc.WritingOut? then [me.rpc.data] else [],
         partial := if me.rpc.WritingOut? then me.rpc.data[..n] else [],
         lost := me.lost + (if me.rpc == Enqueuing(OpPong) then 1 else 0)),
     peer.(lost := peer.lost + (if me.rpc == Enqueuing(OpPing) then 1 else 0)))
  }

  /** One step of endpoint `me`; the peer changes only in its history and in the wire read from. */
  function Do(me: Endpoint, peer: Endpoint, a: Act): (Endpoint, Endpoint)
    requires Can(me, peer, a)
  {
    match a
    case Start =>
      (me.(wpc := Select, notify := me.notify.Create(),
           early := if me.rpc.Notifying? && me.ops != [] then |me.ops| - 1 else |me.ops|), peer)
    case PollPending =>
      if me.notify.Ready() then (me.(wpc := Draining, notify := me.notify.Poll().Create(), early := 0), peer)
      else (me.(notify := me.notify.Poll()), peer)
    case DrainOne =>
      var rest := me.(ops := me.ops[1..], handled := me.handled + [me.ops[0]]);
      (match me.ops[0]
       case OpPing => rest.(out := me.out + [Pong])
       case OpPong => rest.(inFlight := FetchSub(me.inFlight))
       case OpClose => rest.(out := me.out + [Close]), peer)
    case DrainFails(closeOk) => StopWriter(me, peer, closeOk)
    case DrainDone => (me.(wpc := Select), peer)
    case ReadLocal(d) => (me.(wpc := Holding(d), readLog := me.readLog + [d]), peer)
    case WriteData => (me.(wpc := Select, out := me.out + [Binary(me.wpc.data)]), peer)
    case WriteFails(closeOk) => StopWriter(me.(dropped := [me.wpc.data]), peer, closeOk)
    case LeaveLoop(closeOk) => StopWriter(me, peer, closeOk)
    case Tick =>
      if me.inFlight >= MAX_IN_FLIGHT then
        StopWriter(me.(inFlight := me.inFlight + 1, lost := me.lost + 1), peer, false)
      else (me.(inFlight := me.inFlight + 1, out := me.out + [Ping]), peer)
    case TickFails => StopWriter(me.(inFlight := me.inFlight + 1, lost := me.lost + 1), peer, false)
    case RecvFrame =>
      var f := peer.out[0];
      (if f.Binary? then me.(rpc := WritingOut(f.data))
       else me.(rpc := Enqueuing(OpOf(f)), received := me.received + [OpOf(f)]),
       peer.(out := peer.out[1..]))
    case WriteOut => (me.(rpc := Reading, writtenLog := me.writtenLog + [me.rpc.data]), peer)
    case WriteOutFails(n) => StopReader(me, peer, n)
    case SendOp => (me.(rpc := Notifying(me.rpc.op), ops := me.ops + [me.rpc.op]), peer)
    case SendOpFails => StopReader(me, peer, 0)
    case NotifyOps =>
      (me.(rpc := if me.rpc.op.OpClose? then ReaderEnded else Reading, notify := me.notify.NotifyWaiters()), peer)
    case ReaderFails => StopReader(me, peer, 0)
    case CancelReader(n) => StopReader(me, peer, n)
  }

  // ----- runs of the pair -----

  datatype Pair = Pair(left: Endpoint, right: Endpoint)
  datatype Step = Step(onLeft: bool, act: Act)

  predicate Enabled(s: Pair, st: Step) {
    if st.onLeft then Can(s.left, s.right, st.act) else Can(s.right, s.left, st.act)
  }

  function Apply(s: Pair, st: Step): Pair
    requires Enabled(s, st)
  {
    if st.onLeft then
      var (l, r) := Do(s.left, s.right, st.act); Pair(l, r)
    else
      var (r, l) := Do(s.right, s.left, st.act); Pair(l, r)
  }

  predicate Runs(s: Pair, steps: seq<Step>)
    decreases |steps|
  {
    steps == [] || (Enabled(s, steps[0]) && Runs(Apply(s, steps[0]), steps[1..]))
  }

  function Exec(s: Pair, steps: seq<Step>): Pair
    requires Runs(s, steps)
    decreases |steps|
  {
    if steps == [] then s else Exec(Apply(s, steps[0]), steps[1..])
  }

  const INITIAL := Pair(FRESH_ENDPOINT, FRESH_ENDPOINT)

  ghost predicate Reached(s: Pair) {
    exists steps :: Runs(INITIAL, steps) && Exec(INITIAL, steps) == s
  }

  // ----- the laws -----

  function One(b: bool): nat { if b then 1 else 0 }

  /** Where a ping of `me` that was not answered yet can be. */
  function Outstanding(me: Endpoint, peer: Endpoint): nat {
    Count(me.out, Ping) + One(peer.rpc == Enqueuing(OpPing)) + Count(peer.ops, OpPing)
    + Count(peer.out, Pong) + One(me.rpc == Enqueuing(OpPong)) + Count(me.ops, OpPong)
  }

  ghost predicate PingLaw(me: Endpoint, peer: Endpoint) {
    && me.inFlight == Outstanding(me, peer) + me.lost
    && (!me.wpc.WriterEnded? ==> me.inFlight <= MAX_IN_FLIGHT)
    && me.inFlight <= MAX_IN_FLIGHT + 1
    && (me.lost > 0 ==> me.wpc.WriterEnded? || peer.wpc.WriterEnded?)
  }

  /** The payloads of the data frames on a wire. */
  function Binaries(fs: seq<Frame>): seq<Chunk> {
    if fs == [] then [] else (if fs[0].Binary? then [fs[0].data] else []) + Binaries(fs[1..])
  }

  function InHand(me: Endpoint): seq<Chunk> {
    if me.wpc.Holding? then [me.wpc.data] else me.dropped
  }

  function BeingWritten(peer: Endpoint): seq<Chunk> {
    if peer.rpc.WritingOut? then [peer.rpc.data] else peer.cut
  }

  /** Every chunk read at `me` is, in order, written at `peer`, being written, on the wire or in hand. */
  ghost predicate StreamLaw(me: Endpoint, peer: Endpoint) {
    && me.readLog == peer.writtenLog + BeingWritten(peer) + Binaries(me.out) + InHand(me)
    && (!me.wpc.WriterEnded? ==> me.dropped == [])
    && |me.dropped| <= 1 && |peer.cut| <= 1
    && (!peer.rpc.ReaderEnded? ==> peer.cut == [] && peer.partial == [])
    && (peer.cut == [] ==> peer.partial == [])
    && (peer.cut != [] ==> peer.partial <= peer.cut[0])
  }

  /** A control frame that was announced to a running writer loop wakes it. */
  ghost predicate WakeLaw(me: Endpoint) {
    && !me.notify.permit && |me.ops| <= QUEUE_SIZE
    && (me.notify.fut.Init? ==> me.notify.fut.seenCalls <= me.notify.calls)
    && (me.wpc.NotStarted? ==> me.notify.fut.Absent? && (me.rpc.Notifying? ==> me.ops != []))
    && (!me.wpc.NotStarted? && !me.wpc.WriterEnded? ==> !me.notify.fut.Absent?)
    && ((me.wpc.Select? || me.wpc.Holding?) && !me.notify.Ready() ==>
          me.early <= |me.ops| <= me.early + One(me.rpc.Notifying?))
    && (me.wpc.Draining? ==> me.early == 0 && (!me.notify.Ready() ==> me.notify.fut == Init(me.notify.calls)))
  }

  /** Control frames are handled in the order they were received. */
  ghost predicate FifoLaw(me: Endpoint) {
    && me.handled <= me.received
    && (!me.wpc.WriterEnded? ==>
          me.received == me.handled + me.ops + (if me.rpc.Enqueuing? then [me.rpc.op] else []))
  }

  /** At most one close is queued: the reader queues nothing after it. The queue dies with its writer. */
  ghost predicate CloseLaw(me: Endpoint) {
    && (me.wpc.WriterEnded? ==> me.ops == [])
    && Count(me.ops, OpClose) <= 1
    && (Count(me.ops, OpClose) == 1 ==> me.rpc == Notifying(OpClose) || me.rpc.ReaderEnded?)
  }
}
