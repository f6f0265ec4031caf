/**
 The UDP demultiplexer: one socket shared by the server task, which only peeks at the head
 datagram, and by one stream per peer, which takes datagrams off the socket when the server
 has cleared it to. Every await point and every access to shared state is a step of its own,
 so an action sequence is an arbitrary interleaving of arrivals, server steps, stream polls
 and stream drops.
 */
module UdpDemux {
  import opened Notify

  type Peer = nat
  datatype Datagram = Datagram(peer: Peer, payload: seq<nat>)

  /** Where a stream stands in `poll_read` or in its drop. */
  datatype Phase =
    | Parked    // `pending_notification` is set
    | Cleared   // it completed and was cleared; the next thing is `poll_recv_from`
    | Took      // a datagram was received, the notification is not re-armed yet
    | Rearmed   // re-armed, the server is not told yet
    | Dropping  // the drop has pushed the key, the server is not told yet
    | Dropped

  /** A stream with its `IoInner`: `data` is `has_data_to_read`, `read` is `has_read_data`. */
  datatype Stream = Stream(peer: Peer, phase: Phase, data: Notify, read: Notify) {
    predicate Live() {
      phase.Parked? || phase.Cleared? || phase.Took? || phase.Rearmed?
    }

    /** The stream's next poll goes for the socket. */
    predicate CanTake() {
      phase.Cleared? || (phase.Parked? && data.Ready())
    }

    /** The stream holds the right to read, or has used it without telling the server yet. */
    predicate HoldsToken() {
      CanTake() || phase.Took? || phase.Rearmed?
    }
  }

  datatype ServerPc =
    | Yielded(peer: Peer)  // a new stream was handed out, `peer_with_data` is its peer
    | LoopTop
    | Peeking              // the dead keys are swept, `peek_sender` is awaited
    | Peeked(peer: Peer)
    | Handed(id: nat)      // about to await `has_read_data` of this stream
    | AwaitRead(id: nat)
    | Stopped(was: int)    // `was` remembers the stream it was committed to, -1 for none

  datatype State = State(
    queue: seq<Datagram>,
    streams: seq<Stream>,
    peers: map<Peer, nat>,
    deadKeys: seq<Peer>,
    pc: ServerPc,
    arrived: seq<Datagram>,
    delivered: seq<(nat, Datagram)>)

  datatype Action =
    | Arrive(d: Datagram)
    // server task
    | Resume | Await | Wake | Sweep | Peek | PeekFails | Serve | Accept | AcceptFails | Cancel
    // stream `id`
    | PollNotified(id: nat) | Recv(id: nat) | Rearm(id: nat) | Signal(id: nat)
    | DropPush(id: nat) | DropSignal(id: nat)

  const INITIAL := State([], [], map[], [], LoopTop, [], [])

  /** A stream as `UdpStream::new` builds it, after the server's `notify_waiters`. */
  function NewStream(p: Peer): Stream {
    Stream(p, Parked, FRESH.Create().NotifyWaiters(), FRESH)
  }

  predicate Enabled(s: State, a: Action) {
    match a
    case Arrive(_) => true
    case Resume => s.pc.Yielded?
    case Await => s.pc.Handed? && s.pc.id < |s.streams|
    case Wake => s.pc.AwaitRead? && s.pc.id < |s.streams| && s.streams[s.pc.id].read.Ready()
    case Sweep => s.pc.LoopTop?
    case Peek => s.pc.Peeking? && s.queue != []
    case PeekFails => s.pc.Peeking?
    case Serve => s.pc.Peeked? && s.pc.peer in s.peers && s.peers[s.pc.peer] < |s.streams|
    case Accept => s.pc.Peeked? && s.pc.peer !in s.peers
    case AcceptFails => s.pc.Peeked? && s.pc.peer !in s.peers
    case Cancel => s.pc.AwaitRead? ==> s.pc.id < |s.streams|
    case PollNotified(id) => id < |s.streams| && s.streams[id].phase.Parked?
    case Recv(id) => id < |s.streams| && s.streams[id].phase.Cleared? && s.queue != []
    case Rearm(id) => id < |s.streams| && s.streams[id].phase.Took?
    case Signal(id) => id < |s.streams| && s.streams[id].phase.Rearmed?
    case DropPush(id) => id < |s.streams| && (s.streams[id].phase.Parked? || s.streams[id].phase.Cleared?)
    case DropSignal(id) => id < |s.streams| && s.streams[id].phase.Dropping?
  }

  /** The stream the server is committed to, or was when it stopped; -1 for none. */
  function Committed(pc: ServerPc, peers: map<Peer, nat>): int {
    match pc
    case Yielded(p) => if p in peers then peers[p] else -1
    case Handed(i) => i
    case AwaitRead(i) => i
    case Stopped(was) => was
    case _ => -1
  }

  function WithStream(s: State, id: nat, st: Stream): State
    requires id < |s.streams|
  {
    s.(streams := s.streams[id := st])
  }

  function Apply(s: State, a: Action): State
    requires Enabled(s, a)
  {
    match a
    case Arrive(d) => s.(queue := s.queue + [d], arrived := s.arrived + [d])
    case Resume => s.(pc := if s.pc.peer in s.peers then Handed(s.peers[s.pc.peer]) else LoopTop)
    case Await =>
      var st := s.streams[s.pc.id];
      var fut := st.read.Create();
      WithStream(s, s.pc.id, st.(read := fut.Poll()))
      .(pc := if fut.Ready() then LoopTop else AwaitRead(s.pc.id))
    case Wake =>
      var st := s.streams[s.pc.id];
      WithStream(s, s.pc.id, st.(read := st.read.Poll())).(pc := LoopTop)
    case Sweep => s.(peers := s.peers - (set k | k in s.deadKeys), deadKeys := [], pc := Peeking)
    case Peek => s.(pc := Peeked(s.queue[0].peer))
    case PeekFails => s.(pc := Stopped(-1))
    case Serve =>
      var id := s.peers[s.pc.peer];
      var st := s.streams[id];
      WithStream(s, id, st.(data := st.data.NotifyOne())).(pc := Handed(id))
    case Accept =>
      s.(streams := s.streams + [NewStream(s.pc.peer)],
         peers := s.peers[s.pc.peer := |s.streams|],
         pc := Yielded(s.pc.peer))
    case AcceptFails => s.(pc := Stopped(-1))
    case Cancel =>
      (if s.pc.AwaitRead? then
         var st := s.streams[s.pc.id];
         WithStream(s, s.pc.id, st.(read := st.read.Drop()))
       else s).(pc := Stopped(Committed(s.pc, s.peers)))
    case PollNotified(id) =>
      var st := s.streams[id];
      WithStream(s, id, st.(data := st.data.Poll(), phase := if st.data.Ready() then Cleared else Parked))
    case Recv(id) =>
      WithStream(s, id, s.streams[id].(phase := Took))
      .(queue := s.queue[1..], delivered := s.delivered + [(id, s.queue[0])])
    case Rearm(id) =>
      var st := s.streams[id];
      WithStream(s, id, st.(data := st.data.Create().Enable(), phase := Rearmed))
    case Signal(id) =>
      var st := s.streams[id];
      WithStream(s, id, st.(read := st.read.NotifyOne(), phase := Parked))
    case DropPush(id) =>
      WithStream(s, id, s.streams[id].(phase := Dropping))
      .(deadKeys := if s.pc.Stopped? then s.deadKeys else s.deadKeys + [s.streams[id].peer])
    case DropSignal(id) =>
      var st := s.streams[id];
      WithStream(s, id, st.(data := st.data.Drop(), read := st.read.NotifyOne(), phase := Dropped))
  }

  /** The action sequence can be taken from `s`. */
  predicate Runs(s: State, acts: seq<Action>)
    decreases |acts|
  {
    acts == [] || (Enabled(s, acts[0]) && Runs(Apply(s, acts[0]), acts[1..]))
  }

  function Exec(s: State, acts: seq<Action>): State
    requires Runs(s, acts)
    decreases |acts|
  {
    if acts == [] then s else Exec(Apply(s, acts[0]), acts[1..])
  }

  // ----- the invariant -----

  /** The registry is about existing streams, and the server is committed to a registered one. */
  ghost predicate Registry(s: State) {
    && (forall p :: p in s.peers ==> s.peers[p] < |s.streams| && s.streams[s.peers[p]].peer == p)
    && (forall k :: k in s.deadKeys && !s.pc.Stopped? ==> k in s.peers)
    && (s.pc.Yielded? ==> s.pc.peer in s.peers)
    && (s.pc.Handed? || s.pc.AwaitRead? ==>
          s.pc.id < |s.streams| && s.streams[s.pc.id].peer in s.peers && s.peers[s.streams[s.pc.id].peer] == s.pc.id)
    && (s.pc.Peeked? ==> s.queue != [] && s.queue[0].peer == s.pc.peer)
  }

  /** A live stream is registered and not listed as dead; a registered dead one is listed. */
  ghost predicate Registered(st: Stream, i: nat, peers: map<Peer, nat>, deadKeys: seq<Peer>) {
    && (st.Live() ==> st.peer in peers && peers[st.peer] == i && st.peer !in deadKeys)
    && (!st.Live() && st.peer in peers && peers[st.peer] == i ==> st.peer in deadKeys)
  }

  /** Only the committed stream holds the token, and what it may take is its own. */
  ghost predicate Token(st: Stream, i: nat, committed: int, queue: seq<Datagram>) {
    && (st.HoldsToken() ==> i == committed)
    && (st.CanTake() ==> queue != [] && queue[0].peer == st.peer)
  }

  /** What the two notifications of one stream can look like. */
  ghost predicate Notifications(st: Stream, i: nat, pc: ServerPc, committed: int) {
    // the server's own future exists only while it awaits this stream
    && (if pc == AwaitRead(i) then st.read.fut.Waiting? || st.read.fut.Woken? else st.read.fut.Absent?)
    && (st.read.permit ==> !st.read.fut.Waiting?)
    && (st.Live() ==>
          && !st.data.permit
          && (st.phase.Parked? ==> st.data.Ready() || st.data.fut.Waiting?)
          && (st.phase.Cleared? || st.phase.Took? ==> st.data.fut.Absent?)
          && (st.phase.Rearmed? ==> st.data.fut.Waiting?)
          && !(st.read.permit && st.read.fut.Woken?)
          // an answer is pending only when the server waits for it and the token is back
          && (!pc.Stopped? && (st.read.permit || st.read.fut.Woken?) ==> i == committed && !st.HoldsToken()))
  }

  /** The server never waits for an answer that nobody is going to give. */
  ghost predicate Answered(st: Stream, i: nat, pc: ServerPc, peers: map<Peer, nat>) {
    && (!pc.Stopped? && i == Committed(pc, peers) ==>
          st.read.permit || st.read.fut.Woken? || st.HoldsToken() || st.phase.Dropping?)
    // the answer a dropped stream leaves behind lasts until its key is swept
    && (!pc.Stopped? && st.phase.Dropped? && st.peer in peers && peers[st.peer] == i ==>
          st.read.permit || st.read.fut.Woken? || pc.LoopTop?)
  }

  ghost predicate StreamOk(st: Stream, i: nat, pc: ServerPc, peers: map<Peer, nat>, deadKeys: seq<Peer>,
          queue: seq<Datagram>) {
    && (!pc.Stopped? ==> Registered(st, i, peers, deadKeys))
    && Token(st, i, Committed(pc, peers), queue)
    && Notifications(st, i, pc, Committed(pc, peers))
    && Answered(st, i, pc, peers)
  }

  ghost predicate Ledger(s: State) {
    && Datagrams(s.delivered) + s.queue == s.arrived
    && (forall k :: 0 <= k < |s.delivered| ==>
          s.delivered[k].0 < |s.streams| && s.streams[s.delivered[k].0].peer == s.delivered[k].1.peer)
  }

  ghost predicate Inv(s: State) {
    && Registry(s)
    && (forall i :: 0 <= i < |s.streams| ==> StreamOk(s.streams[i], i, s.pc, s.peers, s.deadKeys, s.queue))
    && Ledger(s)
  }

  function Datagrams(log: seq<(nat, Datagram)>): (r: seq<Datagram>)
    ensures |r| == |log|
    ensures forall k :: 0 <= k < |log| ==> r[k] == log[k].1
  {
    seq(|log|, k requires 0 <= k < |log| => log[k].1)
  }
}
