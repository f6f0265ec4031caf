/** What every interleaving of the UDP demultiplexer keeps, and that no datagram is stranded. */
module UdpDemuxSafety {
  import opened UdpDemux

  // ----- every step keeps the invariant -----

  lemma ArriveKeepsInv(s: State, d: Datagram)
    requires Inv(s)
    ensures Inv(Apply(s, Arrive(d)))
  {
    assert Datagrams(s.delivered) + (s.queue + [d]) == s.arrived + [d];
  }

  lemma ResumeKeepsInv(s: State)
    requires Inv(s) && Enabled(s, Resume)
    ensures Inv(Apply(s, Resume))
  {
  }

  lemma AwaitKeepsInv(s: State)
    requires Inv(s) && Enabled(s, Await)
    ensures Inv(Apply(s, Await))
  {
  }

  lemma WakeKeepsInv(s: State)
    requires Inv(s) && Enabled(s, Wake)
    ensures Inv(Apply(s, Wake))
  {
  }

  lemma SweepKeepsInv(s: State)
    requires Inv(s) && Enabled(s, Sweep)
    ensures Inv(Apply(s, Sweep))
  {
  }

  lemma PeekKeepsInv(s: State)
    requires Inv(s) && Enabled(s, Peek)
    ensures Inv(Apply(s, Peek))
  {
  }

  lemma ServeKeepsInv(s: State)
    requires Inv(s) && Enabled(s, Serve)
    ensures Inv(Apply(s, Serve))
  {
  }

  lemma AcceptedIsOk(s: State)
    requires Inv(s) && Enabled(s, Accept)
    ensures var t := Apply(s, Accept); StreamOk(NewStream(s.pc.peer), |s.streams|, t.pc, t.peers, t.deadKeys, t.queue)
  {
    hide Ledger;
  }

  lemma AcceptSparesOthers(s: State, i: nat)
    requires Inv(s) && Enabled(s, Accept) && i < |s.streams|
    ensures var t := Apply(s, Accept); StreamOk(s.streams[i], i, t.pc, t.peers, t.deadKeys, t.queue)
  {
    hide Ledger;
    assert StreamOk(s.streams[i], i, s.pc, s.peers, s.deadKeys, s.queue);
  }

  lemma AcceptKeepsInv(s: State)
    requires Inv(s) && Enabled(s, Accept)
    ensures Inv(Apply(s, Accept))
  {
    hide StreamOk;
    hide Datagrams;
    AcceptedIsOk(s);
    forall i | 0 <= i < |s.streams|
      ensures var t := Apply(s, Accept); StreamOk(s.streams[i], i, t.pc, t.peers, t.deadKeys, t.queue)
    {
      AcceptSparesOthers(s, i);
    }
  }

  lemma FailureKeepsInv(s: State, a: Action)
    requires Inv(s) && Enabled(s, a) && (a.PeekFails? || a.AcceptFails?)
    ensures Inv(Apply(s, a))
  {
    hide Datagrams;
  }

  lemma CancelKeepsInv(s: State)
    requires Inv(s) && Enabled(s, Cancel)
    ensures Inv(Apply(s, Cancel))
  {
    hide Datagrams;
  }

  lemma PollNotifiedKeepsInv(s: State, id: nat)
    requires Inv(s) && Enabled(s, PollNotified(id))
    ensures Inv(Apply(s, PollNotified(id)))
  {
  }

  lemma RecvKeepsInv(s: State, id: nat)
    requires Inv(s) && Enabled(s, Recv(id))
    ensures Inv(Apply(s, Recv(id)))
  {
  }

  lemma RearmKeepsInv(s: State, id: nat)
    requires Inv(s) && Enabled(s, Rearm(id))
    ensures Inv(Apply(s, Rearm(id)))
  {
    hide Datagrams;
  }

  lemma SignalKeepsInv(s: State, id: nat)
    requires Inv(s) && Enabled(s, Signal(id))
    ensures Inv(Apply(s, Signal(id)))
  {
    hide Datagrams;
  }

  lemma DropPushKeepsRegistry(s: State, id: nat)
    requires Inv(s) && Enabled(s, DropPush(id))
    ensures Registry(Apply(s, DropPush(id)))
  {
  }

  lemma DropPushKeepsInv(s: State, id: nat)
    requires Inv(s) && Enabled(s, DropPush(id))
    ensures Inv(Apply(s, DropPush(id)))
  {
    DropPushKeepsRegistry(s, id);
  }

  lemma DropSignalKeepsInv(s: State, id: nat)
    requires Inv(s) && Enabled(s, DropSignal(id))
    ensures Inv(Apply(s, DropSignal(id)))
  {
  }

  lemma StepKeepsInv(s: State, a: Action)
    requires Inv(s) && Enabled(s, a)
    ensures Inv(Apply(s, a))
  {
    match a
    case Arrive(d) => ArriveKeepsInv(s, d);
    case Resume => ResumeKeepsInv(s);
    case Await => AwaitKeepsInv(s);
    case Wake => WakeKeepsInv(s);
    case Sweep => SweepKeepsInv(s);
    case Peek => PeekKeepsInv(s);
    case Serve => ServeKeepsInv(s);
    case Accept => AcceptKeepsInv(s);
    case PollNotified(id) => PollNotifiedKeepsInv(s, id);
    case Recv(id) => RecvKeepsInv(s, id);
    case Rearm(id) => RearmKeepsInv(s, id);
    case Signal(id) => SignalKeepsInv(s, id);
    case DropPush(id) => DropPushKeepsInv(s, id);
    case DropSignal(id) => DropSignalKeepsInv(s, id);
    case Cancel => CancelKeepsInv(s);
    case _ => FailureKeepsInv(s, a);
  }

  lemma {:induction false} RunKeepsInv(s: State, acts: seq<Action>)
    requires Inv(s) && Runs(s, acts)
    ensures Inv(Exec(s, acts))
    decreases |acts|
  {
    if acts != [] {
      StepKeepsInv(s, acts[0]);
      RunKeepsInv(Apply(s, acts[0]), acts[1..]);
    }
  }

  /** The state that an interleaving leads to from the start. */
  ghost predicate Reached(s: State) {
    exists acts :: Runs(INITIAL, acts) && Exec(INITIAL, acts) == s
  }

  lemma ReachedInv(s: State)
    requires Reached(s)
    ensures Inv(s)
  {
    var acts :| Runs(INITIAL, acts) && Exec(INITIAL, acts) == s;
    RunKeepsInv(INITIAL, acts);
  }

  // ----- the promises -----

  /**
   At most one stream is cleared to take from the socket, and whichever stream is about to
   take finds a datagram of its own peer at the head: the assertion in `poll_read` holds.
   */
  lemma TokenIsExclusive(s: State, i: nat, j: nat)
    requires Reached(s) && i < |s.streams| && j < |s.streams|
    ensures s.streams[i].HoldsToken() && s.streams[j].HoldsToken() ==> i == j
    ensures s.streams[i].CanTake() ==> s.queue != [] && s.queue[0].peer == s.streams[i].peer
    ensures Enabled(s, Recv(i)) ==>
              Apply(s, Recv(i)).delivered == s.delivered + [(i, Datagram(s.streams[i].peer, s.queue[0].payload))]
  {
    ReachedInv(s);
  }

  /** The datagrams of one peer, in order. */
  function OfPeer(ds: seq<Datagram>, p: Peer): seq<Datagram> {
    if ds == [] then []
    else (if ds[0].peer == p then [ds[0]] else []) + OfPeer(ds[1..], p)
  }

  /** What the streams of one peer received, in order. */
  function ReceivedBy(log: seq<(nat, Datagram)>, streams: seq<Stream>, p: Peer): seq<Datagram>
    requires forall k :: 0 <= k < |log| ==> log[k].0 < |streams|
  {
    if log == [] then []
    else (if streams[log[0].0].peer == p then [log[0].1] else []) + ReceivedBy(log[1..], streams, p)
  }

  lemma OfPeerCons(d: Datagram, rest: seq<Datagram>, p: Peer)
    ensures OfPeer([d] + rest, p) == (if d.peer == p then [d] else []) + OfPeer(rest, p)
  {
    assert ([d] + rest)[1..] == rest;
  }

  lemma {:induction false} OfPeerConcat(a: seq<Datagram>, b: seq<Datagram>, p: Peer)
    ensures OfPeer(a + b, p) == OfPeer(a, p) + OfPeer(b, p)
  {
    if a == [] {
      assert a + b == b;
    } else {
      hide OfPeer;
      var d, rest := a[0], a[1..];
      OfPeerConcat(rest, b, p);
      OfPeerCons(d, rest, p);
      OfPeerCons(d, rest + b, p);
      assert a == [d] + rest && a + b == [d] + (rest + b);
    }
  }

  lemma {:induction false} ReceivedIsOfPeer(log: seq<(nat, Datagram)>, streams: seq<Stream>, p: Peer)
    requires forall k :: 0 <= k < |log| ==> log[k].0 < |streams| && streams[log[k].0].peer == log[k].1.peer
    ensures ReceivedBy(log, streams, p) == OfPeer(Datagrams(log), p)
  {
    if log != [] {
      ReceivedIsOfPeer(log[1..], streams, p);
      assert Datagrams(log)[1..] == Datagrams(log[1..]);
    }
  }

  /**
   No datagram is lost, duplicated, reordered or misrouted: the deliveries followed by what
   is still queued are the arrivals, and for every peer its streams received exactly its
   datagrams, in order of arrival, up to those still queued.
   */
  lemma DeliveryIsFaithful(s: State, p: Peer)
    requires Reached(s)
    ensures Datagrams(s.delivered) + s.queue == s.arrived
    ensures forall k :: 0 <= k < |s.delivered| ==> s.delivered[k].0 < |s.streams|
    ensures ReceivedBy(s.delivered, s.streams, p) + OfPeer(s.queue, p) == OfPeer(s.arrived, p)
  {
    ReachedInv(s);
    ReceivedIsOfPeer(s.delivered, s.streams, p);
    OfPeerConcat(Datagrams(s.delivered), s.queue, p);
  }

  /**
   While the server runs, the registered peers are exactly the disjoint union of the peers of
   live streams and the dead-listed keys; each live stream is registered under its own io, no
   two live streams share a peer, and a sweep never evicts a live stream.
   */
  lemma RegistryIsExact(s: State)
    requires Reached(s) && !s.pc.Stopped?
    ensures s.peers.Keys ==
            (set i | 0 <= i < |s.streams| && s.streams[i].Live() :: s.streams[i].peer) + (set k | k in s.deadKeys)
    ensures (set i | 0 <= i < |s.streams| && s.streams[i].Live() :: s.streams[i].peer) !! (set k | k in s.deadKeys)
    ensures forall i :: 0 <= i < |s.streams| && s.streams[i].Live() ==>
              s.streams[i].peer in s.peers && s.peers[s.streams[i].peer] == i
    ensures forall i, j :: 0 <= i < j < |s.streams| && s.streams[i].Live() && s.streams[j].Live() ==>
              s.streams[i].peer != s.streams[j].peer
    ensures Enabled(s, Sweep) ==> forall i :: 0 <= i < |s.streams| && s.streams[i].Live() ==>
              s.streams[i].peer in Apply(s, Sweep).peers
  {
    ReachedInv(s);
  }

  /** After handing out a stream the server always finds its peer registered. */
  lemma AwaitedPeerIsRegistered(s: State)
    requires Reached(s) && s.pc.Yielded?
    ensures s.pc.peer in s.peers && Apply(s, Resume).pc == Handed(s.peers[s.pc.peer])
  {
    ReachedInv(s);
  }

  // ----- no datagram is stranded -----

  /** Taken by the server or by a stream on its own account: no arrival, new drop or failure. */
  predicate Helpful(a: Action) {
    !(a.Arrive? || a.PeekFails? || a.AcceptFails? || a.Cancel? || a.DropPush?)
  }

  /** The step that brings the head datagram closer to its stream. */
  function NextStep(s: State): Action {
    var f := Committed(s.pc, s.peers);
    if 0 <= f < |s.streams| && s.streams[f].CanTake() then
      if s.streams[f].phase.Parked? then PollNotified(f) else Recv(f)
    else if 0 <= f < |s.streams| && s.streams[f].phase.Took? then Rearm(f)
    else if 0 <= f < |s.streams| && s.streams[f].phase.Rearmed? then Signal(f)
    else if 0 <= f < |s.streams| && s.streams[f].phase.Dropping? then DropSignal(f)
    else match s.pc
      case Yielded(_) => Resume
      case LoopTop => Sweep
      case Peeking => Peek
      case Peeked(p) => if p in s.peers then Serve else Accept
      case Handed(_) => Await
      case AwaitRead(_) => Wake
      case Stopped(_) => Cancel
  }

  /** How far the head datagram is from being taken, given whether dead keys await a sweep. */
  function Distance(s: State): nat {
    var f := Committed(s.pc, s.peers);
    var peekFirst := if s.deadKeys == [] then 0 else 6;
    var answer := if s.deadKeys == [] then 3 else 0;
    if 0 <= f < |s.streams| && s.streams[f].CanTake() then
      if s.streams[f].phase.Parked? then 2 else 1
    else if 0 <= f < |s.streams| && s.streams[f].phase.Took? then 7 + answer
    else if 0 <= f < |s.streams| && (s.streams[f].phase.Rearmed? || s.streams[f].phase.Dropping?) then 6 + answer
    else match s.pc
      case Yielded(_) => 5 + answer
      case Handed(_) => 4 + answer
      case AwaitRead(_) => 4 + answer
      case LoopTop => 3 + answer
      case Peeking => 4 + peekFirst
      case Peeked(_) => 3 + peekFirst
      case Stopped(_) => 0
  }

  predicate Closer(s: State, t: State) {
    || |t.queue| < |s.queue|
    || (|t.queue| == |s.queue| && s.deadKeys != [] && t.deadKeys == [])
    || (|t.queue| == |s.queue| && (s.deadKeys == [] <==> t.deadKeys == []) && Distance(t) < Distance(s))
  }

  /** The committed stream holds the token, is in the middle of a poll, or is being dropped. */
  predicate FocusMoves(s: State) {
    var f := Committed(s.pc, s.peers);
    0 <= f < |s.streams| && (s.streams[f].HoldsToken() || s.streams[f].phase.Dropping?)
  }

  lemma StreamGetsCloser(s: State)
    requires Inv(s) && s.queue != [] && FocusMoves(s)
    ensures Enabled(s, NextStep(s)) && Helpful(NextStep(s))
    ensures Apply(s, NextStep(s)).pc == s.pc && Closer(s, Apply(s, NextStep(s)))
  {
  }

  lemma DispatchGetsCloser(s: State)
    requires Inv(s) && s.queue != [] && s.pc.Peeked?
    ensures Enabled(s, NextStep(s)) && Helpful(NextStep(s))
    ensures !Apply(s, NextStep(s)).pc.Stopped? && Closer(s, Apply(s, NextStep(s)))
  {
  }

  lemma ServerGetsCloser(s: State)
    requires Inv(s) && s.queue != [] && !s.pc.Stopped? && !s.pc.Peeked? && !FocusMoves(s)
    ensures Enabled(s, NextStep(s)) && Helpful(NextStep(s))
    ensures !Apply(s, NextStep(s)).pc.Stopped? && Closer(s, Apply(s, NextStep(s)))
  {
  }

  lemma NextStepGetsCloser(s: State)
    requires Inv(s) && !s.pc.Stopped? && s.queue != []
    ensures Enabled(s, NextStep(s)) && Helpful(NextStep(s))
    ensures !Apply(s, NextStep(s)).pc.Stopped? && Closer(s, Apply(s, NextStep(s)))
    ensures Apply(s, NextStep(s)).arrived == s.arrived
  {
    if FocusMoves(s) {
      StreamGetsCloser(s);
    } else if s.pc.Peeked? {
      DispatchGetsCloser(s);
    } else {
      ServerGetsCloser(s);
    }
  }

  /** A running server stops exactly by failing to peek or to make a stream, or by being cancelled. */
  lemma StopsExactlyByFailing(s: State, a: Action)
    requires Enabled(s, a) && !s.pc.Stopped?
    ensures Apply(s, a).pc.Stopped? <==> a == PeekFails || a == AcceptFails || a == Cancel
  {
  }

  /** And then for good: no stream is made, none is handed the token, no peer is registered or forgotten. */
  lemma {:induction false} StoppedForGood(s: State, acts: seq<Action>)
    requires s.pc.Stopped? && Runs(s, acts)
    ensures var t := Exec(s, acts); t.pc == s.pc && t.peers == s.peers && |t.streams| == |s.streams|
    decreases |acts|
  {
    if acts != [] {
      StoppedForGood(Apply(s, acts[0]), acts[1..]);
    }
  }
}
