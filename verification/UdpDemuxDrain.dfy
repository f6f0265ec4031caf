/**
 Every schedule of the UDP demultiplexer drains: however the server's and the streams' own steps are
 interleaved, only so many of them can change anything, and when none can any more every datagram
 has been delivered.
 */
module UdpDemuxDrain {
  import opened UdpDemux
  import opened UdpDemuxSafety

  /** What a stream has still to do by itself. */
  function Effort(st: Stream): nat {
    match st.phase
    case Parked => if st.data.Ready() then 2 else 0
    case Cleared => 1
    case Took => 10
    case Rearmed => 9
    case Dropping => 1
    case Dropped => 0
  }

  function Efforts(streams: seq<Stream>): nat {
    if streams == [] then 0 else Efforts(streams[..|streams| - 1]) + Effort(streams[|streams| - 1])
  }

  lemma {:induction false} EffortsOfUpdate(streams: seq<Stream>, id: nat, st: Stream)
    requires id < |streams|
    ensures Efforts(streams[id := st]) == Efforts(streams) - Effort(streams[id]) + Effort(st)
    ensures Efforts(streams) >= Effort(streams[id])
  {
    var init := streams[..|streams| - 1];
    if id == |streams| - 1 {
      assert streams[id := st][..|streams| - 1] == init;
    } else {
      assert streams[id := st][..|streams| - 1] == init[id := st];
      EffortsOfUpdate(init, id, st);
    }
  }

  lemma EffortsOfNew(streams: seq<Stream>, st: Stream)
    ensures Efforts(streams + [st]) == Efforts(streams) + Effort(st)
  {
    assert (streams + [st])[..|streams|] == streams;
  }

  /** The stream the server is committed to has answered. */
  predicate Answer(s: State) {
    var f := Committed(s.pc, s.peers);
    0 <= f < |s.streams| && (s.streams[f].read.permit || s.streams[f].read.fut.Woken?)
  }

  /**
   How far the server is from having to wait. Without dead keys a turn of its loop is paid for by
   the datagram that was taken; with dead keys the next sweep pays.
   */
  function ServerEffort(s: State): nat {
    if s.deadKeys == [] then
      match s.pc
      case LoopTop => 8
      case Peeking => 7
      case Peeked(_) => 6
      case Yielded(_) => if Answer(s) then 11 else 3
      case Handed(_) => if Answer(s) then 10 else 2
      case AwaitRead(_) => if Answer(s) then 9 else 1
      case Stopped(_) => 0
    else
      match s.pc
      case LoopTop => 8
      case Peeking => 15
      case Peeked(_) => 14
      case Yielded(_) => 11
      case Handed(_) => 10
      case AwaitRead(_) => 9
      case Stopped(_) => 0
  }

  /** Bounds the helpful steps that can still change something. */
  function Potential(s: State): nat {
    10 * |s.queue| + ServerEffort(s) + Efforts(s.streams)
  }

  lemma ServerStepsCost(s: State, a: Action)
    requires Inv(s) && Enabled(s, a) && (a.Resume? || a.Sweep? || a.Peek?)
    ensures Potential(Apply(s, a)) < Potential(s)
  {
    hide Efforts;
    hide Ledger;
  }

  lemma AwaitCosts(s: State)
    requires Inv(s) && Enabled(s, Await)
    ensures Potential(Apply(s, Await)) < Potential(s)
  {
    hide Efforts;
    hide Ledger;
    EffortsOfUpdate(s.streams, s.pc.id, Apply(s, Await).streams[s.pc.id]);
  }

  lemma WakeCosts(s: State)
    requires Inv(s) && Enabled(s, Wake)
    ensures Potential(Apply(s, Wake)) < Potential(s)
  {
    hide Efforts;
    hide Ledger;
    EffortsOfUpdate(s.streams, s.pc.id, Apply(s, Wake).streams[s.pc.id]);
  }

  lemma ServeCosts(s: State)
    requires Inv(s) && Enabled(s, Serve)
    ensures Potential(Apply(s, Serve)) < Potential(s)
  {
    hide Efforts;
    hide Ledger;
    var id := s.peers[s.pc.peer];
    EffortsOfUpdate(s.streams, id, Apply(s, Serve).streams[id]);
  }

  lemma AcceptCosts(s: State)
    requires Inv(s) && Enabled(s, Accept)
    ensures Potential(Apply(s, Accept)) < Potential(s)
  {
    hide Efforts;
    hide Ledger;
    EffortsOfNew(s.streams, NewStream(s.pc.peer));
  }

  lemma PollCosts(s: State, id: nat)
    requires Inv(s) && Enabled(s, PollNotified(id)) && !s.pc.Stopped?
    ensures Apply(s, PollNotified(id)) == s || Potential(Apply(s, PollNotified(id))) < Potential(s)
  {
    hide Efforts;
    hide Ledger;
    EffortsOfUpdate(s.streams, id, Apply(s, PollNotified(id)).streams[id]);
    if !s.streams[id].data.Ready() {
      assert Apply(s, PollNotified(id)).streams == s.streams;
    }
  }

  lemma ReadCosts(s: State, a: Action, id: nat)
    requires Inv(s) && Enabled(s, a) && !s.pc.Stopped? && (a == Recv(id) || a == Rearm(id))
    ensures Potential(Apply(s, a)) < Potential(s)
  {
    hide Efforts;
    hide Ledger;
    EffortsOfUpdate(s.streams, id, Apply(s, a).streams[id]);
  }

  lemma SignalCosts(s: State, id: nat)
    requires Inv(s) && Enabled(s, Signal(id)) && !s.pc.Stopped?
    ensures Potential(Apply(s, Signal(id))) < Potential(s)
  {
    hide Efforts;
    hide Ledger;
    EffortsOfUpdate(s.streams, id, Apply(s, Signal(id)).streams[id]);
  }

  lemma DropSignalCosts(s: State, id: nat)
    requires Inv(s) && Enabled(s, DropSignal(id)) && !s.pc.Stopped?
    ensures Potential(Apply(s, DropSignal(id))) < Potential(s)
  {
    hide Efforts;
    hide Ledger;
    EffortsOfUpdate(s.streams, id, Apply(s, DropSignal(id)).streams[id]);
  }

  /** Every helpful step that changes anything lowers the potential. */
  lemma HelpfulStepsCost(s: State, a: Action)
    requires Inv(s) && Enabled(s, a) && Helpful(a) && !s.pc.Stopped?
    ensures Apply(s, a) == s || Potential(Apply(s, a)) < Potential(s)
    ensures !Apply(s, a).pc.Stopped? && Apply(s, a).arrived == s.arrived
  {
    hide Potential;
    match a
    case Resume => ServerStepsCost(s, a);
    case Sweep => ServerStepsCost(s, a);
    case Peek => ServerStepsCost(s, a);
    case Await => AwaitCosts(s);
    case Wake => WakeCosts(s);
    case Serve => ServeCosts(s);
    case Accept => AcceptCosts(s);
    case PollNotified(id) => PollCosts(s, id);
    case Recv(id) => ReadCosts(s, a, id);
    case Rearm(id) => ReadCosts(s, a, id);
    case Signal(id) => SignalCosts(s, id);
    case DropSignal(id) => DropSignalCosts(s, id);
    case _ =>
  }

  /** A run of the server's and the streams' own steps, each of which changes something. */
  predicate Busy(s: State, acts: seq<Action>)
    decreases |acts|
  {
    acts == [] ||
    (Enabled(s, acts[0]) && Helpful(acts[0]) && Apply(s, acts[0]) != s && Busy(Apply(s, acts[0]), acts[1..]))
  }

  lemma {:induction false} BusyRunsAreBounded(s: State, acts: seq<Action>)
    requires Inv(s) && !s.pc.Stopped? && Busy(s, acts)
    ensures Runs(s, acts) && |acts| <= Potential(s)
    ensures var t := Exec(s, acts); Inv(t) && !t.pc.Stopped? && t.arrived == s.arrived
    decreases |acts|
  {
    hide Inv;
    hide Apply;
    hide Potential;
    if acts != [] {
      HelpfulStepsCost(s, acts[0]);
      StepKeepsInv(s, acts[0]);
      BusyRunsAreBounded(Apply(s, acts[0]), acts[1..]);
    }
  }

  /** Nobody can do anything by itself that would change anything. */
  ghost predicate AtRest(s: State) {
    forall a :: Enabled(s, a) && Helpful(a) ==> Apply(s, a) == s
  }

  /**
   Every schedule delivers everything: from every reached state of a running server, every run of
   the server's and the streams' own steps that change something is bounded in length, and one that
   cannot be continued has delivered all datagrams that arrived.
   */
  lemma EveryScheduleDrains(s: State, acts: seq<Action>)
    requires Reached(s) && !s.pc.Stopped? && Busy(s, acts)
    ensures Runs(s, acts) && |acts| <= Potential(s)
    ensures AtRest(Exec(s, acts)) ==> Datagrams(Exec(s, acts).delivered) == s.arrived
  {
    ReachedInv(s);
    BusyRunsAreBounded(s, acts);
    RestHasDelivered(Exec(s, acts));
  }

  /** A datagram can arrive at any time, and every schedule delivers it after what had arrived before. */
  lemma EveryDatagramIsDelivered(s: State, d: Datagram, acts: seq<Action>)
    requires Reached(s) && !s.pc.Stopped? && Busy(Apply(s, Arrive(d)), acts)
    ensures Enabled(s, Arrive(d))
    ensures var t := Apply(s, Arrive(d));
            Runs(t, acts) && (AtRest(Exec(t, acts)) ==> Datagrams(Exec(t, acts).delivered) == s.arrived + [d])
  {
    ReachedInv(s);
    ArriveKeepsInv(s, d);
    BusyRunsAreBounded(Apply(s, Arrive(d)), acts);
    RestHasDelivered(Exec(Apply(s, Arrive(d)), acts));
  }

  lemma RestHasDelivered(s: State)
    requires Inv(s) && !s.pc.Stopped?
    ensures AtRest(s) ==> Datagrams(s.delivered) == s.arrived
  {
    if AtRest(s) && s.queue != [] {
      NextStepGetsCloser(s);
    }
  }
}
