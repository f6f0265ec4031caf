/**
 Every schedule of the SOCKS5 relay drains: however the relay's and the streams' own steps are
 interleaved, only so many of them can be taken, and when none is left the relay is back at its
 socket, having dealt with every datagram it received, and every open stream has read what it was sent.
 */
module Socks5Drain {
  import opened Socks5Udp

  /** The steps that need neither a datagram nor a failure nor a new drop. */
  predicate Own(a: Action) {
    a.Sweep? || a.Route? || a.Accept? || a.SendOk? || a.SendFails? || a.Take? || a.DropClose?
  }

  function RelayWork(pc: ServerPc): nat {
    match pc
    case LoopTop => 1
    case Receiving => 0
    case Parsed(_, _) => 4
    case Sending(_, _, _) => 3
    case Stopped => 0
  }

  /** An open stream has its channel to read, one that is being dropped has its end to close. */
  function StreamWork(st: Stream): nat {
    match st.phase
    case Open => |st.chan|
    case Listed => 1
    case Closed => 0
  }

  function StreamsWork(streams: seq<Stream>): nat {
    if streams == [] then 0 else StreamsWork(streams[..|streams| - 1]) + StreamWork(streams[|streams| - 1])
  }

  function Potential(s: State): nat { RelayWork(s.pc) + StreamsWork(s.streams) }

  lemma {:induction false} WorkOfUpdate(streams: seq<Stream>, id: nat, st: Stream)
    requires id < |streams|
    ensures StreamsWork(streams[id := st]) == StreamsWork(streams) - StreamWork(streams[id]) + StreamWork(st)
    ensures StreamsWork(streams) >= StreamWork(streams[id])
  {
    var init := streams[..|streams| - 1];
    if id == |streams| - 1 {
      assert streams[id := st][..|streams| - 1] == init;
    } else {
      assert streams[id := st][..|streams| - 1] == init[id := st];
      WorkOfUpdate(init, id, st);
    }
  }

  lemma WorkOfNew(streams: seq<Stream>, st: Stream)
    ensures StreamsWork(streams + [st]) == StreamsWork(streams) + StreamWork(st)
  {
    assert (streams + [st])[..|streams|] == streams;
  }

  /** Every own step does some of the work. */
  lemma OwnStepCosts(s: State, a: Action)
    requires Enabled(s, a) && Own(a)
    ensures Potential(Apply(s, a)) < Potential(s)
    ensures Apply(s, a).received == s.received && Apply(s, a).pc.Stopped? == s.pc.Stopped?
  {
    hide StreamsWork;
    match a
    case Accept => WorkOfNew(s.streams, Apply(s, a).streams[|s.streams|]);
    case SendOk => WorkOfUpdate(s.streams, s.pc.id, Apply(s, a).streams[s.pc.id]);
    case Take(id) => WorkOfUpdate(s.streams, id, Apply(s, a).streams[id]);
    case DropClose(id) => WorkOfUpdate(s.streams, id, Apply(s, a).streams[id]);
    case _ =>
  }

  lemma {:induction false} OwnRunsAreBounded(s: State, acts: seq<Action>)
    requires Inv(s) && Runs(s, acts) && forall a :: a in acts ==> Own(a)
    ensures |acts| <= Potential(s)
    ensures var t := Exec(s, acts); Inv(t) && t.received == s.received && t.pc.Stopped? == s.pc.Stopped?
    decreases |acts|
  {
    hide Inv;
    hide Apply;
    hide Potential;
    if acts != [] {
      OwnStepCosts(s, acts[0]);
      StepKeepsInv(s, acts[0]);
      OwnRunsAreBounded(Apply(s, acts[0]), acts[1..]);
    }
  }

  ghost predicate AtRest(s: State) { forall a :: Own(a) ==> !Enabled(s, a) }

  lemma RestingRelay(s: State)
    requires Registered(s) && AtRest(s)
    ensures s.pc.Receiving? || s.pc.Stopped?
  {
    assert s.pc.Sending? ==> !Enabled(s, Take(s.pc.id)) && !Enabled(s, DropClose(s.pc.id));
    assert !Enabled(s, SendOk) && !Enabled(s, SendFails);
    assert !Enabled(s, Sweep) && !Enabled(s, Route) && !Enabled(s, Accept);
  }

  lemma RestingStream(s: State, i: nat)
    requires AtRest(s) && i < |s.streams|
    ensures !s.streams[i].phase.Listed? && (s.streams[i].phase.Open? ==> s.streams[i].chan == [])
  {
    assert !Enabled(s, Take(i)) && !Enabled(s, DropClose(i));
  }

  /**
   Every schedule drains: from every reached state of a running relay, every run of the relay's and
   the streams' own steps is bounded in length, and after one that cannot be continued the relay
   awaits its socket, every datagram received was queued for a stream of its key or discarded because
   that stream was gone, and every open stream has read all that was queued for it.
   */
  lemma EveryScheduleDrains(s: State, acts: seq<Action>)
    requires Reached(s) && !s.pc.Stopped? && Runs(s, acts) && forall a :: a in acts ==> Own(a)
    ensures |acts| <= Potential(s)
    ensures var t := Exec(s, acts);
            AtRest(t) ==>
              && Dealt(t.routed) == s.received
              // and whatever comes next is received
              && (forall key, data :: Enabled(t, Recv(key, data)) &&
                                      Apply(t, Recv(key, data)).received == s.received + [(key, data)])
              && (forall i :: 0 <= i < |t.streams| ==>
                    && !t.streams[i].phase.Listed?
                    && (t.streams[i].phase.Open? ==> t.streams[i].taken == SentTo(t.routed, i)))
              && (forall n :: 0 <= n < |t.routed| ==> RoutedOk(t.routed[n], t.streams))
  {
    ReachedInv(s);
    OwnRunsAreBounded(s, acts);
    var t := Exec(s, acts);
    if AtRest(t) {
      RestingRelay(t);
      forall i | 0 <= i < |t.streams|
        ensures !t.streams[i].phase.Listed?
        ensures t.streams[i].phase.Open? ==> t.streams[i].taken == SentTo(t.routed, i)
      {
        RestingStream(t, i);
      }
    }
  }
}
