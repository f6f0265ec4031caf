/**
 The UDP server as the program runs it: fields changed in place by the server task, by
 `poll_read` of a stream and by its drop. Each method is one uninterrupted stretch of the
 program and equals a run of atomic steps of `UdpDemux`, which also covers the stretches
 being interleaved.
 */
module UdpServer {
  import opened Common
  import opened UdpDemux
  import opened UdpDemuxSafety
  import W = Watchdog

  datatype PollResult = Pending | TimedOut | Data(d: Datagram)
  datatype ServerPoll = ServerPending | NewConnection(id: nat)

  predicate ServerAction(a: Action) {
    a.Resume? || a.Await? || a.Wake? || a.Sweep? || a.Peek? || a.Serve? || a.Accept?
  }

  lemma {:induction false} ExecAppend(s: State, acts: seq<Action>, a: Action)
    requires Runs(s, acts) && Enabled(Exec(s, acts), a)
    ensures Runs(s, acts + [a]) && Exec(s, acts + [a]) == Apply(Exec(s, acts), a)
    decreases |acts|
  {
    if acts == [] {
      assert Runs(Apply(s, a), []);
      assert (acts + [a])[1..] == [];
    } else {
      ExecAppend(Apply(s, acts[0]), acts[1..], a);
      assert (acts + [a])[1..] == acts[1..] + [a];
    }
  }

  lemma StepReached(s: State, a: Action)
    requires Reached(s) && Enabled(s, a)
    ensures Reached(Apply(s, a))
  {
    var acts :| Runs(INITIAL, acts) && Exec(INITIAL, acts) == s;
    ExecAppend(INITIAL, acts, a);
  }

  lemma {:induction false} RunReached(s: State, acts: seq<Action>)
    requires Reached(s) && Runs(s, acts)
    ensures Reached(Exec(s, acts))
    decreases |acts|
  {
    if acts != [] {
      StepReached(s, acts[0]);
      RunReached(Apply(s, acts[0]), acts[1..]);
    }
  }

  lemma InRange(s: State)
    requires Reached(s)
    ensures s.pc.Handed? || s.pc.AwaitRead? ==> s.pc.id < |s.streams|
    ensures forall p :: p in s.peers ==> s.peers[p] < |s.streams|
  {
    ReachedInv(s);
  }

  lemma PeekedIsHead(s: State)
    requires Reached(s) && s.pc.Peeked?
    ensures s.queue != [] && s.queue[0].peer == s.pc.peer
  {
    ReachedInv(s);
  }

  /** The steps that a poll of stream `id` takes when nothing interrupts it. */
  function PollSteps(s: State, id: nat): seq<Action>
    requires id < |s.streams|
  {
    var st := s.streams[id];
    if st.phase.Cleared? then (if s.queue == [] then [] else [Recv(id), Rearm(id), Signal(id)])
    else if st.phase.Parked? then
      if st.data.Ready() && s.queue != [] then [PollNotified(id), Recv(id), Rearm(id), Signal(id)]
      else [PollNotified(id)]
    else []
  }

  /** A stream after a poll that read a datagram. */
  function AfterRead(st: Stream): Stream {
    var data := if st.phase.Parked? then st.data.Poll() else st.data;
    st.(phase := Parked, data := data.Create().Enable(), read := st.read.NotifyOne())
  }

  lemma ClearedRead(s: State, id: nat)
    requires id < |s.streams| && s.streams[id].phase.Cleared? && s.queue != []
    ensures Runs(s, [Recv(id), Rearm(id), Signal(id)])
    ensures Exec(s, [Recv(id), Rearm(id), Signal(id)]) ==
            s.(queue := s.queue[1..], delivered := s.delivered + [(id, s.queue[0])],
                streams := s.streams[id := AfterRead(s.streams[id])])
  {
    var s1 := Apply(s, Recv(id));
    var s2 := Apply(s1, Rearm(id));
    ExecAppend(s, [], Recv(id));
    ExecAppend(s, [Recv(id)], Rearm(id));
    ExecAppend(s, [Recv(id), Rearm(id)], Signal(id));
    assert [Recv(id), Rearm(id)] + [Signal(id)] == [Recv(id), Rearm(id), Signal(id)];
    assert [Recv(id)] + [Rearm(id)] == [Recv(id), Rearm(id)];
    assert Apply(s2, Signal(id)).streams == s.streams[id := AfterRead(s.streams[id])];
  }

  lemma ReadingPoll(s: State, id: nat)
    requires id < |s.streams| && s.streams[id].CanTake() && s.queue != []
    ensures Runs(s, PollSteps(s, id))
    ensures Exec(s, PollSteps(s, id)) ==
            s.(queue := s.queue[1..], delivered := s.delivered + [(id, s.queue[0])],
                streams := s.streams[id := AfterRead(s.streams[id])])
  {
    if s.streams[id].phase.Cleared? {
      ClearedRead(s, id);
    } else {
      var s1 := Apply(s, PollNotified(id));
      ClearedRead(s1, id);
      assert PollSteps(s, id)[1..] == [Recv(id), Rearm(id), Signal(id)];
      assert s1.streams[id := AfterRead(s1.streams[id])] == s.streams[id := AfterRead(s.streams[id])];
    }
  }

  lemma ReadSpendsToken(s: State, id: nat)
    requires Reached(s) && id < |s.streams| && s.streams[id].CanTake()
    ensures s.queue != [] && s.queue[0].peer == s.streams[id].peer
    ensures AfterRead(s.streams[id]).phase.Parked? && !AfterRead(s.streams[id]).CanTake()
  {
    ReachedInv(s);
  }

  /** The committed stream has already answered. */
  predicate Answering(s: State) {
    || (s.pc.AwaitRead? && s.pc.id < |s.streams| && s.streams[s.pc.id].read.Ready())
    || (s.pc.Handed? && s.pc.id < |s.streams| && s.streams[s.pc.id].read.permit)
  }

  /** How many server steps are left before it waits, hands out a stream or sweeps dead keys. */
  function Turns(s: State): nat {
    var swept := s.deadKeys == [];
    match s.pc
    case Stopped(_) => 0
    case AwaitRead(_) => if !Answering(s) then 0 else if swept then 5 else 2
    case Handed(_) => if !Answering(s) then 1 else if swept then 5 else 2
    case Yielded(_) => if swept then 6 else 3
    case LoopTop => if swept then 4 else 1
    case Peeking => if swept then 3 else 5
    case Peeked(_) => if swept then 2 else 4
  }

  lemma ServerTurns(s: State, a: Action)
    requires Reached(s) && Enabled(s, a) && ServerAction(a) && !a.Accept?
    ensures TurnsDown(s, Apply(s, a))
  {
    ReachedInv(s);
    if a.Await? {
      AwaitTurns(s);
    }
  }

  ghost predicate TurnsDown(s: State, t: State) {
    || (s.deadKeys != [] && t.deadKeys == [])
    || (t.deadKeys == s.deadKeys && Turns(t) < Turns(s))
  }

  lemma AwaitTurns(s: State)
    requires Inv(s) && Enabled(s, Await)
    ensures Turns(Apply(s, Await)) < Turns(s)
  {
    assert s.streams[s.pc.id].read.fut.Absent?;
  }

  lemma WaitIsForSomebody(s: State)
    requires Reached(s) && s.pc.AwaitRead? && s.pc.id < |s.streams| && !s.streams[s.pc.id].read.Ready()
    ensures s.streams[s.pc.id].HoldsToken() || s.streams[s.pc.id].phase.Dropping?
  {
    ReachedInv(s);
  }

  /** The watchdog of a stream, if the server has a timeout. */
  predicate Watches(t: Option<W.Timer>, timeout: Option<nat>) {
    t.Some? == timeout.Some? && (t.Some? ==> t.value.period == timeout.value)
  }

  predicate WatchdogFires(t: Option<W.Timer>, now: nat) { t.Some? && W.TimesOut(t.value, now) }

  function Ticked(t: W.Timer): W.Timer { t.(next := t.next + t.period) }

  function Watched(t: Option<W.Timer>, p: W.Poll): Option<W.Timer>
    requires t.Some? ==> t.value.period > 0 && !W.TimesOut(t.value, p.at)
  {
    if t.None? then None else Some(W.AfterPoll(t.value, p))
  }

  /** When a stream was accepted, its polls so far, and whether one of them timed out. */
  datatype Watch = Watch(created: nat, polls: seq<W.Poll>, over: bool)

  /** The watchdog is what the polls of its stream have made of the one it was created with. */
  ghost predicate Follows(t: Option<W.Timer>, timeout: Option<nat>, w: Watch) {
    timeout.Some? && timeout.value > 0 && !w.over ==>
      && W.Survives(W.NewTimer(timeout.value, w.created), w.created, w.polls)
      && t == Some(W.TimerAfter(W.NewTimer(timeout.value, w.created), w.created, w.polls))
  }

  /** A watchdog set at `now` fires from one timeout later on, and never without a timeout. */
  ghost predicate SetAt(t: Option<W.Timer>, timeout: Option<nat>, now: nat) {
    forall at: nat :: WatchdogFires(t, at) <==> timeout.Some? && at >= now + timeout.value
  }

  lemma NewWatchdog(timeout: Option<nat>, now: nat)
    ensures var t := if timeout.None? then None else Some(W.NewTimer(timeout.value, now));
            Watches(t, timeout) && Follows(t, timeout, Watch(now, [], false)) && SetAt(t, timeout, now)
  {
  }

  /** One poll of a watched stream. */
  lemma PollFollows(t: Option<W.Timer>, timeout: Option<nat>, w: Watch, p: W.Poll)
    requires Watches(t, timeout) && (timeout.Some? ==> timeout.value > 0) && Follows(t, timeout, w)
    requires !w.over ==> W.LastPoll(w.polls, w.created) <= p.at
    ensures WatchdogFires(t, p.at) && !w.over ==> IdleLongEnough(w, timeout, p.at)
    ensures !WatchdogFires(t, p.at) ==> Follows(Watched(t, p), timeout, w.(polls := w.polls + [p]))
  {
    if timeout.Some? && !w.over {
      var t0 := W.NewTimer(timeout.value, w.created);
      if WatchdogFires(t, p.at) {
        W.TimeoutMeansIdle(timeout.value, w.created, w.polls, p.at);
      } else {
        W.OnePollMore(t0, w.created, w.polls, p);
      }
    }
  }

  lemma OverFollows(t: Option<W.Timer>, timeout: Option<nat>, w: Watch)
    requires w.over
    ensures Follows(t, timeout, w)
  {
  }

  /** More than a timeout since the last datagram read, or a timeout since the stream was accepted. */
  predicate IdleLongEnough(w: Watch, timeout: Option<nat>, now: nat) {
    && timeout.Some?
    && var read := W.LastRead(w.polls, -1);
       if read >= 0 then now > read + timeout.value else now >= w.created + timeout.value
  }

  /** The history of a stream after a poll. */
  function Polled(w: Watch, now: nat, r: PollResult): Watch {
    if r.TimedOut? then w.(over := true) else w.(polls := w.polls + [W.Poll(now, r.Data?)])
  }

  ghost predicate Appended<T>(was: seq<T>, now: seq<T>) { |now| == |was| + 1 && now[..|was|] == was }

  class UdpServer {
    var queue: seq<Datagram>
    var streams: seq<Stream>
    var peers: map<Peer, nat>
    var keysToDelete: seq<Peer>
    var pc: ServerPc
    var arrived: seq<Datagram>
    var delivered: seq<(nat, Datagram)>
    var timers: seq<Option<W.Timer>>
    const cnxTimeout: Option<nat>
    ghost var watches: seq<Watch>

    ghost function Abs(): State
      reads this
    {
      State(queue, streams, peers, keysToDelete, pc, arrived, delivered)
    }

    ghost predicate Valid()
      reads this
    {
      && Reached(Abs())
      && |timers| == |streams|
      && (cnxTimeout.Some? ==> cnxTimeout.value > 0)
      && (forall i :: 0 <= i < |timers| ==> Watches(timers[i], cnxTimeout))
      && |watches| == |timers|
      && (forall i :: 0 <= i < |timers| ==> Follows(timers[i], cnxTimeout, watches[i]))
    }

    constructor (timeout: Option<nat>)
      requires timeout.Some? ==> timeout.value > 0
      ensures Valid() && Abs() == INITIAL && cnxTimeout == timeout
    {
      queue, streams, peers, keysToDelete := [], [], map[], [];
      pc, arrived, delivered, timers := LoopTop, [], [], [];
      cnxTimeout, watches := timeout, [];
      new;
      assert Runs(INITIAL, []) && Exec(INITIAL, []) == Abs();
    }

    /** Forgets every peer whose stream has announced its death, and only those. */
    method CleanDeadKeys()
      modifies this
      ensures peers == old(peers) - (set k | k in old(keysToDelete)) && keysToDelete == []
      ensures queue == old(queue) && streams == old(streams) && pc == old(pc)
      ensures arrived == old(arrived) && delivered == old(delivered) && timers == old(timers) && watches == old(watches)
    {
      if |keysToDelete| == 0 {
        return;
      }
      var i := 0;
      while i < |keysToDelete|
        invariant 0 <= i <= |keysToDelete| && keysToDelete == old(keysToDelete)
        invariant peers == old(peers) - (set k | k in keysToDelete[..i])
        invariant queue == old(queue) && streams == old(streams) && pc == old(pc)
        invariant arrived == old(arrived) && delivered == old(delivered)
        invariant timers == old(timers) && watches == old(watches)
      {
        peers := peers - {keysToDelete[i]};
        i := i + 1;
      }
      assert keysToDelete[..|keysToDelete|] == keysToDelete;
      keysToDelete := [];
    }

    /** Waits for the answer of the stream that was handed the token, or takes that answer. */
    method AwaitAnswer() returns (ghost a: Action)
      requires Valid() && (pc.Handed? || (pc.AwaitRead? && pc.id < |streams| && streams[pc.id].read.Ready()))
      modifies this`streams, this`pc
      ensures Valid() && (a.Await? || a.Wake?) && Enabled(old(Abs()), a) && Abs() == Apply(old(Abs()), a)
    {
      hide Reached;
      InRange(Abs());
      var id := pc.id;
      if pc.Handed? {
        a := Await;
        var fut := streams[id].read.Create();
        streams := streams[id := streams[id].(read := fut.Poll())];
        pc := if fut.Ready() then LoopTop else AwaitRead(id);
      } else {
        a := Wake;
        streams := streams[id := streams[id].(read := streams[id].read.Poll())];
        pc := LoopTop;
      }
      StepReached(old(Abs()), a);
    }

    /** Hands the token to the registered stream of the peeked peer. */
    method ServePeer()
      requires Valid() && pc.Peeked? && pc.peer in peers
      modifies this`streams, this`pc
      ensures Valid() && Enabled(old(Abs()), Serve) && Abs() == Apply(old(Abs()), Serve)
    {
      hide Reached;
      InRange(Abs());
      var id := peers[pc.peer];
      streams := streams[id := streams[id].(data := streams[id].data.NotifyOne())];
      pc := Handed(id);
      StepReached(old(Abs()), Serve);
    }

    /** Registers and yields a stream for a peer that has none. */
    method AcceptPeer(now: nat)
      requires Valid() && pc.Peeked? && pc.peer !in peers
      modifies this`streams, this`pc, this`peers, this`timers, this`watches
      ensures Valid() && Enabled(old(Abs()), Accept) && Abs() == Apply(old(Abs()), Accept)
      ensures Appended(old(timers), timers) && SetAt(timers[|old(timers)|], cnxTimeout, now)
      ensures watches == old(watches) + [Watch(now, [], false)]
    {
      hide Reached;
      hide Follows;
      hide Watches;
      hide SetAt;
      peers := peers[pc.peer := |streams|];
      streams := streams + [NewStream(pc.peer)];
      var watchdog := if cnxTimeout.None? then None else Some(W.NewTimer(cnxTimeout.value, now));
      NewWatchdog(cnxTimeout, now);
      timers := timers + [watchdog];
      watches := watches + [Watch(now, [], false)];
      pc := Yielded(pc.peer);
      StepReached(old(Abs()), Accept);
    }

    /** One synchronous stretch of the server task, up to its next await. */
    method ServerStep(now: nat) returns (accepted: bool, ghost a: Action)
      requires Valid() && !pc.Stopped?
      requires pc.Peeking? ==> queue != []
      requires pc.AwaitRead? ==> pc.id < |streams| && streams[pc.id].read.Ready()
      modifies this
      ensures Valid() && ServerAction(a) && Enabled(old(Abs()), a) && Abs() == Apply(old(Abs()), a)
      ensures accepted <==> a.Accept?
      ensures if accepted then Appended(old(timers), timers) && SetAt(timers[|old(timers)|], cnxTimeout, now)
              else timers == old(timers)
      ensures watches == old(watches) + (if accepted then [Watch(now, [], false)] else [])
    {
      hide Reached;
      accepted := false;
      if pc.Handed? || pc.AwaitRead? {
        a := AwaitAnswer();
      } else if pc.Peeked? {
        if pc.peer in peers {
          a := Serve;
          ServePeer();
        } else {
          a, accepted := Accept, true;
          AcceptPeer(now);
        }
      } else {
        match pc {
        case Yielded(p) =>
          a := Resume;
          pc := if p in peers then Handed(peers[p]) else LoopTop;
        case LoopTop =>
          a := Sweep;
          CleanDeadKeys();
          pc := Peeking;
        case Peeking =>
          a := Peek;
          pc := Peeked(queue[0].peer);
        }
        StepReached(old(Abs()), a);
      }
    }

    /** `ServerStep` appended to the run `acts` that led here from `s0`. */
    method ServerTurn(now: nat, ghost s0: State, ghost acts: seq<Action>) returns (accepted: bool, ghost a: Action)
      requires Valid() && !pc.Stopped?
      requires pc.Peeking? ==> queue != []
      requires pc.AwaitRead? ==> pc.id < |streams| && streams[pc.id].read.Ready()
      requires Runs(s0, acts) && Abs() == Exec(s0, acts)
      modifies this
      ensures Valid() && !pc.Stopped? && (pc.AwaitRead? ==> pc.id < |streams|)
      ensures ServerAction(a) && Runs(s0, acts + [a]) && Abs() == Exec(s0, acts + [a])
      ensures queue == old(queue)
      ensures if accepted then Appended(old(timers), timers) && SetAt(timers[|old(timers)|], cnxTimeout, now)
              else timers == old(timers)
      ensures watches == old(watches) + (if accepted then [Watch(now, [], false)] else [])
      ensures !accepted ==> |streams| == old(|streams|) && TurnsDown(old(Abs()), Abs())
      ensures accepted ==>
                && |streams| == old(|streams|) + 1 && queue != []
                && streams[|streams| - 1] == NewStream(queue[0].peer) && pc == Yielded(queue[0].peer)
    {
      ghost var s := Abs();
      accepted, a := ServerStep(now);
      ExecAppend(s0, acts, a);
      InRange(Abs());
      if accepted {
        PeekedIsHead(s);
      } else {
        ServerTurns(s, a);
      }
    }

    /**
     Polls the stream of connections: the server runs until it hands out a new stream or has
     to wait, which is for the next datagram or for a stream that can still answer.
     */
    method PollServer(now: nat) returns (r: ServerPoll, ghost acts: seq<Action>)
      requires Valid() && !pc.Stopped?
      modifies this
      ensures Valid() && !pc.Stopped? && queue == old(queue)
      ensures forall a :: a in acts ==> ServerAction(a)
      ensures Runs(old(Abs()), acts) && Abs() == Exec(old(Abs()), acts)
      ensures r.NewConnection? ==>
                && r.id == old(|streams|) && |streams| == r.id + 1 && queue != []
                && streams[r.id] == NewStream(queue[0].peer) && pc == Yielded(queue[0].peer)
      // the new stream's watchdog is set now, and no other is touched
      ensures if r.NewConnection? then Appended(old(timers), timers) && SetAt(timers[r.id], cnxTimeout, now)
              else timers == old(timers)
      ensures watches == old(watches) + (if r.NewConnection? then [Watch(now, [], false)] else [])
      ensures r.ServerPending? ==>
                || (pc.Peeking? && queue == [])
                || (pc.AwaitRead? && pc.id < |streams| &&
                    (streams[pc.id].HoldsToken() || streams[pc.id].phase.Dropping?))
    {
      acts := [];
      r := ServerPending;
      ghost var s0 := Abs();
      InRange(Abs());
      while r.ServerPending? && !(pc.Peeking? && queue == []) && !(pc.AwaitRead? && !streams[pc.id].read.Ready())
        invariant Valid() && !pc.Stopped? && queue == old(queue) && (pc.AwaitRead? ==> pc.id < |streams|)
        invariant Runs(s0, acts) && Abs() == Exec(s0, acts) && forall a :: a in acts ==> ServerAction(a)
        invariant r.ServerPending? ==> |streams| == old(|streams|) && timers == old(timers)
        invariant r.NewConnection? ==> Appended(old(timers), timers) && SetAt(timers[|old(timers)|], cnxTimeout, now)
        invariant watches == old(watches) + (if r.NewConnection? then [Watch(now, [], false)] else [])
        invariant r.NewConnection? ==>
                    && r.id == old(|streams|) && |streams| == r.id + 1 && queue != []
                    && streams[r.id] == NewStream(queue[0].peer) && pc == Yielded(queue[0].peer)
        decreases r.ServerPending?, keysToDelete != [], Turns(Abs())
      {
        var accepted;
        ghost var a;
        accepted, a := ServerTurn(now, s0, acts);
        acts := acts + [a];
        if accepted {
          r := NewConnection(|streams| - 1);
        }
      }
      if r.ServerPending? && pc.AwaitRead? {
        WaitIsForSomebody(Abs());
      }
    }

    /** The watchdog part of `poll_read`: the tick, and the draining of ticks missed meanwhile. */
    method CheckDeadline(id: nat, now: nat) returns (timedOut: bool)
      requires Valid() && id < |streams|
      modifies this`timers
      ensures |timers| == |streams| && forall i :: 0 <= i < |timers| ==> Watches(timers[i], cnxTimeout)
      ensures timedOut <==> WatchdogFires(old(timers[id]), now)
      ensures timers == old(timers)[id := timers[id]]
      ensures timedOut ==> timers[id] == Some(Ticked(old(timers[id]).value))
      ensures !timedOut ==> timers == old(timers)[id := Watched(old(timers[id]), W.Poll(now, false))]
    {
      timedOut := false;
      if timers[id].None? {
        assert timers[id := None] == timers;
        return;
      }
      var t := timers[id].value;
      ghost var period := cnxTimeout.value;
      if now >= t.next {
        t := t.(next := t.next + t.period);
        if t.dataRead {
          t := t.(dataRead := false);
          while now >= t.next
            invariant t.period == period && !t.dataRead
            invariant W.FirstAfter(old(timers[id]).value.next + period, period, now) ==
                      W.FirstAfter(t.next, period, now)
            decreases now + 1 - t.next
          {
            t := t.(next := t.next + t.period);
          }
        } else {
          timedOut := true;
        }
      }
      timers := timers[id := Some(t)];
    }

    /** The rest of `poll_read` once the watchdog is content. */
    method TryTake(id: nat) returns (r: PollResult)
      requires Reached(Abs()) && id < |streams| && (streams[id].phase.Parked? || streams[id].phase.Cleared?)
      modifies this`queue, this`streams, this`delivered
      ensures Reached(Abs()) && |streams| == old(|streams|) && !r.TimedOut?
      ensures Runs(old(Abs()), PollSteps(old(Abs()), id)) && Abs() == Exec(old(Abs()), PollSteps(old(Abs()), id))
      ensures r.Data? <==> old(streams[id].CanTake())
      ensures r.Data? ==> old(queue) == [r.d] + queue && r.d.peer == streams[id].peer
      ensures r.Data? ==> streams[id].phase.Parked? && !streams[id].CanTake()
      ensures !r.Data? ==> queue == old(queue) && delivered == old(delivered)
    {
      ghost var s0 := Abs();
      var st := streams[id];
      if st.phase.Parked? && !st.data.Ready() {
        streams := streams[id := st.(data := st.data.Poll())];
        ExecAppend(s0, [], PollNotified(id));
        StepReached(s0, PollNotified(id));
        return Pending;
      }
      ReadSpendsToken(s0, id);
      ReadingPoll(s0, id);
      RunReached(s0, PollSteps(s0, id));
      if st.phase.Parked? {
        st := st.(data := st.data.Poll(), phase := Cleared);
      }
      var d := queue[0];
      queue := queue[1..];
      delivered := delivered + [(id, d)];
      // re-arm the notification, then let the server know
      st := st.(data := st.data.Create().Enable(), phase := Rearmed);
      st := st.(read := st.read.NotifyOne(), phase := Parked);
      streams := streams[id := st];
      return Data(d);
    }

    /** One `poll_read` of stream `id` at time `now`. */
    method PollRead(id: nat, now: nat) returns (r: PollResult)
      requires Valid() && id < |streams| && (streams[id].phase.Parked? || streams[id].phase.Cleared?)
      requires !watches[id].over ==> W.LastPoll(watches[id].polls, watches[id].created) <= now
      modifies this
      ensures Valid()
      ensures r.TimedOut? && !old(watches[id]).over ==> IdleLongEnough(old(watches[id]), cnxTimeout, now)
      ensures watches == old(watches)[id := Polled(old(watches[id]), now, r)]
      ensures r.TimedOut? <==> WatchdogFires(old(timers[id]), now)
      ensures r.TimedOut? ==> Abs() == old(Abs())
      ensures !r.TimedOut? ==>
                && timers == old(timers)[id := Watched(old(timers[id]), W.Poll(now, r.Data?))]
                && Runs(old(Abs()), PollSteps(old(Abs()), id)) && Abs() == Exec(old(Abs()), PollSteps(old(Abs()), id))
                && (r.Data? <==> old(streams[id].CanTake()))
      ensures r.Data? ==>
                && old(queue) == [r.d] + queue && r.d.peer == streams[id].peer
                && streams[id].phase.Parked? && !streams[id].CanTake()
      ensures !r.Data? ==> queue == old(queue) && delivered == old(delivered)
    {
      hide Follows;
      ghost var t, w := timers[id], watches[id];
      var timedOut := CheckDeadline(id, now);
      if timedOut {
        PollFollows(t, cnxTimeout, w, W.Poll(now, false));
        watches := watches[id := w.(over := true)];
        OverFollows(timers[id], cnxTimeout, watches[id]);
        return TimedOut;
      }
      r := TryTake(id);
      PollFollows(t, cnxTimeout, w, W.Poll(now, r.Data?));
      watches := watches[id := w.(polls := w.polls + [W.Poll(now, r.Data?)])];
      if r.Data? && timers[id].Some? {
        timers := timers[id := Some(timers[id].value.(dataRead := true))];
      }
    }

    /** Dropping a stream: its key is listed first, and only then is the server told. */
    method DropStream(id: nat)
      requires Valid() && id < |streams| && (streams[id].phase.Parked? || streams[id].phase.Cleared?)
      modifies this
      ensures Valid() && Abs() == Apply(Apply(old(Abs()), DropPush(id)), DropSignal(id))
      ensures streams[id].phase.Dropped? && timers == old(timers)
    {
      if !pc.Stopped? {
        keysToDelete := keysToDelete + [streams[id].peer];
      }
      streams := streams[id := streams[id].(phase := Dropping)];
      StepReached(old(Abs()), DropPush(id));
      ghost var s1 := Abs();
      var st := streams[id];
      streams := streams[id := st.(data := st.data.Drop(), read := st.read.NotifyOne(), phase := Dropped)];
      StepReached(s1, DropSignal(id));
    }
  }
}
