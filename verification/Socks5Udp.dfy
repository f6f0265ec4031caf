/**
 The SOCKS5 UDP relay: the server task reads every datagram itself and hands it to the stream
 of its (peer, destination) pair through a bounded channel. A stream's drop first lists its key
 as dead and only then closes its end of the channel; the server may notice either first.
 */
module Socks5Udp {

  datatype Key = Key(peer: nat, destination: nat)
  type Payload = seq<nat>

  const CHANNEL_SIZE := 1024

  datatype Phase =
    | Open
    | Listed  // the drop has pushed the key, the channel is still open
    | Closed

  /** `chan` is what the channel holds, `taken` what was read from it before. */
  datatype Stream = Stream(key: Key, phase: Phase, chan: seq<Payload>, taken: seq<Payload>)

  datatype ServerPc =
    | LoopTop
    | Receiving                             // dead keys swept, `recv_buf_from` awaited
    | Parsed(key: Key, data: Payload)
    | Sending(id: nat, key: Key, data: Payload)  // `sender.send` awaited
    | Stopped

  /** What became of a datagram: queued for stream `id`, or discarded because that stream was gone. */
  datatype Routed = Routed(key: Key, data: Payload, id: nat, discarded: bool)

  datatype State = State(
    streams: seq<Stream>,
    peers: map<Key, nat>,
    deadKeys: seq<Key>,
    pc: ServerPc,
    received: seq<(Key, Payload)>,          // every well-formed datagram, as it came off the socket
    routed: seq<Routed>)                    // and what became of it

  datatype Action =
    | Sweep | Recv(key: Key, data: Payload) | RecvInvalid | RecvFails
    | Route | Accept | SendOk | SendFails | Cancel
    | Take(id: nat) | DropPush(id: nat) | DropClose(id: nat)

  const INITIAL := State([], map[], [], LoopTop, [], [])

  predicate Enabled(s: State, a: Action) {
    match a
    case Sweep => s.pc.LoopTop?
    case Recv(_, _) => s.pc.Receiving?
    case RecvInvalid => s.pc.Receiving?
    case RecvFails => s.pc.Receiving?
    case Route => s.pc.Parsed? && s.pc.key in s.peers
    case Accept => s.pc.Parsed? && s.pc.key !in s.peers
    case SendOk =>
      && s.pc.Sending? && s.pc.id < |s.streams|
      && !s.streams[s.pc.id].phase.Closed? && |s.streams[s.pc.id].chan| < CHANNEL_SIZE
    case SendFails => s.pc.Sending? && s.pc.id < |s.streams| && s.streams[s.pc.id].phase.Closed?
    case Cancel => true
    case Take(id) => id < |s.streams| && s.streams[id].phase.Open? && s.streams[id].chan != []
    case DropPush(id) => id < |s.streams| && s.streams[id].phase.Open?
    case DropClose(id) => id < |s.streams| && s.streams[id].phase.Listed?
  }

  function Apply(s: State, a: Action): State
    requires Enabled(s, a)
  {
    match a
    case Sweep => s.(peers := s.peers - (set k | k in s.deadKeys), deadKeys := [], pc := Receiving)
    case Recv(key, data) => s.(pc := Parsed(key, data), received := s.received + [(key, data)])
    case RecvInvalid => s.(pc := LoopTop)
    case RecvFails => s.(pc := Stopped)
    case Route => s.(pc := Sending(s.peers[s.pc.key], s.pc.key, s.pc.data))
    case Accept =>
      s.(streams := s.streams + [Stream(s.pc.key, Open, [s.pc.data], [])],
         peers := s.peers[s.pc.key := |s.streams|],
         routed := s.routed + [Routed(s.pc.key, s.pc.data, |s.streams|, false)],
         pc := LoopTop)
    case SendOk =>
      var st := s.streams[s.pc.id];
      s.(streams := s.streams[s.pc.id := st.(chan := st.chan + [s.pc.data])],
         routed := s.routed + [Routed(s.pc.key, s.pc.data, s.pc.id, false)],
         pc := LoopTop)
    case SendFails =>
      s.(peers := s.peers - {s.pc.key},
         routed := s.routed + [Routed(s.pc.key, s.pc.data, s.pc.id, true)],
         pc := LoopTop)
    case Cancel => s.(pc := Stopped)
    case Take(id) =>
      var st := s.streams[id];
      s.(streams := s.streams[id := st.(chan := st.chan[1..], taken := st.taken + [st.chan[0]])])
    case DropPush(id) =>
      s.(streams := s.streams[id := s.streams[id].(phase := Listed)],
         deadKeys := if s.pc.Stopped? then s.deadKeys else s.deadKeys + [s.streams[id].key])
    case DropClose(id) => s.(streams := s.streams[id := s.streams[id].(phase := Closed)])
  }

  predicate Runs(s: State, acts: seq<Action>)
    decreases |acts|
  {
    acts == [] || (Enabled(s, acts[0]) && Runs(Apply(s, acts[0]), acts[1..]))
  }

  function Exec(s: State, acts: seq<Action>): State
    requires Runs(s, acts)
    decreases |acts|
  {
    if acts == [] then s else Exec(Apply(s, acts[0]), acts[1..])
  }

  // ----- the datagrams, by stream and by key -----

  /** The datagrams the relay has dealt with. */
  function Dealt(routed: seq<Routed>): (r: seq<(Key, Payload)>)
    ensures |r| == |routed| && forall n :: 0 <= n < |r| ==> r[n] == (routed[n].key, routed[n].data)
  {
    seq(|routed|, n requires 0 <= n < |routed| => (routed[n].key, routed[n].data))
  }

  /** The datagram the relay holds. */
  function InHand(pc: ServerPc): seq<(Key, Payload)> {
    if pc.Parsed? || pc.Sending? then [(pc.key, pc.data)] else []
  }

  /** What was queued for stream `id`, in order. */
  function SentTo(routed: seq<Routed>, id: nat): seq<Payload> {
    if routed == [] then []
    else
      var last := routed[|routed| - 1];
      SentTo(routed[..|routed| - 1], id) + (if last.id == id && !last.discarded then [last.data] else [])
  }

  /** What was queued for any stream of `key`, in order. */
  function KeptOf(routed: seq<Routed>, key: Key): seq<Payload> {
    if routed == [] then []
    else
      var last := routed[|routed| - 1];
      KeptOf(routed[..|routed| - 1], key) + (if last.key == key && !last.discarded then [last.data] else [])
  }

  /** The datagrams of `key` in a log of the socket. */
  function OfKey(log: seq<(Key, Payload)>, key: Key): seq<Payload> {
    if log == [] then []
    else OfKey(log[..|log| - 1], key) + (if log[|log| - 1].0 == key then [log[|log| - 1].1] else [])
  }

  /** What the streams of `key`, one after the other, have taken and still hold. */
  function HeldBy(streams: seq<Stream>, key: Key): seq<Payload> {
    if streams == [] then []
    else
      var last := streams[|streams| - 1];
      HeldBy(streams[..|streams| - 1], key) + (if last.key == key then last.taken + last.chan else [])
  }

  lemma RoutedAppend(routed: seq<Routed>, e: Routed, id: nat)
    ensures SentTo(routed + [e], id) == SentTo(routed, id) + (if e.id == id && !e.discarded then [e.data] else [])
    ensures KeptOf(routed + [e], e.key) == KeptOf(routed, e.key) + (if e.discarded then [] else [e.data])
    ensures forall k :: k != e.key ==> KeptOf(routed + [e], k) == KeptOf(routed, k)
  {
    assert (routed + [e])[..|routed|] == routed;
  }

  lemma {:induction false} NothingSentYet(routed: seq<Routed>, id: nat)
    requires forall n :: 0 <= n < |routed| ==> routed[n].id < id
    ensures SentTo(routed, id) == []
  {
    if routed != [] {
      NothingSentYet(routed[..|routed| - 1], id);
    }
  }

  /** Streams that differ in nothing but their phase, or by a take, hold the same. */
  lemma {:induction false} SameHeld(a: seq<Stream>, b: seq<Stream>, key: Key)
    requires |a| == |b|
    requires forall i :: 0 <= i < |a| ==> a[i].key == b[i].key && a[i].taken + a[i].chan == b[i].taken + b[i].chan
    ensures HeldBy(a, key) == HeldBy(b, key)
  {
    if a != [] {
      SameHeld(a[..|a| - 1], b[..|b| - 1], key);
    }
  }

  /** Queueing for the last stream of a key adds at the end of what that key's streams hold. */
  lemma {:induction false} HeldAfterSend(streams: seq<Stream>, id: nat, st: Stream, data: Payload, key: Key)
    requires id < |streams| && st.key == streams[id].key
    requires st.taken == streams[id].taken && st.chan == streams[id].chan + [data]
    requires forall j :: id < j < |streams| ==> streams[j].key != st.key
    ensures HeldBy(streams[id := st], key) == HeldBy(streams, key) + (if key == st.key then [data] else [])
  {
    var init := streams[..|streams| - 1];
    if id == |streams| - 1 {
      assert streams[id := st][..|streams| - 1] == init;
    } else {
      assert streams[id := st][..|streams| - 1] == init[id := st];
      HeldAfterSend(init, id, st, data, key);
    }
  }

  // ----- the invariant -----

  ghost predicate StreamOk(st: Stream, i: nat, running: bool, peers: map<Key, nat>, deadKeys: seq<Key>) {
    && |st.chan| <= CHANNEL_SIZE
    // a key is registered for the last stream that has it
    && (st.key in peers ==> i <= peers[st.key])
    && (running && st.phase.Open? ==> st.key in peers && peers[st.key] == i && st.key !in deadKeys)
    && (running && !st.phase.Open? && st.key in peers && peers[st.key] == i ==> st.key in deadKeys)
  }

  ghost predicate Registry(s: State) {
    && (forall k :: k in s.peers ==> s.peers[k] < |s.streams| && s.streams[s.peers[k]].key == k)
    && (s.pc.Sending? ==>
          && s.pc.id < |s.streams| && s.streams[s.pc.id].key == s.pc.key
          && s.pc.key in s.peers && s.peers[s.pc.key] == s.pc.id)
    // a key listed since the last sweep is still registered
    && (!s.pc.LoopTop? && !s.pc.Stopped? ==> forall k :: k in s.deadKeys ==> k in s.peers)
  }

  /** A datagram goes to a stream of its own key, and is discarded only if that stream is gone. */
  ghost predicate RoutedOk(e: Routed, streams: seq<Stream>) {
    e.id < |streams| && streams[e.id].key == e.key && (e.discarded ==> streams[e.id].phase.Closed?)
  }

  ghost predicate Routing(s: State) {
    && (forall n :: 0 <= n < |s.routed| ==> RoutedOk(s.routed[n], s.streams))
    && (forall i :: 0 <= i < |s.streams| ==> SentTo(s.routed, i) == s.streams[i].taken + s.streams[i].chan)
  }

  /** What came off the socket is what was dealt with and what is in hand. */
  ghost predicate Ledger(s: State) {
    if s.pc.Stopped? then Dealt(s.routed) <= s.received else Dealt(s.routed) + InHand(s.pc) == s.received
  }

  ghost predicate ByKey(s: State) {
    forall key :: KeptOf(s.routed, key) == HeldBy(s.streams, key)
  }

  ghost predicate Registered(s: State) {
    && Registry(s)
    && forall i :: 0 <= i < |s.streams| ==> StreamOk(s.streams[i], i, !s.pc.Stopped?, s.peers, s.deadKeys)
  }

  ghost predicate Inv(s: State) { Registered(s) && Routing(s) && Ledger(s) && ByKey(s) }

  lemma AcceptKeepsRouting(s: State)
    requires Inv(s) && Enabled(s, Accept)
    ensures Routing(Apply(s, Accept)) && ByKey(Apply(s, Accept))
  {
    hide SentTo;
    hide KeptOf;
    var t := Apply(s, Accept);
    var e := t.routed[|s.routed|];
    NothingSentYet(s.routed, |s.streams|);
    forall i | 0 <= i < |t.streams|
      ensures SentTo(t.routed, i) == t.streams[i].taken + t.streams[i].chan
    {
      RoutedAppend(s.routed, e, i);
    }
    forall key
      ensures KeptOf(t.routed, key) == HeldBy(t.streams, key)
    {
      RoutedAppend(s.routed, e, 0);
      assert t.streams[..|s.streams|] == s.streams;
      assert t.streams[|s.streams|].taken + t.streams[|s.streams|].chan == [e.data];
    }
  }

  lemma SendOkKeepsRouting(s: State)
    requires Inv(s) && Enabled(s, SendOk)
    ensures Routing(Apply(s, SendOk)) && ByKey(Apply(s, SendOk))
  {
    hide SentTo;
    hide KeptOf;
    hide HeldBy;
    var t := Apply(s, SendOk);
    var e := t.routed[|s.routed|];
    forall i | 0 <= i < |t.streams|
      ensures SentTo(t.routed, i) == t.streams[i].taken + t.streams[i].chan
    {
      RoutedAppend(s.routed, e, i);
    }
    forall key
      ensures KeptOf(t.routed, key) == HeldBy(t.streams, key)
    {
      RoutedAppend(s.routed, e, 0);
      HeldAfterSend(s.streams, s.pc.id, t.streams[s.pc.id], s.pc.data, key);
    }
  }

  lemma SendFailsKeepsRouting(s: State)
    requires Inv(s) && Enabled(s, SendFails)
    ensures Routing(Apply(s, SendFails)) && ByKey(Apply(s, SendFails))
  {
    hide SentTo;
    hide KeptOf;
    hide HeldBy;
    var t := Apply(s, SendFails);
    var e := t.routed[|s.routed|];
    forall i | 0 <= i < |t.streams|
      ensures SentTo(t.routed, i) == t.streams[i].taken + t.streams[i].chan
    {
      RoutedAppend(s.routed, e, i);
    }
    RoutedAppend(s.routed, e, 0);
  }

  lemma StreamStepKeepsRouting(s: State, a: Action)
    requires Inv(s) && Enabled(s, a) && (a.Take? || a.DropPush? || a.DropClose?)
    ensures Routing(Apply(s, a)) && ByKey(Apply(s, a))
  {
    hide SentTo;
    hide KeptOf;
    hide HeldBy;
    var t := Apply(s, a);
    var st, st' := s.streams[a.id], t.streams[a.id];
    assert st'.taken + st'.chan == st.taken + st.chan;
    forall key
      ensures KeptOf(t.routed, key) == HeldBy(t.streams, key)
    {
      SameHeld(s.streams, t.streams, key);
    }
  }

  lemma StepKeepsRouting(s: State, a: Action)
    requires Inv(s) && Enabled(s, a)
    ensures Routing(Apply(s, a)) && ByKey(Apply(s, a))
  {
    hide Routing;
    hide ByKey;
    match a
    case Accept => AcceptKeepsRouting(s);
    case SendOk => SendOkKeepsRouting(s);
    case SendFails => SendFailsKeepsRouting(s);
    case Take(_) => StreamStepKeepsRouting(s, a);
    case DropPush(_) => StreamStepKeepsRouting(s, a);
    case DropClose(_) => StreamStepKeepsRouting(s, a);
    case _ => SameRouting(s, Apply(s, a));
  }

  lemma SameRouting(s: State, t: State)
    requires Routing(s) && ByKey(s) && t.streams == s.streams && t.routed == s.routed
    ensures Routing(t) && ByKey(t)
  {
  }

  lemma StepKeepsLedger(s: State, a: Action)
    requires Ledger(s) && Enabled(s, a)
    ensures Ledger(Apply(s, a))
  {
    var t := Apply(s, a);
    if |t.routed| > |s.routed| {
      assert Dealt(t.routed) == Dealt(s.routed) + InHand(s.pc);
    } else {
      assert t.routed == s.routed;
    }
  }

  lemma AcceptKeepsRegistry(s: State)
    requires Registered(s) && Enabled(s, Accept)
    ensures Registered(Apply(s, Accept))
  {
  }

  lemma SendKeepsRegistry(s: State, a: Action)
    requires Registered(s) && Enabled(s, a) && (a.SendOk? || a.SendFails?)
    ensures Registered(Apply(s, a))
  {
  }

  lemma TakeKeepsRegistry(s: State, id: nat)
    requires Registered(s) && Enabled(s, Take(id))
    ensures Registered(Apply(s, Take(id)))
  {
  }

  lemma DropPushKeepsRegistry(s: State, id: nat)
    requires Registered(s) && Enabled(s, DropPush(id))
    ensures Registered(Apply(s, DropPush(id)))
  {
  }

  lemma DropCloseKeepsRegistry(s: State, id: nat)
    requires Registered(s) && Enabled(s, DropClose(id))
    ensures Registered(Apply(s, DropClose(id)))
  {
  }

  lemma LoopStepKeepsRegistry(s: State, a: Action)
    requires Registered(s) && Enabled(s, a)
    requires a.Sweep? || a.Recv? || a.RecvInvalid? || a.RecvFails? || a.Route? || a.Cancel?
    ensures Registered(Apply(s, a))
  {
  }

  lemma StepKeepsRegistry(s: State, a: Action)
    requires Registered(s) && Enabled(s, a)
    ensures Registered(Apply(s, a))
  {
    hide Registered;
    hide Apply;
    match a
    case Accept => AcceptKeepsRegistry(s);
    case SendOk => SendKeepsRegistry(s, a);
    case SendFails => SendKeepsRegistry(s, a);
    case Take(id) => TakeKeepsRegistry(s, id);
    case DropPush(id) => DropPushKeepsRegistry(s, id);
    case DropClose(id) => DropCloseKeepsRegistry(s, id);
    case _ => LoopStepKeepsRegistry(s, a);
  }

  lemma StepKeepsInv(s: State, a: Action)
    requires Inv(s) && Enabled(s, a)
    ensures Inv(Apply(s, a))
  {
    hide Apply;
    StepKeepsRegistry(s, a);
    StepKeepsRouting(s, a);
    StepKeepsLedger(s, a);
  }

  lemma {:induction false} RunKeepsInv(s: State, acts: seq<Action>)
    requires Inv(s) && Runs(s, acts)
    ensures Inv(Exec(s, acts))
    decreases |acts|
  {
    hide Inv;
    hide Apply;
    if acts != [] {
      StepKeepsInv(s, acts[0]);
      RunKeepsInv(Apply(s, acts[0]), acts[1..]);
    }
  }

  ghost predicate Reached(s: State) {
    exists acts :: Runs(INITIAL, acts) && Exec(INITIAL, acts) == s
  }

  lemma ReachedInv(s: State)
    requires Reached(s)
    ensures Inv(s)
  {
    var acts :| Runs(INITIAL, acts) && Exec(INITIAL, acts) == s;
    assert Inv(INITIAL);
    RunKeepsInv(INITIAL, acts);
  }

  // ----- the promises -----

  function LiveKeys(s: State): set<Key> {
    set i | 0 <= i < |s.streams| && s.streams[i].phase.Open? :: s.streams[i].key
  }

  /**
   While the relay runs, the registered keys lie between the live keys and the live or
   dead-listed ones, live streams have distinct keys and are registered under their own io,
   and neither the sweep nor the removal after a failed send evicts a live stream.
   */
  lemma RegistryIsSafe(s: State)
    requires Reached(s) && !s.pc.Stopped?
    ensures LiveKeys(s) <= s.peers.Keys <= LiveKeys(s) + (set k | k in s.deadKeys)
    ensures LiveKeys(s) !! (set k | k in s.deadKeys)
    ensures forall i :: 0 <= i < |s.streams| && s.streams[i].phase.Open? ==>
              s.streams[i].key in s.peers && s.peers[s.streams[i].key] == i
    ensures forall i, j :: 0 <= i < j < |s.streams| && s.streams[i].phase.Open? && s.streams[j].phase.Open? ==>
              s.streams[i].key != s.streams[j].key
    ensures Enabled(s, Sweep) ==> LiveKeys(s) <= Apply(s, Sweep).peers.Keys
    ensures Enabled(s, SendFails) ==> LiveKeys(s) <= Apply(s, SendFails).peers.Keys
  {
    ReachedInv(s);
  }

  /**
   No datagram is lost, repeated, reordered or misrouted by the relay. While it runs, what came off
   the socket is what it has dealt with and what it holds. For every key, what was not discarded is
   in order what the streams of that key, one after the other, have taken and still hold; and
   nothing of a key is discarded while no stream of that key is gone.
   */
  lemma RoutingIsFaithful(s: State, key: Key)
    requires Reached(s)
    ensures !s.pc.Stopped? ==> Dealt(s.routed) + InHand(s.pc) == s.received
    ensures Dealt(s.routed) <= s.received
    ensures KeptOf(s.routed, key) == HeldBy(s.streams, key)
    ensures (forall i :: 0 <= i < |s.streams| && s.streams[i].key == key ==> !s.streams[i].phase.Closed?) ==>
              HeldBy(s.streams, key) == OfKey(Dealt(s.routed), key)
  {
    ReachedInv(s);
    if forall i :: 0 <= i < |s.streams| && s.streams[i].key == key ==> !s.streams[i].phase.Closed? {
      forall n | 0 <= n < |s.routed| && s.routed[n].key == key
        ensures !s.routed[n].discarded
      {
        assert RoutedOk(s.routed[n], s.streams);
      }
      KeptIsOfKey(s.routed, key);
    }
  }

  lemma {:induction false} KeptIsOfKey(routed: seq<Routed>, key: Key)
    requires forall n :: 0 <= n < |routed| && routed[n].key == key ==> !routed[n].discarded
    ensures KeptOf(routed, key) == OfKey(Dealt(routed), key)
  {
    if routed != [] {
      var init := routed[..|routed| - 1];
      assert Dealt(routed)[..|routed| - 1] == Dealt(init);
      KeptIsOfKey(init, key);
    }
  }

  /** Stream by stream: what it has taken and holds is what was queued for it, all of its own key. */
  lemma StreamIsFaithful(s: State, i: nat)
    requires Reached(s) && i < |s.streams|
    ensures s.streams[i].taken + s.streams[i].chan == SentTo(s.routed, i)
    ensures |s.streams[i].chan| <= 1024
    ensures forall n :: 0 <= n < |s.routed| && s.routed[n].id == i ==> s.routed[n].key == s.streams[i].key
  {
    ReachedInv(s);
    forall n | 0 <= n < |s.routed| && s.routed[n].id == i
      ensures s.routed[n].key == s.streams[i].key
    {
      assert RoutedOk(s.routed[n], s.streams);
    }
  }

  /** What is queued in a stream and can no longer be taken. */
  function Abandoned(streams: seq<Stream>, key: Key): seq<Payload> {
    if streams == [] then []
    else
      var last := streams[|streams| - 1];
      Abandoned(streams[..|streams| - 1], key) + (if last.key == key && !last.phase.Open? then last.chan else [])
  }

  function Discarded(routed: seq<Routed>, key: Key): nat {
    if routed == [] then 0
    else
      var last := routed[|routed| - 1];
      Discarded(routed[..|routed| - 1], key) + if last.key == key && last.discarded then 1 else 0
  }

  function TakenOrQueued(streams: seq<Stream>, key: Key): nat {
    if streams == [] then 0
    else
      var last := streams[|streams| - 1];
      TakenOrQueued(streams[..|streams| - 1], key) +
      if last.key != key then 0 else |last.taken| + if last.phase.Open? then |last.chan| else 0
  }

  /**
   Every datagram of a key that was dealt with is accounted for: taken or queued in the open stream,
   left in the channel of a stream that was dropped, or discarded by a failed send. The last two do
   not happen to a key whose streams are all open.
   */
  lemma LossesAreCounted(s: State, key: Key)
    requires Reached(s)
    ensures |OfKey(Dealt(s.routed), key)| ==
            TakenOrQueued(s.streams, key) + |Abandoned(s.streams, key)| + Discarded(s.routed, key)
    ensures (forall i :: 0 <= i < |s.streams| && s.streams[i].key == key ==> s.streams[i].phase.Open?) ==>
              |OfKey(Dealt(s.routed), key)| == TakenOrQueued(s.streams, key)
  {
    ReachedInv(s);
    CountKept(s.routed, key);
    CountHeld(s.streams, key);
    if forall i :: 0 <= i < |s.streams| && s.streams[i].key == key ==> s.streams[i].phase.Open? {
      forall n | 0 <= n < |s.routed| && s.routed[n].key == key
        ensures !s.routed[n].discarded
      {
        assert RoutedOk(s.routed[n], s.streams);
      }
      KeptIsOfKey(s.routed, key);
      NoneAbandoned(s.streams, key);
    }
  }

  lemma {:induction false} CountKept(routed: seq<Routed>, key: Key)
    ensures |OfKey(Dealt(routed), key)| == |KeptOf(routed, key)| + Discarded(routed, key)
  {
    if routed != [] {
      var init := routed[..|routed| - 1];
      assert Dealt(routed)[..|routed| - 1] == Dealt(init);
      CountKept(init, key);
    }
  }

  lemma {:induction false} CountHeld(streams: seq<Stream>, key: Key)
    ensures |HeldBy(streams, key)| == TakenOrQueued(streams, key) + |Abandoned(streams, key)|
  {
    if streams != [] {
      CountHeld(streams[..|streams| - 1], key);
    }
  }

  lemma {:induction false} NoneAbandoned(streams: seq<Stream>, key: Key)
    requires forall i :: 0 <= i < |streams| && streams[i].key == key ==> streams[i].phase.Open?
    ensures Abandoned(streams, key) == []
  {
    if streams != [] {
      NoneAbandoned(streams[..|streams| - 1], key);
    }
  }

  /** A send fails only when its stream is gone and its key already listed as dead. */
  lemma FailedSendsAreToTheDead(s: State)
    requires Reached(s) && Enabled(s, SendFails)
    ensures s.streams[s.pc.id].key == s.pc.key && !s.streams[s.pc.id].phase.Open? && s.pc.key in s.deadKeys
    ensures s.pc.key !in LiveKeys(s)
  {
    ReachedInv(s);
  }

  /**
   A send that has to wait is released by its own stream: by the next take if the stream is open
   with a full channel, by the end of its drop if it is being dropped; and the relay is back at the
   top of its loop.
   */
  lemma SendIsReleased(s: State)
    requires Reached(s) && s.pc.Sending?
    ensures s.pc.id < |s.streams|
    ensures var id, st := s.pc.id, s.streams[s.pc.id];
            if st.phase.Open? && |st.chan| == 1024 then
              && Enabled(s, Take(id)) && Enabled(Apply(s, Take(id)), SendOk)
              && Apply(Apply(s, Take(id)), SendOk).pc.LoopTop?
            else if st.phase.Closed? then
              Enabled(s, SendFails) && Apply(s, SendFails).pc.LoopTop?
            else if |st.chan| == 1024 then
              Enabled(s, DropClose(id)) && Enabled(Apply(s, DropClose(id)), SendFails)
              && Apply(Apply(s, DropClose(id)), SendFails).pc.LoopTop?
            else
              Enabled(s, SendOk) && Apply(s, SendOk).pc.LoopTop?
  {
    ReachedInv(s);
  }

  /**
   A running relay stops exactly by failing to receive or by being cancelled; a datagram that is not
   well formed is passed over, with nothing changed but that dead keys are swept before the next.
   */
  lemma StopsExactlyByFailing(s: State, a: Action)
    requires Enabled(s, a) && !s.pc.Stopped?
    ensures Apply(s, a).pc.Stopped? <==> a == RecvFails || a == Cancel
    ensures a == RecvInvalid ==> Apply(s, a) == s.(pc := LoopTop)
  {
  }

  /** And then for good: nothing is received, routed or registered any more. */
  lemma {:induction false} StoppedForGood(s: State, acts: seq<Action>)
    requires s.pc.Stopped? && Runs(s, acts)
    ensures var t := Exec(s, acts);
            && t.pc.Stopped? && t.peers == s.peers && |t.streams| == |s.streams|
            && t.received == s.received && t.routed == s.routed
    decreases |acts|
  {
    if acts != [] {
      StoppedForGood(Apply(s, acts[0]), acts[1..]);
    }
  }

  // ----- the program's form -----

  class Socks5UdpServer {
    var streams: seq<Stream>
    var peers: map<Key, nat>
    var keysToDelete: seq<Key>
    var pc: ServerPc
    var received: seq<(Key, Payload)>
    var routed: seq<Routed>

    ghost function Abs(): State
      reads this
    {
      State(streams, peers, keysToDelete, pc, received, routed)
    }

    method CleanDeadKeys()
      modifies this`peers, this`keysToDelete
      ensures peers == old(peers) - (set k | k in old(keysToDelete)) && keysToDelete == []
    {
      if |keysToDelete| == 0 {
        return;
      }
      var i := 0;
      while i < |keysToDelete|
        invariant 0 <= i <= |keysToDelete| && keysToDelete == old(keysToDelete)
        invariant peers == old(peers) - (set k | k in keysToDelete[..i])
      {
        peers := peers - {keysToDelete[i]};
        i := i + 1;
      }
      assert keysToDelete[..|keysToDelete|] == keysToDelete;
      keysToDelete := [];
    }

    /** One turn of the receive loop on a well-formed datagram, up to the send it may have to await. */
    method ReceiveOne(key: Key, data: Payload) returns (accepted: bool)
      requires pc.LoopTop?
      modifies this
      ensures accepted <==> key !in old(peers) || key in old(keysToDelete)
      ensures Abs() == Apply(Apply(Apply(old(Abs()), Sweep), Recv(key, data)), if accepted then Accept else Route)
    {
      CleanDeadKeys();
      received := received + [(key, data)];
      accepted := key !in peers;
      if accepted {
        streams := streams + [Stream(key, Open, [data], [])];
        peers := peers[key := |streams| - 1];
        routed := routed + [Routed(key, data, |streams| - 1, false)];
        pc := LoopTop;
      } else {
        pc := Sending(peers[key], key, data);
      }
    }

    /** The awaited send completes: the receiver is there with room, or it is gone. */
    method FinishSend()
      requires Enabled(Abs(), SendOk) || Enabled(Abs(), SendFails)
      modifies this
      ensures Abs() == Apply(old(Abs()), if old(Enabled(Abs(), SendOk)) then SendOk else SendFails)
    {
      var id, key, data := pc.id, pc.key, pc.data;
      if streams[id].phase.Closed? {
        peers := peers - {key};
        routed := routed + [Routed(key, data, id, true)];
      } else {
        streams := streams[id := streams[id].(chan := streams[id].chan + [data])];
        routed := routed + [Routed(key, data, id, false)];
      }
      pc := LoopTop;
    }
  }

  datatype SendResult = SendPending | SendError | Sent(len: nat)

  /** The writing half: the header is kept in the buffer that datagrams are assembled in. */
  class Socks5UdpStreamWriter {
    var udpHeader: seq<nat>

    /**
     `outcome` is what the socket makes of the datagram; on success it reports the whole length.
     The datagram on the wire is header and payload, the caller is told the payload's length,
     and the buffer holds just the header again whatever happened.
     */
    method PollWrite(buf: seq<nat>, outcome: SendResult) returns (datagram: seq<nat>, r: SendResult)
      requires outcome.Sent? ==> outcome.len == |udpHeader| + |buf|
      modifies this
      ensures udpHeader == old(udpHeader)
      ensures datagram == udpHeader + buf
      ensures r == if outcome.Sent? then Sent(|buf|) else outcome
    {
      var headerLen := |udpHeader|;
      udpHeader := udpHeader + buf;
      datagram := udpHeader;
      udpHeader := udpHeader[..headerLen];
      r := if outcome.Sent? then Sent(outcome.len - headerLen) else outcome;
    }
  }
}
