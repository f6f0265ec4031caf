/**
 Every schedule of the tunnel transport settles: however the loops of the two endpoints are
 interleaved, only so many of their own steps can change anything, and when none can any more every
 chunk that was read has been written at the far side and every ping has been answered.
 */
module TransportDrain {
  import opened Notify
  import opened Transport
  import opened TransportLaws

  /** The steps that need neither new data nor a tick of the clock nor a failure. */
  predicate Own(a: Act) {
    || a.PollPending? || a.DrainOne? || a.DrainDone? || a.WriteData?
    || a.RecvFrame? || a.WriteOut? || a.SendOp? || a.NotifyOps?
  }

  /** Both loops run and heard of every control frame, and no close has been sent or received. */
  ghost predicate Flowing(me: Endpoint) {
    && (me.wpc.Select? || me.wpc.Holding? || me.wpc.Draining?) && !me.rpc.ReaderEnded? && me.early == 0
    && (forall f :: f in me.out ==> !f.Close?) && (forall op :: op in me.ops ==> !op.OpClose?)
    && (me.rpc.Enqueuing? || me.rpc.Notifying? ==> !me.rpc.op.OpClose?)
  }

  // ----- the work that is left -----

  /** A frame has to be received and written out, or queued, announced, heard of and answered. */
  function FrameWork(f: Frame): nat {
    match f
    case Binary(_) => 2
    case Ping => 14
    case Pong => 7
    case Close => 0
  }

  function OpWork(op: Op): nat {
    match op
    case OpPing => 8
    case OpPong => 1
    case OpClose => 0
  }

  function OutWork(out: seq<Frame>): nat {
    if out == [] then 0 else FrameWork(out[0]) + OutWork(out[1..])
  }

  function OpsWork(ops: seq<Op>): nat {
    if ops == [] then 0 else OpWork(ops[0]) + OpsWork(ops[1..])
  }

  function ReaderWork(rpc: ReaderPc): nat {
    match rpc
    case WritingOut(_) => 1
    case Enqueuing(op) => 5 + OpWork(op)
    case Notifying(_) => 4
    case _ => 0
  }

  /** An announcement costs a turn into the draining and back, and a new wait. */
  function WriterWork(wpc: WriterPc, notify: Notify): nat {
    (if wpc.Holding? then 3 else if wpc.Draining? then 1 else 0) +
    (if notify.Ready() then 3 else if notify.fut.Init? then 1 else 0)
  }

  function Work(me: Endpoint): nat {
    OutWork(me.out) + OpsWork(me.ops) + ReaderWork(me.rpc) + WriterWork(me.wpc, me.notify)
  }

  lemma {:induction false} OutWorkAppend(out: seq<Frame>, f: Frame)
    ensures OutWork(out + [f]) == OutWork(out) + FrameWork(f)
  {
    if out == [] {
      assert out + [f] == [f];
    } else {
      OutWorkAppend(out[1..], f);
      assert (out + [f])[1..] == out[1..] + [f];
    }
  }

  lemma {:induction false} OpsWorkAppend(ops: seq<Op>, op: Op)
    ensures OpsWork(ops + [op]) == OpsWork(ops) + OpWork(op)
  {
    if ops == [] {
      assert ops + [op] == [op];
    } else {
      OpsWorkAppend(ops[1..], op);
      assert (ops + [op])[1..] == ops[1..] + [op];
    }
  }

  // ----- every own step keeps the flow and does some of the work -----

  lemma WriterStepWorks(me: Endpoint, peer: Endpoint, a: Act)
    requires Flowing(me) && WakeLaw(me) && Can(me, peer, a) && (a.PollPending? || a.DrainDone? || a.WriteData?)
    ensures var (m, p) := Do(me, peer, a);
            Flowing(m) && p == peer && m.readLog == me.readLog && (m == me || Work(m) < Work(me))
  {
    hide OutWork;
    hide OpsWork;
    if a.WriteData? {
      OutWorkAppend(me.out, Binary(me.wpc.data));
    }
  }

  lemma DrainWorks(me: Endpoint, peer: Endpoint)
    requires Flowing(me) && Can(me, peer, DrainOne)
    ensures var (m, p) := Do(me, peer, DrainOne);
            Flowing(m) && p == peer && m.readLog == me.readLog && Work(m) < Work(me)
  {
    hide OutWork;
    OutWorkAppend(me.out, Pong);
  }

  lemma QueueingWorks(me: Endpoint, peer: Endpoint, a: Act)
    requires Flowing(me) && Can(me, peer, a) && (a.WriteOut? || a.SendOp? || a.NotifyOps?)
    ensures var (m, p) := Do(me, peer, a);
            Flowing(m) && p == peer && m.readLog == me.readLog && Work(m) < Work(me)
  {
    hide OutWork;
    hide OpsWork;
    if a.SendOp? {
      OpsWorkAppend(me.ops, me.rpc.op);
    }
  }

  lemma RecvWorks(me: Endpoint, peer: Endpoint)
    requires Flowing(me) && Flowing(peer) && Can(me, peer, RecvFrame)
    ensures var (m, p) := Do(me, peer, RecvFrame);
            && Flowing(m) && Flowing(p) && m.readLog == me.readLog && p.readLog == peer.readLog
            && Work(m) + Work(p) < Work(me) + Work(peer)
  {
    hide OpsWork;
    assert OutWork(peer.out) == FrameWork(peer.out[0]) + OutWork(peer.out[1..]);
  }

  lemma OwnStepWorks(me: Endpoint, peer: Endpoint, a: Act)
    requires Flowing(me) && Flowing(peer) && WakeLaw(me) && Can(me, peer, a) && Own(a)
    ensures var (m, p) := Do(me, peer, a);
            && Flowing(m) && Flowing(p) && m.readLog == me.readLog && p.readLog == peer.readLog
            && ((m, p) == (me, peer) || Work(m) + Work(p) < Work(me) + Work(peer))
  {
    hide Flowing;
    hide Work;
    hide Do;
    hide WakeLaw;
    match a
    case DrainOne => DrainWorks(me, peer);
    case RecvFrame => RecvWorks(me, peer);
    case WriteOut => QueueingWorks(me, peer, a);
    case SendOp => QueueingWorks(me, peer, a);
    case NotifyOps => QueueingWorks(me, peer, a);
    case _ => WriterStepWorks(me, peer, a);
  }

  // ----- runs -----

  ghost predicate Good(s: Pair) { Laws(s.left, s.right) && Flowing(s.left) && Flowing(s.right) }

  function Potential(s: Pair): nat { Work(s.left) + Work(s.right) }

  lemma OwnStepCosts(s: Pair, st: Step)
    requires Good(s) && Enabled(s, st) && Own(st.act)
    ensures var t := Apply(s, st);
            && Good(t) && t.left.readLog == s.left.readLog && t.right.readLog == s.right.readLog
            && (t == s || Potential(t) < Potential(s))
  {
    hide Flowing;
    hide Work;
    hide Do;
    hide WakeLaw;
    hide PingLaws;
    hide StreamLaws;
    if st.onLeft {
      StepKeepsLaws(s.left, s.right, st.act);
      OwnStepWorks(s.left, s.right, st.act);
    } else {
      LawsAreMutual(s.left, s.right);
      StepKeepsLaws(s.right, s.left, st.act);
      OwnStepWorks(s.right, s.left, st.act);
      LawsAreMutual(Do(s.right, s.left, st.act).0, Do(s.right, s.left, st.act).1);
    }
  }

  lemma LawsAreMutual(me: Endpoint, peer: Endpoint)
    requires Laws(me, peer)
    ensures Laws(peer, me)
  {
    hide PingLaw;
    hide StreamLaw;
  }

  /** A run of the loops' own steps, each of which changes something. */
  predicate Busy(s: Pair, steps: seq<Step>)
    decreases |steps|
  {
    steps == [] ||
    (Enabled(s, steps[0]) && Own(steps[0].act) && Apply(s, steps[0]) != s && Busy(Apply(s, steps[0]), steps[1..]))
  }

  lemma {:induction false} BusyRunsAreBounded(s: Pair, steps: seq<Step>)
    requires Good(s) && Busy(s, steps)
    ensures Runs(s, steps) && |steps| <= Potential(s)
    ensures var t := Exec(s, steps);
            Good(t) && t.left.readLog == s.left.readLog && t.right.readLog == s.right.readLog
    decreases |steps|
  {
    hide Good;
    hide Apply;
    hide Potential;
    if steps != [] {
      OwnStepCosts(s, steps[0]);
      BusyRunsAreBounded(Apply(s, steps[0]), steps[1..]);
    }
  }

  // ----- at rest -----

  /** Nothing that `me` can do by itself changes anything. */
  ghost predicate Idle(me: Endpoint, peer: Endpoint) {
    forall a :: Can(me, peer, a) && Own(a) ==> Do(me, peer, a) == (me, peer)
  }

  /** No loop can do anything by itself that would change anything. */
  ghost predicate AtRest(s: Pair) {
    forall st :: Enabled(s, st) && Own(st.act) ==> Apply(s, st) == s
  }

  lemma RestIsIdle(s: Pair)
    requires AtRest(s)
    ensures Idle(s.left, s.right) && Idle(s.right, s.left)
  {
    forall a | Can(s.left, s.right, a) && Own(a)
      ensures Do(s.left, s.right, a) == (s.left, s.right)
    {
      assert Enabled(s, Step(true, a)) && Apply(s, Step(true, a)) == s;
    }
    forall a | Can(s.right, s.left, a) && Own(a)
      ensures Do(s.right, s.left, a) == (s.right, s.left)
    {
      assert Enabled(s, Step(false, a)) && Apply(s, Step(false, a)) == s;
    }
  }

  lemma IdleReader(me: Endpoint, peer: Endpoint)
    requires Idle(me, peer) && !me.wpc.WriterEnded? && !me.rpc.ReaderEnded? && |me.ops| < QUEUE_SIZE
    ensures me.rpc.Reading? && peer.out == []
  {
    hide Count;
    assert Can(me, peer, WriteOut) ==> Do(me, peer, WriteOut).0 == me;
    assert Can(me, peer, SendOp) ==> Do(me, peer, SendOp).0 == me;
    assert Can(me, peer, NotifyOps) ==> Do(me, peer, NotifyOps).0 == me;
    assert Can(me, peer, RecvFrame) ==> Do(me, peer, RecvFrame).0 == me;
  }

  lemma IdleWriter(me: Endpoint, peer: Endpoint)
    requires Idle(me, peer) && Flowing(me)
    ensures me.wpc.Select? && !me.notify.Ready()
  {
    hide Count;
    assert Can(me, peer, WriteData) ==> Do(me, peer, WriteData).0 == me;
    assert Can(me, peer, DrainDone) ==> Do(me, peer, DrainDone).0 == me;
    assert Can(me, peer, DrainOne) ==> |Do(me, peer, DrainOne).0.ops| == |me.ops|;
    assert Can(me, peer, PollPending) ==> Do(me, peer, PollPending).0 == me;
  }

  lemma QueueHasRoom(me: Endpoint, peer: Endpoint)
    requires Laws(me, peer)
    ensures |me.ops| < QUEUE_SIZE
  {
    OpsAreCounted(me.ops);
  }

  /** At rest nothing is on the wires, in the queues or in hand. */
  lemma IdleIsSettled(me: Endpoint, peer: Endpoint)
    requires Laws(me, peer) && Flowing(me) && Flowing(peer) && Idle(me, peer) && Idle(peer, me)
    ensures me.inFlight == 0 && peer.writtenLog == me.readLog
  {
    LawsAreMutual(me, peer);
    QueueHasRoom(me, peer);
    QueueHasRoom(peer, me);
    IdleReader(me, peer);
    IdleReader(peer, me);
    IdleWriter(me, peer);
    IdleWriter(peer, me);
    hide Idle;
    assert me.ops == [] && peer.ops == [];
    NothingOutstanding(me, peer);
    assert Binaries(me.out) == [];
  }

  lemma NothingOutstanding(me: Endpoint, peer: Endpoint)
    requires me.out == [] && peer.out == [] && me.ops == [] && peer.ops == [] && me.rpc.Reading? && peer.rpc.Reading?
    ensures Outstanding(me, peer) == 0
  {
  }

  /**
   Every schedule delivers everything: from every reached state in which the loops run, have heard of
   every control frame and no close is under way, every run of the loops' own steps that change
   something is bounded in length, and one that cannot be continued has written every chunk read on
   either side at the other, and has answered every ping.
   */
  lemma EveryScheduleSettles(s: Pair, steps: seq<Step>)
    requires Reached(s) && Flowing(s.left) && Flowing(s.right) && Busy(s, steps)
    ensures Runs(s, steps) && |steps| <= Potential(s)
    ensures var t := Exec(s, steps);
            AtRest(t) ==>
              && t.left.inFlight == 0 && t.right.inFlight == 0
              && t.right.writtenLog == s.left.readLog && t.left.writtenLog == s.right.readLog
  {
    hide Reached;
    hide Flowing;
    hide Laws;
    ReachedLaws(s);
    BusyRunsAreBounded(s, steps);
    var t := Exec(s, steps);
    if AtRest(t) {
      RestIsIdle(t);
      IdleIsSettled(t.left, t.right);
      LawsAreMutual(t.left, t.right);
      IdleIsSettled(t.right, t.left);
    }
  }

  /**
   A close gets through: while the writer loop of `me` runs, its reader goes on taking frames as long
   as it can do anything, so at rest it has ended, or has taken everything the peer has sent.
   */
  lemma CloseGetsThrough(me: Endpoint, peer: Endpoint)
    requires Ends(me, peer) && Idle(me, peer) && !me.wpc.WriterEnded?
    ensures me.rpc.ReaderEnded? || (me.rpc.Reading? && peer.out == [])
  {
    EndsLaws(me, peer);
    QueueHasRoom(me, peer);
    if !me.rpc.ReaderEnded? {
      IdleReader(me, peer);
    }
  }
}
