/**
 One listener of a reverse tunnel: the listener that accepts connections and queues them, the requests
 that wait for one, the entry in the registry of listeners, and the idle check that closes it all.
 Atomic accesses, lock acquisitions and channel operations are separate steps.
 */
module ReverseTunnel {
  import opened Common
  const QUEUE: nat := 10

  /** Connections are told apart by the order in which they were accepted. */
  type Conn = nat

  /**
   A request that has been counted: before its receiver is cloned, while it waits, with its
   connection in hand, and gone with or without one.
   */
  datatype Request = Counted | Waiting | Holding(conn: Conn) | Left(got: Option<Conn>)

  /** The listener task: in its select, queueing a connection, between the two idle tests, on its way out. */
  datatype Phase = Selecting | Sending(conn: Conn) | Swapped | Closing | Removed | Gone

  /** The request that spawned the listener, until the entry is in the registry. */
  datatype Creator = Spawned | HasCounted | HasCloned | Inserted

  datatype State = State(
    phase: Phase,
    queue: seq<Conn>,
    seen: nat,
    requests: seq<Request>,     // in the order of their counting; the creator's is the first
    creator: Creator,
    registered: bool,
    lastSwap: nat,              // requests counted when the idle test last took the counter
    previousSwap: nat,          // and the time before
    accepted: nat,
    delivered: seq<Conn>,       // in order of delivery
    takers: seq<nat>,           // the requests they were delivered to
    dropped: Option<Conn>)      // given up by the listener

  datatype Step =
    | Count                // `fetch_add`, by the creator or under the registry lock
    | Clone(r: nat)
    | Insert
    | Receive(r: nat)
    | Leave(r: nat)        // the receiver is dropped, also when the request is cancelled
    | Refused(r: nat)      // the channel is closed and empty
    | Accept
    | Enqueue
    | GiveUp               // the queue stayed full for the idle time
    | Exhausted            // no more connections will come
    | Swap
    | Check
    | Remove
    | Close

  function ConnOf(q: Request): Option<Conn> {
    match q
    case Holding(c) => Some(c)
    case Left(got) => got
    case _ => None
  }

  predicate HasReceiver(q: Request) { q.Waiting? || q.Holding? }

  function Receivers(qs: seq<Request>): nat {
    if qs == [] then 0 else Receivers(qs[..|qs| - 1]) + if HasReceiver(qs[|qs| - 1]) then 1 else 0
  }

  /** A request under the registry lock keeps the entry in: no removal between its count and its clone. */
  predicate Joining(s: State) { exists r :: 0 < r < |s.requests| && s.requests[r].Counted? }

  /** The creator's own request awaits nothing before the entry is in the registry. */
  predicate AtLarge(s: State, r: nat) { r == 0 ==> s.creator.Inserted? }

  predicate Enabled(s: State, a: Step) {
    match a
    case Count => s.creator.Spawned? || s.registered
    case Clone(r) => r < |s.requests| && s.requests[r].Counted?
    case Insert => s.creator.HasCloned?
    case Receive(r) => r < |s.requests| && s.requests[r].Waiting? && s.queue != [] && AtLarge(s, r)
    case Leave(r) => r < |s.requests| && HasReceiver(s.requests[r]) && AtLarge(s, r)
    case Refused(r) => r < |s.requests| && s.requests[r].Waiting? && s.queue == [] && s.phase.Gone? && AtLarge(s, r)
    case Accept => s.phase.Selecting?
    case Enqueue => s.phase.Sending? && |s.queue| < QUEUE
    case GiveUp => s.phase.Sending?
    case Exhausted => s.phase.Selecting?
    case Swap => s.phase.Selecting?
    case Check => s.phase.Swapped?
    case Remove => s.phase.Closing? && !Joining(s)
    case Close => s.phase.Removed?
  }

  function Apply(s: State, a: Step): State
    requires Enabled(s, a)
  {
    match a
    case Count =>
      s.(seen := s.seen + 1, requests := s.requests + [Counted],
         creator := if s.creator.Spawned? then HasCounted else s.creator)
    case Clone(r) =>
      s.(requests := s.requests[r := Waiting], creator := if r == 0 then HasCloned else s.creator)
    case Insert => s.(registered := true, creator := Inserted)
    case Receive(r) =>
      s.(requests := s.requests[r := Holding(s.queue[0])], queue := s.queue[1..],
         delivered := s.delivered + [s.queue[0]], takers := s.takers + [r])
    case Leave(r) =>
      s.(requests := s.requests[r := Left(ConnOf(s.requests[r]))])
    case Refused(r) => s.(requests := s.requests[r := Left(None)])
    case Accept => s.(phase := Sending(s.accepted), accepted := s.accepted + 1)
    case Enqueue => s.(phase := Selecting, queue := s.queue + [s.phase.conn])
    case GiveUp => s.(phase := Closing, dropped := Some(s.phase.conn))
    case Exhausted => s.(phase := Closing)
    case Swap =>
      s.(seen := 0, previousSwap := s.lastSwap, lastSwap := |s.requests|,
         phase := if s.seen == 0 then Swapped else Selecting)
    // the entry itself holds one receiver
    case Check => s.(phase := if 1 + Receivers(s.requests) <= 1 then Closing else Selecting)
    case Remove => s.(phase := Removed, registered := false)
    case Close => s.(phase := Gone)
  }

  const SPAWNED := State(Selecting, [], 0, [], Spawned, false, 0, 0, 0, [], [], None)

  predicate Runs(s: State, steps: seq<Step>)
    decreases |steps|
  {
    steps == [] || (Enabled(s, steps[0]) && Runs(Apply(s, steps[0]), steps[1..]))
  }

  function Exec(s: State, steps: seq<Step>): State
    requires Runs(s, steps)
    decreases |steps|
  {
    if steps == [] then s else Exec(Apply(s, steps[0]), steps[1..])
  }

  // ----- what every step keeps -----

  lemma {:induction false} NoReceivers(qs: seq<Request>)
    ensures Receivers(qs) == 0 <==> forall r :: 0 <= r < |qs| ==> !HasReceiver(qs[r])
  {
    if qs != [] {
      var init := qs[..|qs| - 1];
      NoReceivers(init);
      forall r | 0 <= r < |init|
        ensures init[r] == qs[r]
      {
      }
    }
  }

  function InHand(p: Phase): seq<Conn> { if p.Sending? then [p.conn] else [] }
  function Lost(d: Option<Conn>): seq<Conn> { if d.Some? then [d.value] else [] }

  /** The accepted connections, in order. */
  function Line(n: nat): (line: seq<Conn>)
    ensures |line| == n && forall i :: 0 <= i < n ==> line[i] == i
  {
    seq(n, i => i)
  }

  /** Every accepted connection is in exactly one place, in the order of acceptance. */
  ghost predicate Conserved(s: State) {
    && s.delivered + s.queue + InHand(s.phase) + Lost(s.dropped) == Line(s.accepted)
    && |s.queue| <= QUEUE
    && (s.dropped.Some? ==> s.phase.Closing? || s.phase.Removed? || s.phase.Gone?)
  }

  /** The request a connection went to, and the connection a request got, agree. */
  ghost predicate Matched(s: State) {
    && |s.takers| == |s.delivered|
    && (forall r :: 0 <= r < |s.requests| && ConnOf(s.requests[r]).Some? ==>
        TookIt(s.takers, ConnOf(s.requests[r]).value, r))
    && (forall c :: 0 <= c < |s.takers| ==> GotIt(s.requests, s.takers[c], c))
  }

  predicate TookIt(takers: seq<nat>, c: Conn, r: nat) { c < |takers| && takers[c] == r }

  predicate GotIt(qs: seq<Request>, r: nat, c: Conn) { r < |qs| && ConnOf(qs[r]) == Some(c) }

  /** The counter is the requests counted since the last swap. */
  predicate Counters(s: State) {
    && s.previousSwap <= s.lastSwap <= |s.requests|
    && s.seen == |s.requests| - s.lastSwap
    && (s.phase.Swapped? ==> s.previousSwap == s.lastSwap)
  }

  predicate OutOfRegistry(p: Phase) { p.Removed? || p.Gone? }

  predicate Registry(s: State) {
    && (s.creator.Spawned? <==> s.requests == [])
    && (s.creator.HasCounted? <==> s.requests != [] && s.requests[0].Counted?)
    && (s.creator.HasCloned? ==> s.requests[0].Waiting?)
    && (!s.creator.Inserted? ==> |s.requests| <= 1 && !s.registered)
    && (s.creator.Inserted? && !OutOfRegistry(s.phase) ==> s.registered)
  }

  ghost predicate Inv(s: State) { Conserved(s) && Matched(s) && Counters(s) && Registry(s) }

  lemma StepKeepsCounters(s: State, a: Step)
    requires Counters(s) && Enabled(s, a)
    ensures Counters(Apply(s, a))
  {
    hide Joining;
    hide Receivers;
  }

  lemma StepKeepsRegistry(s: State, a: Step)
    requires Registry(s) && Enabled(s, a)
    ensures Registry(Apply(s, a))
  {
  }

  lemma StepKeepsConserved(s: State, a: Step)
    requires Conserved(s) && Enabled(s, a)
    ensures Conserved(Apply(s, a))
  {
    hide Joining;
    hide Receivers;
    var s' := Apply(s, a);
    if a.Receive? {
      assert s.delivered + [s.queue[0]] + s.queue[1..] == s.delivered + s.queue;
    } else if a.Accept? {
      assert Line(s'.accepted) == Line(s.accepted) + [s.accepted];
      Regroup(s.delivered + s.queue, [s.accepted]);
    } else if a.Enqueue? {
      assert s.delivered + (s.queue + [s.phase.conn]) == s.delivered + s.queue + [s.phase.conn];
    }
  }

  lemma Regroup(front: seq<Conn>, last: seq<Conn>)
    ensures front + [] + [] + last == front + last + []
  {
  }

  /** The next connection to be delivered is the next number. */
  lemma NextInLine(s: State)
    requires Conserved(s) && s.queue != []
    ensures s.queue[0] == |s.delivered|
  {
    var all := s.delivered + s.queue + InHand(s.phase) + Lost(s.dropped);
    assert all[|s.delivered|] == s.queue[0];
  }

  lemma ReceiveKeepsMatched(s: State, r: nat)
    requires Conserved(s) && Matched(s) && Enabled(s, Receive(r))
    ensures Matched(Apply(s, Receive(r)))
  {
    NextInLine(s);
    var s' := Apply(s, Receive(r));
    forall c | 0 <= c < |s'.takers|
      ensures GotIt(s'.requests, s'.takers[c], c)
    {
      if c < |s.takers| {
        assert GotIt(s.requests, s.takers[c], c) && s.takers[c] != r;
      }
    }
  }

  lemma OthersKeepMatched(s: State, a: Step)
    requires Matched(s) && Enabled(s, a) && !a.Receive?
    ensures Matched(Apply(s, a))
  {
  }

  lemma StepKeepsInv(s: State, a: Step)
    requires Inv(s) && Enabled(s, a)
    ensures Inv(Apply(s, a))
  {
    hide Apply;
    hide Enabled;
    StepKeepsCounters(s, a);
    StepKeepsRegistry(s, a);
    StepKeepsConserved(s, a);
    if a.Receive? {
      ReceiveKeepsMatched(s, a.r);
    } else {
      OthersKeepMatched(s, a);
    }
  }

  lemma {:induction false} RunKeepsInv(s: State, steps: seq<Step>)
    requires Inv(s) && Runs(s, steps)
    ensures Inv(Exec(s, steps))
    decreases |steps|
  {
    hide Apply;
    hide Inv;
    if steps != [] {
      StepKeepsInv(s, steps[0]);
      RunKeepsInv(Apply(s, steps[0]), steps[1..]);
    }
  }

  ghost predicate Reached(s: State) {
    exists steps :: Runs(SPAWNED, steps) && Exec(SPAWNED, steps) == s
  }

  lemma ReachedInv(s: State)
    requires Reached(s)
    ensures Inv(s)
  {
    var steps :| Runs(SPAWNED, steps) && Exec(SPAWNED, steps) == s;
    assert Inv(SPAWNED);
    RunKeepsInv(SPAWNED, steps);
  }

  // ----- the promises -----

  /**
   The idle test closes the listener only if no request was counted between the previous swap and
   this one and, at the count check, none waits or holds a connection; whatever requests did
   between the swap and the check. If one does, the listener goes on.
   */
  lemma IdleCloseOnlyWhenIdle(s: State)
    requires Reached(s) && Enabled(s, Check)
    ensures s.previousSwap == s.lastSwap
    ensures Apply(s, Check).phase.Closing? <==> forall r :: 0 <= r < |s.requests| ==> !HasReceiver(s.requests[r])
    ensures !Apply(s, Check).phase.Closing? ==> Apply(s, Check).phase.Selecting?
  {
    ReachedInv(s);
    NoReceivers(s.requests);
  }

  /** And the swap goes on to the count check exactly if no request was counted since the swap before. */
  lemma SwapSeesEveryRequest(s: State)
    requires Reached(s) && Enabled(s, Swap)
    ensures Apply(s, Swap).phase.Swapped? <==> |s.requests| == s.lastSwap
    ensures Apply(s, Swap).seen == 0
  {
    ReachedInv(s);
  }

  /**
   Connections are conserved: those delivered, queued, being queued and given up are together the
   accepted ones, each once, in the order of acceptance; at most ten are queued and one is given
   up; each delivered connection went to exactly one request, and no request got two.
   */
  lemma ConnectionsAreConserved(s: State)
    requires Reached(s)
    ensures s.delivered + s.queue + InHand(s.phase) + Lost(s.dropped) == Line(s.accepted)
    ensures |s.queue| <= 10
    ensures forall c :: 0 <= c < |s.delivered| ==> s.delivered[c] == c
    ensures forall r: nat, c: nat :: r < |s.requests| ==> (ConnOf(s.requests[r]) == Some(c) <==> TookIt(s.takers, c, r))
    ensures |s.takers| == |s.delivered|
  {
    ReachedInv(s);
    forall c | 0 <= c < |s.delivered|
      ensures s.delivered[c] == c
    {
      assert Line(s.accepted)[c] == c;
    }
    forall r: nat, c: nat | r < |s.requests|
      ensures ConnOf(s.requests[r]) == Some(c) <==> TookIt(s.takers, c, r)
    {
      if TookIt(s.takers, c, r) {
        assert GotIt(s.requests, s.takers[c], c);
      }
    }
  }

  /** A request that the count check at `s` does not see: not cloned yet, or not counted yet. */
  predicate Unseen(s: State, r: nat) { r >= |s.requests| || s.requests[r].Counted? }

  lemma {:induction false} LeftForGood(s: State, steps: seq<Step>, r: nat)
    requires Runs(s, steps) && r < |s.requests| && s.requests[r].Left?
    ensures var t := Exec(s, steps); r < |t.requests| && t.requests[r] == s.requests[r]
    ensures Refused(r) !in steps && Leave(r) !in steps
    decreases |steps|
  {
    if steps != [] {
      LeftForGood(Apply(s, steps[0]), steps[1..], r);
      assert steps == [steps[0]] + steps[1..];
    }
  }

  /** A request that ends without a connection was refused, or left by itself; one that got one was not refused. */
  lemma {:induction false} Fate(s: State, steps: seq<Step>, r: nat)
    requires Runs(s, steps) && (r < |s.requests| ==> !s.requests[r].Left?)
    requires r < |Exec(s, steps).requests| && Exec(s, steps).requests[r].Left?
    ensures Refused(r) in steps <==> Exec(s, steps).requests[r].got.None? && Leave(r) !in steps
    decreases |steps|
  {
    var s1, rest := Apply(s, steps[0]), steps[1..];
    assert steps == [steps[0]] + rest;
    if r < |s1.requests| && s1.requests[r].Left? {
      LeftForGood(s1, rest, r);
    } else {
      Fate(s1, rest, r);
    }
  }

  predicate Ending(p: Phase) { p.Closing? || p.Removed? || p.Gone? }

  lemma {:induction false} EndingServesTheQueue(s: State, steps: seq<Step>)
    requires Runs(s, steps) && Ending(s.phase)
    ensures var t := Exec(s, steps); Ending(t.phase) && t.delivered + t.queue == s.delivered + s.queue
    decreases |steps|
  {
    if steps != [] {
      EndingServesTheQueue(Apply(s, steps[0]), steps[1..]);
    }
  }

  lemma {:induction false} EmptyStaysEmpty(s: State, steps: seq<Step>)
    requires Runs(s, steps) && Ending(s.phase) && s.queue == []
    ensures Exec(s, steps).queue == []
    decreases |steps|
  {
    if steps != [] {
      EmptyStaysEmpty(Apply(s, steps[0]), steps[1..]);
    }
  }

  /** A request is refused only once the queue is used up. */
  lemma {:induction false} RefusedAfterTheQueue(s: State, steps: seq<Step>, r: nat)
    requires Runs(s, steps) && Ending(s.phase) && Refused(r) in steps
    ensures Exec(s, steps).queue == []
    decreases |steps|
  {
    var s1, rest := Apply(s, steps[0]), steps[1..];
    if steps[0] == Refused(r) {
      EmptyStaysEmpty(s1, rest);
    } else {
      RefusedAfterTheQueue(s1, rest, r);
    }
  }

  /**
   Which requests an idle close refuses: exactly those that the count check did not see, that are
   not among those served from the connections queued at the check, and that did not leave by
   themselves; and none before those connections are all served. All other requests had left by
   then and are not affected.
   */
  lemma RefusedExactly(s: State, steps: seq<Step>, r: nat)
    requires Reached(s) && Enabled(s, Check) && Apply(s, Check).phase.Closing? && Runs(Apply(s, Check), steps)
    ensures var t := Exec(Apply(s, Check), steps);
            && t.delivered + t.queue == s.delivered + s.queue
            && (r < |t.requests| && t.requests[r].Left? ==>
                  (Refused(r) in steps <==> Unseen(s, r) && t.requests[r].got.None? && Leave(r) !in steps))
            && (Refused(r) in steps ==> t.delivered == s.delivered + s.queue)
            && (!Unseen(s, r) ==> r < |t.requests| && t.requests[r] == s.requests[r])
            && (t.phase.Gone? && t.queue == [] && r < |t.requests| && t.requests[r].Waiting? && AtLarge(t, r) ==>
                  Unseen(s, r) && Enabled(t, Refused(r)) && !Enabled(t, Receive(r)))
  {
    IdleCloseOnlyWhenIdle(s);
    var s1 := Apply(s, Check);
    EndingServesTheQueue(s1, steps);
    if Refused(r) in steps {
      RefusedAfterTheQueue(s1, steps, r);
    }
    if Unseen(s, r) {
      if r < |Exec(s1, steps).requests| && Exec(s1, steps).requests[r].Left? {
        Fate(s1, steps, r);
      }
    } else {
      LeftForGood(s1, steps, r);
    }
  }

  /** An entry whose listener has gone: later requests join it in vain. */
  predicate Stale(s: State) { s.registered && OutOfRegistry(s.phase) }

  /** Once the entry is in, and its listener not out, it never gets stale, and is not put in again. */
  lemma {:induction false} InTimeStaysInTime(s: State, steps: seq<Step>)
    requires Registry(s) && s.creator.Inserted? && !Stale(s) && Runs(s, steps)
    ensures !Stale(Exec(s, steps)) && forall j :: 0 <= j < |steps| ==> !steps[j].Insert?
    decreases |steps|
  {
    if steps != [] {
      StepKeepsRegistry(s, steps[0]);
      InTimeStaysInTime(Apply(s, steps[0]), steps[1..]);
      assert forall j :: 0 < j < |steps| ==> steps[j] == steps[1..][j - 1];
    }
  }

  /** Once the listener is out, putting the entry in makes it stale. */
  lemma {:induction false} TooLate(s: State, steps: seq<Step>)
    requires Registry(s) && !s.creator.Inserted? && OutOfRegistry(s.phase) && Runs(s, steps)
    ensures Stale(Exec(s, steps)) <==> exists j :: 0 <= j < |steps| && steps[j].Insert?
    ensures forall j :: 0 <= j < |steps| ==> !steps[j].Remove?
    decreases |steps|
  {
    if steps != [] {
      var s1 := Apply(s, steps[0]);
      StepKeepsRegistry(s, steps[0]);
      assert forall j :: 0 < j < |steps| ==> steps[j] == steps[1..][j - 1];
      if steps[0].Insert? {
        StaleStays(s1, steps[1..]);
      } else {
        TooLate(s1, steps[1..]);
        if j :| 0 <= j < |steps| && steps[j].Insert? {
          assert steps[1..][j - 1].Insert?;
        }
      }
    }
  }

  lemma {:induction false} StaleStays(s: State, steps: seq<Step>)
    requires Registry(s) && Stale(s) && Runs(s, steps)
    ensures Stale(Exec(s, steps)) && forall j :: 0 <= j < |steps| ==> !steps[j].Remove?
    decreases |steps|
  {
    if steps != [] {
      StepKeepsRegistry(s, steps[0]);
      StaleStays(Apply(s, steps[0]), steps[1..]);
      assert forall j :: 0 < j < |steps| ==> steps[j] == steps[1..][j - 1];
    }
  }

  /** The listener takes the entry out before the creator puts it in. */
  predicate OutThenIn(steps: seq<Step>) {
    exists i, j :: 0 <= i < j < |steps| && steps[i].Remove? && steps[j].Insert?
  }

  lemma {:induction false} StaleFrom(s: State, steps: seq<Step>)
    requires Registry(s) && !s.creator.Inserted? && !OutOfRegistry(s.phase) && Runs(s, steps)
    ensures Stale(Exec(s, steps)) <==> OutThenIn(steps)
    decreases |steps|
  {
    if steps != [] {
      var s1, rest := Apply(s, steps[0]), steps[1..];
      StepKeepsRegistry(s, steps[0]);
      assert forall j :: 0 < j < |steps| ==> steps[j] == rest[j - 1];
      if steps[0].Insert? {
        InTimeStaysInTime(s1, rest);
      } else if steps[0].Remove? {
        TooLate(s1, rest);
        if j :| 0 <= j < |rest| && rest[j].Insert? {
          assert steps[0].Remove? && steps[j + 1].Insert?;
        }
      } else {
        StaleFrom(s1, rest);
        if OutThenIn(rest) {
          var i, j :| 0 <= i < j < |rest| && rest[i].Remove? && rest[j].Insert?;
          assert steps[i + 1].Remove? && steps[j + 1].Insert?;
        }
      }
    }
  }

  /** A run leaves a stale entry exactly if in it the listener takes the entry out before the creator puts it in. */
  lemma StaleExactly(steps: seq<Step>)
    requires Runs(SPAWNED, steps)
    ensures Stale(Exec(SPAWNED, steps)) <==> OutThenIn(steps)
  {
    StaleFrom(SPAWNED, steps);
  }

  predicate Listening(p: Phase) { p.Selecting? || p.Sending? || p.Swapped? }

  /** A creator with a receiver keeps the listener listening until the entry is in, unless it ends by itself. */
  lemma {:induction false} ClonedInTime(s: State, steps: seq<Step>, n: nat)
    requires Registry(s) && s.creator.HasCloned? && Listening(s.phase) && Runs(s, steps)
    requires n < |steps| && steps[n].Insert? && forall i :: 0 <= i < n ==> !steps[i].GiveUp? && !steps[i].Exhausted?
    ensures !Stale(Exec(s, steps))
    decreases |steps|
  {
    var s1 := Apply(s, steps[0]);
    StepKeepsRegistry(s, steps[0]);
    if steps[0].Insert? {
      InTimeStaysInTime(s1, steps[1..]);
    } else {
      NoReceivers(s.requests);
      ClonedInTime(s1, steps[1..], n - 1);
    }
  }

  lemma {:induction false} CountedInTime(s: State, steps: seq<Step>, c: nat, n: nat)
    requires Registry(s) && (s.creator.Spawned? || s.creator.HasCounted?) && Listening(s.phase) && Runs(s, steps)
    requires c < n < |steps| && steps[c] == Clone(0) && steps[n].Insert?
    requires forall i :: 0 <= i < n ==> !steps[i].GiveUp? && !steps[i].Exhausted?
    requires forall i :: 0 <= i < c ==> !steps[i].Check? && steps[i] != Clone(0)
    ensures !Stale(Exec(s, steps))
    decreases |steps|
  {
    var s1 := Apply(s, steps[0]);
    StepKeepsRegistry(s, steps[0]);
    if c == 0 {
      ClonedInTime(s1, steps[1..], n - 1);
    } else {
      CountedInTime(s1, steps[1..], c - 1, n - 1);
    }
  }

  /**
   What the scheduling has to grant: if the listener does not end by itself before the entry is in,
   and makes no count check before the creator has cloned its receiver, no stale entry is left.
   */
  lemma CreatorInTime(steps: seq<Step>, c: nat, n: nat)
    requires Runs(SPAWNED, steps) && c < n < |steps| && steps[c] == Clone(0) && steps[n].Insert?
    requires forall i :: 0 <= i < n ==> !steps[i].GiveUp? && !steps[i].Exhausted?
    requires forall i :: 0 <= i < c ==> !steps[i].Check? && steps[i] != Clone(0)
    ensures !Stale(Exec(SPAWNED, steps))
  {
    CountedInTime(SPAWNED, steps, c, n);
  }

  const SLOW_CREATOR: seq<Step> := [Swap, Check, Remove, Close, Count, Clone(0), Insert]

  /** It does happen: the first tick is immediate, and may find the creator not counted yet. */
  lemma SlowCreatorLeavesStaleEntry()
    ensures Runs(SPAWNED, SLOW_CREATOR) && Stale(Exec(SPAWNED, SLOW_CREATOR))
  {
    hide Runs;
    hide Exec;
    hide Stale;
    ClosesAtOnce();
    assert SLOW_CREATOR[2].Remove? && SLOW_CREATOR[6].Insert?;
    StaleExactly(SLOW_CREATOR);
  }

  lemma ClosesAtOnce()
    ensures Runs(SPAWNED, SLOW_CREATOR)
  {
    hide Runs;
    hide Exec;
    var swapped := Apply(SPAWNED, Swap);
    var checked := Apply(swapped, Check);
    var removed := Apply(checked, Remove);
    JoinsInVain(Apply(removed, Close));
    var rest := [Count, Clone(0), Insert];
    Prepend(removed, Close, rest, [Close] + rest);
    Prepend(checked, Remove, [Close] + rest, [Remove, Close] + rest);
    Prepend(swapped, Check, [Remove, Close] + rest, [Check, Remove, Close] + rest);
    Prepend(SPAWNED, Swap, [Check, Remove, Close] + rest, SLOW_CREATOR);
  }

  lemma JoinsInVain(s: State)
    requires s.creator.Spawned? && s.requests == []
    ensures Runs(s, [Count, Clone(0), Insert])
  {
    hide Runs;
    hide Exec;
    var counted := Apply(s, Count);
    NoSteps(Apply(Apply(counted, Clone(0)), Insert));
    Prepend(Apply(counted, Clone(0)), Insert, [], [Insert]);
    Prepend(counted, Clone(0), [Insert], [Clone(0), Insert]);
    Prepend(s, Count, [Clone(0), Insert], [Count, Clone(0), Insert]);
  }

  lemma Prepend(s: State, a: Step, rest: seq<Step>, steps: seq<Step>)
    requires Enabled(s, a) && Runs(Apply(s, a), rest) && steps == [a] + rest
    ensures Runs(s, steps)
  {
    hide Apply;
    hide Enabled;
    assert steps[1..] == rest;
  }

  lemma NoSteps(s: State)
    ensures Runs(s, []) && Exec(s, []) == s
  {
  }

  /** A stale entry stays, and once its queue is empty no request ever gets a connection from it. */
  lemma {:induction false} StaleForGood(s: State, steps: seq<Step>)
    requires Registry(s) && Stale(s) && s.queue == [] && Runs(s, steps)
    ensures var s' := Exec(s, steps);
            Stale(s') && s'.queue == [] && s'.takers == s.takers && s'.delivered == s.delivered
    decreases |steps|
  {
    if steps != [] {
      assert s.creator.Inserted?;
      StaleForGood(Apply(s, steps[0]), steps[1..]);
    }
  }

  // ----- the program -----

  lemma {:induction false} OneStepMore(s: State, steps: seq<Step>, a: Step)
    requires Runs(s, steps) && Enabled(Exec(s, steps), a)
    ensures Runs(s, steps + [a]) && Exec(s, steps + [a]) == Apply(Exec(s, steps), a)
    decreases |steps|
  {
    hide Apply;
    hide Enabled;
    if steps == [] {
      assert steps + [a] == [a] && [a][1..] == [];
    } else {
      OneStepMore(Apply(s, steps[0]), steps[1..], a);
      assert (steps + [a])[1..] == steps[1..] + [a];
    }
  }

  lemma ReachedNext(s: State, a: Step)
    requires Reached(s) && Enabled(s, a)
    ensures Reached(Apply(s, a))
  {
    hide Apply;
    hide Enabled;
    var steps :| Runs(SPAWNED, steps) && Exec(SPAWNED, steps) == s;
    OneStepMore(SPAWNED, steps, a);
    assert Exec(SPAWNED, steps + [a]) == Apply(s, a);
  }

  lemma {:induction false} ReceiversOfUpdate(qs: seq<Request>, r: nat, q: Request)
    requires r < |qs|
    ensures Receivers(qs[r := q]) ==
            Receivers(qs) - (if HasReceiver(qs[r]) then 1 else 0) + (if HasReceiver(q) then 1 else 0)
    ensures HasReceiver(qs[r]) ==> Receivers(qs) > 0
  {
    var init := qs[..|qs| - 1];
    if r == |qs| - 1 {
      assert qs[r := q][..|qs| - 1] == init;
    } else {
      assert qs[r := q][..|qs| - 1] == init[r := q];
      ReceiversOfUpdate(init, r, q);
    }
  }

  lemma ReceiversOfNew(qs: seq<Request>)
    ensures Receivers(qs + [Counted]) == Receivers(qs)
  {
    assert (qs + [Counted])[..|qs|] == qs;
  }
}
