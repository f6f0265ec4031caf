/**
 The loop of a registered reverse listener and the requests that use it, as they update its shared
 state, from the registration to the removal of the entry and the closing of the channel.
 */
module ReverseListener {
  import opened Common
  import opened ReverseTunnel

  /** What can happen to a listener, in any order. */
  datatype Happening =
    | Incoming
    | IncomingError
    | NoMore
    | TimerTick
    | SendTimeout       // a connection has waited for room in the queue for the idle time
    | NewRequest
    | Take(r: nat)
    | Abandon(r: nat)

  /**
   What a round does before a connection that waits may find room. A listener that waits for room
   does not select, so nothing comes in, no tick is heard and no end noticed.
   */
  ghost predicate Happened(s: State, h: Happening, t: State) {
    match h
    case Incoming =>
      if s.phase.Selecting? then
        t.accepted == s.accepted + 1 && t.phase == Sending(s.accepted) && t.queue == s.queue && t.requests == s.requests
      else t == s
    case IncomingError => t == s
    case NoMore => if s.phase.Selecting? then Ended(s, t) && t.dropped == s.dropped else t == s
    case TimerTick =>
      if s.phase.Selecting? then
        && (if |s.requests| > s.lastSwap || (exists r :: 0 <= r < |s.requests| && HasReceiver(s.requests[r]))
            then t.phase.Selecting? else t.phase.Closing?)
        && t.queue == s.queue && t.requests == s.requests && t.accepted == s.accepted && t.lastSwap == |s.requests|
      else t == s
    case SendTimeout => if s.phase.Sending? then Ended(s, t) && t.dropped == Some(s.phase.conn) else t == s
    case NewRequest =>
      t.requests == s.requests + [Waiting] && t.queue == s.queue && t.phase == s.phase && t.accepted == s.accepted
    case Take(r) =>
      if r < |s.requests| && s.requests[r].Waiting? && s.queue != [] then
        && t.requests == s.requests[r := Holding(s.queue[0])] && t.queue == s.queue[1..]
        && t.phase == s.phase && t.accepted == s.accepted
      else t == s
    case Abandon(r) =>
      if r < |s.requests| && HasReceiver(s.requests[r]) then
        && t.requests == s.requests[r := Left(if s.requests[r].Holding? then Some(s.requests[r].conn) else None)]
        && t.queue == s.queue && t.phase == s.phase && t.accepted == s.accepted
      else t == s
  }

  ghost predicate Ended(s: State, t: State) {
    t.phase.Closing? && t.queue == s.queue && t.requests == s.requests && t.accepted == s.accepted
  }

  /** A connection that waits is queued as soon as there is room for it among ten. */
  ghost predicate ThenSent(s: State, t: State) {
    if s.phase.Sending? && |s.queue| < 10 then
      && t.phase.Selecting? && t.queue == s.queue + [s.phase.conn]
      && t.requests == s.requests && t.accepted == s.accepted
    else t == s
  }

  ghost predicate RoundDid(s: State, h: Happening, t: State) {
    exists mid :: Happened(s, h, mid) && ThenSent(mid, t)
  }

  /** `trace` are the states of a listener before, between and after rounds in which `happenings` happened. */
  ghost predicate Traced(trace: seq<State>, happenings: seq<Happening>) {
    && |trace| == |happenings| + 1
    && (forall i :: 0 <= i < |happenings| ==> trace[i].phase.Selecting? || trace[i].phase.Sending?)
    && forall i :: 0 <= i < |happenings| ==> RoundDid(trace[i], happenings[i], trace[i + 1])
  }

  lemma TracedOnce(trace: seq<State>, happenings: seq<Happening>, n: nat, t: State)
    requires n < |happenings| && Traced(trace, happenings[..n])
    requires trace[n].phase.Selecting? || trace[n].phase.Sending?
    requires RoundDid(trace[n], happenings[n], t)
    ensures Traced(trace + [t], happenings[..n + 1])
  {
    hide RoundDid;
    var all, hs := trace + [t], happenings[..n + 1];
    forall i | 0 <= i < n + 1
      ensures RoundDid(all[i], hs[i], all[i + 1]) && (all[i].phase.Selecting? || all[i].phase.Sending?)
    {
      if i < n {
        assert RoundDid(trace[i], happenings[..n][i], trace[i + 1]);
      }
    }
  }

  datatype Received = Got(conn: Conn) | NotYet | ListenerStopped

  /** The creator counts, clones and registers before anything else happens. */
  lemma RegisteredFirst() returns (s: State)
    ensures Reached(s) && s.creator.Inserted? && s.registered && s.phase.Selecting?
    ensures s.queue == [] && s.seen == 1 && s.requests == [Waiting] && s.accepted == 0
  {
    NoSteps(SPAWNED);
    assert Reached(SPAWNED);
    hide Reached;
    var s1 := Apply(SPAWNED, Count);
    var s2 := Apply(s1, Clone(0));
    s := Apply(s2, Insert);
    ReachedNext(SPAWNED, Count);
    ReachedNext(s1, Clone(0));
    ReachedNext(s2, Insert);
  }

  lemma OneReceiver()
    ensures Receivers([Waiting]) == 1
  {
    assert [Waiting][..0] == [];
  }

  class Listener {
    var queue: seq<Conn>
    var nbSeenClients: nat
    var receiverCount: nat
    var requests: seq<Request>
    var nextConn: Conn
    var sending: Option<Conn>   // the connection that waits for room
    var running: bool           // in the loop
    var registered: bool
    var channelOpen: bool
    ghost var s: State          // the same, with its history

    ghost predicate Valid()
      reads this
    {
      && Reached(s) && s.creator.Inserted?
      && queue == s.queue && nbSeenClients == s.seen && requests == s.requests && nextConn == s.accepted
      && receiverCount == (if registered then 1 else 0) + Receivers(requests)
      && registered == s.registered == channelOpen
      && (forall r :: 0 <= r < |requests| ==> !requests[r].Counted?)
      && (if channelOpen then
            if sending.Some? then running && s.phase == Sending(sending.value)
            else if running then s.phase.Selecting? else s.phase.Closing?
          else !running && sending.None? && s.phase.Gone?)
    }

    /** A listener whose creator got to register it before it ran. */
    constructor ()
      ensures Valid() && running && queue == [] && requests == [Waiting] && nbSeenClients == 1
    {
      queue, nbSeenClients, receiverCount, requests, nextConn := [], 1, 2, [Waiting], 0;
      sending, running, registered, channelOpen := None, true, true, true;
      ghost var start := RegisteredFirst();
      s := start;
      new;
      OneReceiver();
      hide Reached;
      hide Receivers;
    }

    ghost method Step(a: Step)
      requires Reached(s) && Enabled(s, a)
      modifies `s
      ensures Reached(s) && s == Apply(old(s), a)
    {
      ReachedNext(s, a);
      s := Apply(s, a);
    }

    /** `get_cnx_awaiter`, under the registry lock. */
    method GetCnxAwaiter()
      requires Valid() && registered
      modifies this
      ensures Valid() && requests == old(requests) + [Waiting] && nbSeenClients == old(nbSeenClients) + 1
      ensures running == old(running) && registered && sending == old(sending) && queue == old(queue)
      ensures Happened(old(s), NewRequest, s)
    {
      hide Reached;
      hide Receivers;
      ReachedInv(s);
      var r := |requests|;
      Step(Count);
      nbSeenClients := nbSeenClients + 1;
      ReceiversOfNew(requests);
      requests := requests + [Counted];
      Step(Clone(r));
      ReceiversOfUpdate(requests, r, Waiting);
      requests := requests[r := Waiting];
      receiverCount := receiverCount + 1;
    }

    /** A waiting request gets the oldest queued connection; it is refused exactly when none can come any more. */
    method Recv(r: nat) returns (got: Received)
      requires Valid() && r < |requests| && requests[r].Waiting?
      modifies this
      ensures Valid() && running == old(running) && registered == old(registered) && sending == old(sending)
      ensures got.Got? <==> old(queue) != []
      ensures got.Got? ==> old(queue) == [got.conn] + queue && requests == old(requests)[r := Holding(got.conn)]
      ensures got.ListenerStopped? <==> old(queue) == [] && !channelOpen
      ensures channelOpen ==> Happened(old(s), Take(r), s)
    {
      hide Reached;
      hide Receivers;
      if queue != [] {
        Step(Receive(r));
        ReceiversOfUpdate(requests, r, Holding(queue[0]));
        got := Got(queue[0]);
        requests := requests[r := Holding(queue[0])];
        queue := queue[1..];
      } else if channelOpen {
        got := NotYet;
      } else {
        Step(Refused(r));
        ReceiversOfUpdate(requests, r, Left(None));
        requests := requests[r := Left(None)];
        receiverCount := receiverCount - 1;
        got := ListenerStopped;
      }
    }

    /** A request is done or cancelled and its receiver is dropped. */
    method DropAwaiter(r: nat)
      requires Valid() && r < |requests| && HasReceiver(requests[r])
      modifies this
      ensures Valid() && receiverCount == old(receiverCount) - 1
      ensures running == old(running) && registered == old(registered) && sending == old(sending) && queue == old(queue)
      ensures Happened(old(s), Abandon(r), s)
    {
      hide Reached;
      hide Receivers;
      Step(Leave(r));
      ReceiversOfUpdate(requests, r, Left(ConnOf(requests[r])));
      requests := requests[r := Left(ConnOf(requests[r]))];
      receiverCount := receiverCount - 1;
    }

    /** The send of an accepted connection completes once there is room. */
    method TrySend()
      requires Valid()
      modifies this
      ensures Valid() && running == old(running) && registered == old(registered)
      ensures if old(sending).Some? && old(|queue|) < QUEUE then
                queue == old(queue) + [old(sending).value] && sending.None?
              else queue == old(queue) && sending == old(sending)
      ensures ThenSent(old(s), s)
    {
      hide Reached;
      hide Receivers;
      if sending.Some? && |queue| < QUEUE {
        Step(Enqueue);
        queue := queue + [sending.value];
        sending := None;
      }
    }

    /** The first arm of the select: the connection is queued if there is room, and waits for it otherwise. */
    method OnIncoming()
      requires Valid() && running && sending.None?
      modifies this
      ensures Valid() && running && registered == old(registered) && queue == old(queue)
      ensures nextConn == old(nextConn) + 1 && sending == Some(old(nextConn))
      ensures Happened(old(s), Incoming, s)
    {
      hide Reached;
      hide Receivers;
      Step(Accept);
      sending := Some(nextConn);
      nextConn := nextConn + 1;
    }

    /** The second arm: the idle test. */
    method OnTick()
      requires Valid() && running && sending.None?
      modifies this
      ensures Valid() && nbSeenClients == 0 && queue == old(queue) && requests == old(requests) && sending.None?
      ensures registered == old(registered)
      ensures running <==>
              |old(requests)| > old(s).lastSwap || exists r :: 0 <= r < |requests| && HasReceiver(requests[r])
      ensures Happened(old(s), TimerTick, s)
    {
      hide Reached;
      ReachedInv(s);
      var seen := nbSeenClients;
      Step(Swap);
      nbSeenClients := 0;
      if seen == 0 {
        NoReceivers(requests);
        Step(Check);
        if receiverCount <= 1 {
          running := false;
        }
      }
    }

    /** The loop is left: no more connections, or no room for one in the idle time. */
    method LeaveLoop(a: Step)
      requires Valid() && running && (if sending.Some? then a == GiveUp else a == Exhausted)
      modifies this
      ensures Valid() && !running && queue == old(queue) && sending.None? && registered == old(registered)
      ensures Happened(old(s), if a == GiveUp then SendTimeout else NoMore, s)
    {
      hide Reached;
      hide Receivers;
      Step(a);
      running, sending := false, None;
    }

    /** After the loop: the guard takes the entry out of the registry, and the channel's sender is dropped. */
    method Finish()
      requires Valid() && !running && channelOpen
      modifies this
      ensures Valid() && !registered && !channelOpen && !running && queue == old(queue)
      ensures receiverCount == old(receiverCount) - 1
    {
      hide Reached;
      hide Receivers;
      Step(Remove);
      Step(Close);
      registered, channelOpen := false, false;
      receiverCount := receiverCount - 1;
    }

    /** What requests do, also while the listener is on its way out. */
    method OnRequest(h: Happening)
      requires Valid()
      modifies this
      ensures Valid() && running == old(running) && registered == old(registered) && sending == old(sending)
      ensures channelOpen && (h.NewRequest? || h.Take? || h.Abandon?) ==> Happened(old(s), h, s)
      ensures h.IncomingError? ==> s == old(s)
    {
      hide Reached;
      hide Receivers;
      match h {
        case NewRequest => if registered { GetCnxAwaiter(); }
        case Take(r) =>
          if r < |requests| && requests[r].Waiting? {
            var _ := Recv(r);
          }
        case Abandon(r) =>
          if r < |requests| && HasReceiver(requests[r]) {
            DropAwaiter(r);
          }
        case _ =>
      }
    }

    /** One round of what happens; a listener that waits for room does not select. */
    method Round(h: Happening)
      requires Valid() && running
      modifies this
      ensures Valid() && registered && (sending.Some? ==> |queue| >= QUEUE)
      ensures RoundDid(old(s), h, s)
    {
      hide Reached;
      hide Receivers;
      match h {
        case Incoming => if sending.None? { OnIncoming(); }
        case IncomingError =>
        case NoMore => if sending.None? { LeaveLoop(Exhausted); }
        case TimerTick => if sending.None? { OnTick(); }
        case SendTimeout => if sending.Some? { LeaveLoop(GiveUp); }
        case _ => OnRequest(h);
      }
      ghost var mid := s;
      TrySend();
      assert Happened(old(s), h, mid) && ThenSent(mid, s);
    }

    /**
     A whole listener, with requests coming and going between its rounds, and again between its
     last round and the removal of its entry. Every round does what its happening does, until one
     ends the loop; then the entry is out of the registry and the channel closed. Whatever happened,
     the connections delivered, queued, waiting for room and given up are the accepted ones in order.
     */
    method Listen(happenings: seq<Happening>, leaving: seq<Happening>) returns (ghost trace: seq<State>)
      requires Valid() && running && sending.None?
      modifies this
      ensures Valid() && registered == running && channelOpen == running
      ensures 0 < |trace| <= |happenings| + 1 && trace[0] == old(s) && Traced(trace, happenings[..|trace| - 1])
      ensures if running then |trace| == |happenings| + 1 && s == trace[|trace| - 1]
              else trace[|trace| - 1].phase.Closing?
      ensures s.delivered + queue + (if sending.Some? then [sending.value] else []) + Lost(s.dropped) == Line(nextConn)
      ensures |queue| <= QUEUE && (sending.Some? ==> |queue| == QUEUE)
    {
      hide Reached;
      hide Receivers;
      hide RoundDid;
      hide Traced;
      var i := 0;
      trace := [s];
      TracedNone(s, happenings);
      while i < |happenings| && running
        invariant Valid() && channelOpen && i <= |happenings|
        invariant sending.Some? ==> |queue| >= QUEUE
        invariant |trace| == i + 1 && trace[0] == old(s) && trace[i] == s && Traced(trace, happenings[..i])
      {
        Round(happenings[i]);
        TracedOnce(trace, happenings, i, s);
        trace := trace + [s];
        i := i + 1;
      }
      if !running {
        for j := 0 to |leaving|
          invariant Valid() && channelOpen && !running
        {
          OnRequest(leaving[j]);
        }
        Finish();
      }
      ReachedInv(s);
    }
  }

  lemma TracedNone(s: State, happenings: seq<Happening>)
    ensures Traced([s], happenings[..0])
  {
  }
}
