/**
 The two loops of a websocket tunnel as they run over the objects: what the select of each round
 picks is an input, and between rounds the other loop works on the shared queue.
 */
module TunnelLoops {
  import opened Common
  import opened TunnelBuffers
  import T = Transport

  /** What a round of the writer loop finds ready. */
  datatype Event =
    | Queued(ops: seq<T.Op>, room: nat)     // the notification, with the frames queued since; what the wire takes
    | ReadLocal(ready: nat, sent: bool)     // this many bytes can be read; whether the frame gets out
    | ShouldClose
    | Timer(sent: bool)

  /** Still looping, closed with a close frame attempted, or left by an error of the ping. */
  datatype Exit = Running | Closed | PingFailed

  // ----- the bytes that frames carry -----

  function DataOf(fs: seq<T.Frame>): seq<nat> { Flatten(T.Binaries(fs)) }

  lemma {:induction false} BinariesConcat(a: seq<T.Frame>, b: seq<T.Frame>)
    ensures T.Binaries(a + b) == T.Binaries(a) + T.Binaries(b)
  {
    if a == [] {
      assert a + b == b;
    } else {
      assert (a + b)[1..] == a[1..] + b;
      BinariesConcat(a[1..], b);
    }
  }

  lemma DataConcat(a: seq<T.Frame>, b: seq<T.Frame>)
    ensures DataOf(a + b) == DataOf(a) + DataOf(b)
  {
    BinariesConcat(a, b);
    FlattenAppend(T.Binaries(a), T.Binaries(b));
  }

  lemma {:induction false} ControlCarriesNothing(fs: seq<T.Frame>)
    requires AllControl(fs)
    ensures T.Binaries(fs) == [] && DataOf(fs) == []
  {
    if fs != [] {
      ControlCarriesNothing(fs[1..]);
    }
  }

  lemma {:induction false} RepliesAreControl(ops: seq<T.Op>)
    ensures AllControl(Replies(ops))
  {
    if ops != [] {
      RepliesAreControl(ops[..|ops| - 1]);
    }
  }

  lemma OneFrameOfData(w: seq<T.Frame>, data: seq<nat>)
    ensures DataOf(w + [T.Binary(data)]) == DataOf(w) + data
  {
    var one := [T.Binary(data)];
    DataConcat(w, one);
    assert one[1..] == [] && T.Binaries(one) == [data];
    assert [data][1..] == [] && Flatten([data]) == data + Flatten([]);
  }

  // ----- the loops -----

  function Least(a: nat, b: nat, c: nat): (r: nat)
    ensures r <= a && r <= b && r <= c && (r == a || r == b || r == c)
  {
    if a <= b && a <= c then a else if b <= c then b else c
  }

  /** What a round writes that goes on; `pending` are the control frames queued before it. */
  ghost predicate Went(e: Event, pending: seq<T.Op>, frames: seq<T.Frame>) {
    match e
    case Queued(ops, room) => frames == Replies(pending + ops) && |frames| <= room
    case ReadLocal(ready, sent) => sent && |frames| == 1 && frames[0].Binary? && 0 < |frames[0].data| <= ready
    case ShouldClose => false
    case Timer(sent) => sent && frames == [T.Ping]
  }

  lemma DataOfOne(data: seq<nat>)
    ensures T.Binaries([T.Binary(data)]) == [data] && DataOf([T.Binary(data)]) == data
  {
    assert [T.Binary(data)][1..] == [] && T.Binaries([T.Binary(data)][1..]) == [];
    FlattenOne(data);
  }

  lemma NoData()
    ensures T.Binaries([]) == [] && DataOf([]) == [] && T.Binaries([T.Ping]) == [] && DataOf([T.Ping]) == []
  {
    ControlCarriesNothing([T.Ping]);
  }

  /**
   One round of the writer loop writes `frames` and goes on or ends, by what it finds. With data
   ready it sends as much as is ready and has room, in one frame, and ends at the end of the data or
   if that frame does not get out; it answers what is queued and ends if the wire fails; it sends a
   ping and ends if three are in flight or the wire fails.
   */
  method WriterRound(w: WebsocketTunnelWrite, local: seq<nat>, e: Event)
      returns (rest: seq<nat>, lost: seq<nat>, exit: Exit, ghost frames: seq<T.Frame>)
    requires w.Valid()
    modifies w
    ensures w.wire == old(w.wire) + frames && DataOf(frames) + lost + rest == local
    ensures exit.Running? ==> w.Valid() && lost == [] && Went(e, old(w.pendingOperations), frames)
    ensures match e
            case Queued(ops, room) =>
              && frames <= Replies(old(w.pendingOperations) + ops) && rest == local && !exit.PingFailed?
              && (exit.Running? <==> |Replies(old(w.pendingOperations) + ops)| <= room)
              && (exit.Running? ==> w.pendingOperations == [])
            case ReadLocal(ready, sent) =>
              var k := Least(ready, old(w.capacity), |local|);
              && (exit.Closed? <==> k == 0 || !sent) && !exit.PingFailed?
              && frames == (if k > 0 && sent then [T.Binary(local[..k])] else [])
              && lost == (if sent then [] else local[..k]) && rest == local[k..]
              && w.pendingOperations == old(w.pendingOperations)
            case ShouldClose => exit.Closed? && frames == [] && rest == local
            case Timer(sent) =>
              && (exit.PingFailed? <==> old(w.inFlightPing) >= 3 || !sent) && !exit.Closed?
              && frames == (if exit.Running? then [T.Ping] else []) && rest == local
              && w.inFlightPing == FetchAdd(old(w.inFlightPing))
              && w.pendingOperations == old(w.pendingOperations)
  {
    hide Replies;
    hide Flatten;
    hide T.Binaries;
    hide DataOf;
    rest, lost, exit, frames := local, [], Running, [];
    NoData();
    match e {
      case Queued(ops, room) =>
        w.pendingOperations := w.pendingOperations + ops;
        ghost var queue := w.pendingOperations;
        var r := w.HandlePendingOperations(room);
        frames := w.wire[|old(w.wire)|..];
        RepliesAreControl(queue);
        ControlPrefix(frames, Replies(queue));
        if r != Ok {
          exit := Closed;
        }
      case ReadLocal(ready, sent) =>
        var k := Least(ready, w.capacity, |local|);
        if k == 0 {
          exit := Closed;
        } else {
          var data := local[..k];
          rest := local[k..];
          var r := w.ReadThenWrite(data, sent);
          if r != Ok {
            lost, exit := data, Closed;
          } else {
            frames := [T.Binary(data)];
            DataOfOne(data);
          }
        }
      case ShouldClose => exit := Closed;
      case Timer(sent) =>
        var r := w.Ping(sent);
        if r != Ok {
          exit := PingFailed;
        } else {
          frames := [T.Ping];
        }
    }
  }

  lemma ControlPrefix(frames: seq<T.Frame>, replies: seq<T.Frame>)
    requires frames <= replies && AllControl(replies)
    ensures T.Binaries(frames) == [] && DataOf(frames) == []
  {
    ControlCarriesNothing(frames);
  }

  /** The control frames queued before round `|events|`, when `pending` were queued before the first. */
  function Unanswered(pending: seq<T.Op>, events: seq<Event>): seq<T.Op> {
    if exists i :: 0 <= i < |events| && events[i].Queued? then [] else pending
  }

  /** How many of the rounds read. */
  function Reads(events: seq<Event>): nat {
    if events == [] then 0 else Reads(events[..|events| - 1]) + if events[|events| - 1].ReadLocal? then 1 else 0
  }

  /** Every round wrote what a round does that goes on. */
  ghost predicate AllWent(events: seq<Event>, pending: seq<T.Op>, rounds: seq<seq<T.Frame>>) {
    |rounds| == |events| &&
    forall i :: 0 <= i < |rounds| ==> Went(events[i], Unanswered(pending, events[..i]), rounds[i])
  }

  lemma WentOnce(events: seq<Event>, n: nat, pending: seq<T.Op>, rounds: seq<seq<T.Frame>>, frames: seq<T.Frame>)
    requires n < |events| && AllWent(events[..n], pending, rounds)
    requires Went(events[n], Unanswered(pending, events[..n]), frames)
    ensures AllWent(events[..n + 1], pending, rounds + [frames])
  {
    hide Went;
    hide Unanswered;
    forall i | 0 <= i < n + 1
      ensures Went(events[..n + 1][i], Unanswered(pending, events[..n + 1][..i]), (rounds + [frames])[i])
    {
      assert events[..n + 1][..i] == events[..i];
      if i < n {
        assert events[..n][..i] == events[..i];
        assert Went(events[..n][i], Unanswered(pending, events[..n][..i]), rounds[i]);
      }
    }
  }

  lemma UnansweredNext(events: seq<Event>, n: nat, pending: seq<T.Op>)
    requires n < |events|
    ensures Unanswered(pending, events[..n + 1]) ==
            if events[n].Queued? then [] else Unanswered(pending, events[..n])
  {
    var next := events[..n + 1];
    assert next[n] == events[n] && forall i :: 0 <= i < n ==> next[i] == events[..n][i];
  }

  lemma AllButLastWent(events: seq<Event>, pending: seq<T.Op>, rounds: seq<seq<T.Frame>>)
    requires AllWent(events, pending, rounds) && events != []
    ensures AllWent(events[..|events| - 1], pending, rounds[..|events| - 1])
  {
    hide Went;
    hide Unanswered;
    var n := |events| - 1;
    forall i | 0 <= i < n
      ensures Went(events[..n][i], Unanswered(pending, events[..n][..i]), rounds[..n][i])
    {
      assert events[..n][..i] == events[..i];
    }
  }

  /** Rounds that all went on sent one chunk, in a data frame of its own, for every read. */
  lemma {:induction false} OneChunkPerRead(events: seq<Event>, pending: seq<T.Op>, rounds: seq<seq<T.Frame>>)
    requires AllWent(events, pending, rounds)
    ensures |T.Binaries(Flatten(rounds))| == Reads(events)
  {
    hide Went;
    hide Unanswered;
    hide Flatten;
    hide T.Binaries;
    NoData();
    if events == [] {
      FlattenNone();
    } else {
      var n := |events| - 1;
      AllButLastWent(events, pending, rounds);
      OneChunkPerRead(events[..n], pending, rounds[..n]);
      assert rounds == rounds[..n] + [rounds[n]];
      FlattenAppend(rounds[..n], [rounds[n]]);
      FlattenOne(rounds[n]);
      BinariesConcat(Flatten(rounds[..n]), rounds[n]);
      DataOfRound(events[n], Unanswered(pending, events[..n]), rounds[n]);
    }
  }

  lemma FlattenNone()
    ensures Flatten<T.Frame>([]) == []
  {
  }

  lemma DataOfRound(e: Event, pending: seq<T.Op>, frames: seq<T.Frame>)
    requires Went(e, pending, frames)
    ensures |T.Binaries(frames)| == if e.ReadLocal? then 1 else 0
  {
    match e
    case Queued(ops, _) =>
      RepliesAreControl(pending + ops);
      ControlCarriesNothing(frames);
    case ReadLocal(_, _) =>
      assert frames == [T.Binary(frames[0].data)];
      DataOfOne(frames[0].data);
    case Timer(_) => NoData();
  }

  /** Why a round ends the loop, seen from after it. */
  ghost predicate Ending(e: Event, pending: seq<T.Op>, rest: seq<nat>, inFlight: nat) {
    match e
    case Queued(ops, room) => |Replies(pending + ops)| > room
    case ReadLocal(ready, sent) => !sent || ready == 0 || rest == []
    case ShouldClose => true
    case Timer(sent) => !sent || inFlight == 0 || inFlight > 3
  }

  /**
   The rounds wrote `rounds` and, in one that ended the loop, `last`, which has no data. What was
   sent, what was lost in a failed write and what is not read yet are together the local bytes.
   */
  ghost predicate Sent(w0: seq<T.Frame>, w: seq<T.Frame>, rounds: seq<seq<T.Frame>>, last: seq<T.Frame>,
          lost: seq<nat>, rest: seq<nat>, local: seq<nat>) {
    && w == w0 + Flatten(rounds) + last
    && DataOf(Flatten(rounds)) + lost + rest == local && T.Binaries(last) == []
  }

  lemma SentNothing(w0: seq<T.Frame>, local: seq<nat>)
    ensures Sent(w0, w0, [], [], [], local, local)
  {
    NoData();
  }

  lemma SentMore(w0: seq<T.Frame>, w: seq<T.Frame>, rounds: seq<seq<T.Frame>>, frames: seq<T.Frame>,
          before: seq<nat>, rest: seq<nat>, local: seq<nat>)
    requires Sent(w0, w, rounds, [], [], before, local) && DataOf(frames) + [] + rest == before
    ensures Sent(w0, w + frames, rounds + [frames], [], [], rest, local)
  {
    hide DataOf;
    hide Flatten;
    NoData();
    FlattenAppend(rounds, [frames]);
    FlattenOne(frames);
    DataConcat(Flatten(rounds), frames);
    Assoc(w0, Flatten(rounds), frames);
    Moved(DataOf(Flatten(rounds)), DataOf(frames), rest);
    assert w0 + Flatten(rounds) + [] == w0 + Flatten(rounds);
  }

  lemma Moved(a: seq<nat>, b: seq<nat>, c: seq<nat>)
    ensures a + [] + (b + [] + c) == (a + b) + [] + c
  {
  }

  /** A round that ends the loop sends no data. */
  lemma SentLast(w0: seq<T.Frame>, w: seq<T.Frame>, rounds: seq<seq<T.Frame>>, frames: seq<T.Frame>, lost: seq<nat>,
          before: seq<nat>, rest: seq<nat>, local: seq<nat>, e: Event, pending: seq<T.Op>)
    requires Sent(w0, w, rounds, [], [], before, local) && DataOf(frames) + lost + rest == before
    requires if e.Queued? then frames <= Replies(pending + e.ops) else frames == []
    ensures Sent(w0, w + frames, rounds, frames, lost, rest, local)
  {
    hide DataOf;
    hide Flatten;
    NoData();
    if e.Queued? {
      RepliesAreControl(pending + e.ops);
      ControlPrefix(frames, Replies(pending + e.ops));
    }
    assert w0 + Flatten(rounds) + [] == w0 + Flatten(rounds);
    LostAfter(DataOf(Flatten(rounds)), lost, rest);
  }

  lemma LostAfter(a: seq<nat>, lost: seq<nat>, rest: seq<nat>)
    ensures a + [] + ([] + lost + rest) == a + lost + rest
  {
  }

  /**
   `propagate_local_to_remote`: whatever the rounds find, at every loop head the buffer is empty
   with room for a packet. Round by round the loop writes what a round writes that goes on, so every
   read is one data frame, every queued control frame is answered and every tick is one ping, until
   a round has a reason to end it; then a close frame is attempted, unless the ping failed.
   */
  method PropagateLocalToRemote(w: WebsocketTunnelWrite, local: seq<nat>, events: seq<Event>, closeSent: bool)
      returns (rest: seq<nat>, lost: seq<nat>, exit: Exit, ghost rounds: seq<seq<T.Frame>>, ghost last: seq<T.Frame>)
    requires w.Valid()
    modifies w
    ensures exists sent :: Sent(old(w.wire), sent, rounds, last, lost, rest, local) &&
                           w.wire == sent + (if exit.Closed? && closeSent then [T.Close] else [])
    ensures |rounds| <= |events| && AllWent(events[..|rounds|], old(w.pendingOperations), rounds)
    ensures |T.Binaries(Flatten(rounds))| == Reads(events[..|rounds|])
    ensures exit.Running? <==> |rounds| == |events|
    ensures exit.Running? ==> w.Valid() && lost == [] && last == []
    ensures !exit.Running? ==>
              Ending(events[|rounds|], Unanswered(old(w.pendingOperations), events[..|rounds|]), rest, w.inFlightPing)
    ensures exit.PingFailed? <==> !exit.Running? && events[|rounds|].Timer?
    ensures lost != [] ==> exit.Closed? && events[|rounds|].ReadLocal?
    ensures last != [] ==> exit.Closed? && events[|rounds|].Queued?
  {
    hide Sent;
    hide AllWent;
    hide Unanswered;
    hide Replies;
    rest, lost, exit, rounds, last := local, [], Running, [], [];
    var done := 0;
    ghost var w0, pending := w.wire, w.pendingOperations;
    SentNothing(w0, local);
    NoRounds(events, pending);
    while done < |events| && exit.Running?
      invariant done <= |events| && |rounds| == (if exit.Running? then done else done - 1)
      invariant AllWent(events[..|rounds|], pending, rounds) && Sent(w0, w.wire, rounds, last, lost, rest, local)
      invariant exit.Running? ==> w.Valid() && lost == [] && last == []
      invariant exit.Running? ==> w.pendingOperations == Unanswered(pending, events[..|rounds|])
      invariant !exit.Running? ==>
                  Ending(events[|rounds|], Unanswered(pending, events[..|rounds|]), rest, w.inFlightPing)
      invariant exit.PingFailed? <==> !exit.Running? && events[|rounds|].Timer?
      invariant lost != [] ==> exit.Closed? && events[|rounds|].ReadLocal?
      invariant last != [] ==> exit.Closed? && events[|rounds|].Queued?
    {
      ghost var before, wire, frames := rest, w.wire, [];
      rest, lost, exit, frames := WriterRound(w, rest, events[done]);
      UnansweredNext(events, done, pending);
      if exit.Running? {
        WentOnce(events, done, pending, rounds, frames);
        SentMore(w0, wire, rounds, frames, before, rest, local);
        rounds := rounds + [frames];
      } else {
        ghost var queued := Unanswered(pending, events[..done]);
        SentLast(w0, wire, rounds, frames, lost, before, rest, local, events[done], queued);
        last := frames;
      }
      done := done + 1;
    }
    OneChunkPerRead(events[..|rounds|], pending, rounds);
    ghost var sent := w.wire;
    if exit.Closed? && closeSent {
      w.wire := w.wire + [T.Close];
    }
    assert Sent(w0, sent, rounds, last, lost, rest, local);
  }

  lemma NoRounds(events: seq<Event>, pending: seq<T.Op>)
    ensures AllWent(events[..0], pending, []) && Unanswered(pending, events[..0]) == pending
  {
  }

  /** The control frames of a round of the reader, which come before its data frame. */
  function Controls(taken: seq<T.Frame>): seq<T.Frame> {
    if taken != [] && taken[|taken| - 1].Binary? then taken[..|taken| - 1] else taken
  }

  /**
   What a round of the reader takes off the wire, with `room` in the queue: pings and pongs up to
   the first data frame or close, which it takes too. It stops before only if the wire is empty, or
   if the queue is full and the next frame is a control frame.
   */
  ghost predicate Took(wire: seq<T.Frame>, room: nat, taken: seq<T.Frame>) {
    && taken <= wire && |Controls(taken)| <= room
    && (forall i :: 0 <= i < |taken| - 1 ==> taken[i].Ping? || taken[i].Pong?)
    && (taken == [] || taken[|taken| - 1].Ping? || taken[|taken| - 1].Pong? ==>
          |taken| == |wire| || (|taken| == room && !wire[|taken|].Binary?))
  }

  predicate EndsInClose(taken: seq<T.Frame>) { taken != [] && taken[|taken| - 1].Close? }

  /** One round of the reader loop: control frames are queued, then at most one data frame is written out. */
  method ReaderRound(r: WebsocketTunnelRead) returns (data: seq<nat>, closed: bool, ghost taken: seq<T.Frame>)
    requires |r.pendingOperations| <= T.QUEUE_SIZE
    modifies r
    ensures old(r.wire) == taken + r.wire && data == DataOf(taken)
    ensures Took(old(r.wire), T.QUEUE_SIZE - old(|r.pendingOperations|), taken)
    ensures AllControl(Controls(taken)) && r.pendingOperations == old(r.pendingOperations) + Ops(Controls(taken))
    ensures r.notified == old(r.notified) + |Controls(taken)|
    ensures |r.pendingOperations| <= T.QUEUE_SIZE && (closed <==> EndsInClose(taken))
  {
    hide DataOf;
    data, closed := [], false;
    var result;
    result, taken := r.Copy();
    ControlCarriesNothing(taken);
    match result {
      case AwaitFrame =>
      case AwaitRoom(op) =>
        // the frame waits for room with the reader
        r.wire := [FrameOf(op)] + r.wire;
      case Wrote(bytes) =>
        OneFrameOfData(taken, bytes);
        assert (taken + [T.Binary(bytes)])[..|taken|] == taken;
        data, taken := bytes, taken + [T.Binary(bytes)];
      case CloseReceived => closed := true;
    }
  }

  /** How many control frames wait in the queue when round `j` starts; `drained[j]` were taken just before. */
  function Queue(first: nat, drained: seq<nat>, rounds: seq<seq<T.Frame>>, j: nat): nat
    requires j < |drained| && j <= |rounds|
  {
    var left := if j == 0 then first else Queue(first, drained, rounds, j - 1) + |Controls(rounds[j - 1])|;
    left - Min(drained[j], left)
  }

  /** Every round took what a round takes of what was left on the wire. */
  ghost predicate AllTook(wire: seq<T.Frame>, first: nat, drained: seq<nat>, rounds: seq<seq<T.Frame>>)
    requires |rounds| <= |drained|
  {
    forall j :: 0 <= j < |rounds| ==> TookAt(wire, first, drained, rounds, j)
  }

  ghost predicate TookAt(wire: seq<T.Frame>, first: nat, drained: seq<nat>, rounds: seq<seq<T.Frame>>, j: nat)
    requires j < |rounds| <= |drained|
  {
    && |Flatten(rounds[..j])| <= |wire| && Queue(first, drained, rounds, j) <= T.QUEUE_SIZE
    && Took(wire[|Flatten(rounds[..j])|..], T.QUEUE_SIZE - Queue(first, drained, rounds, j), rounds[j])
  }

  lemma {:induction false} QueueOfFront(first: nat, drained: seq<nat>, rounds: seq<seq<T.Frame>>,
          more: seq<T.Frame>, j: nat)
    requires j < |drained| && j <= |rounds|
    ensures Queue(first, drained, rounds + [more], j) == Queue(first, drained, rounds, j)
  {
    if j > 0 {
      QueueOfFront(first, drained, rounds, more, j - 1);
    }
  }

  lemma QueueNext(first: nat, drained: seq<nat>, rounds: seq<seq<T.Frame>>, taken: seq<T.Frame>, now: nat)
    requires |rounds| + 1 < |drained| && Queue(first, drained, rounds, |rounds|) + |Controls(taken)| == now
    ensures Queue(first, drained, rounds + [taken], |rounds| + 1) == now - Min(drained[|rounds| + 1], now)
  {
    QueueOfFront(first, drained, rounds, taken, |rounds|);
  }

  lemma QueueFirst(first: nat, drained: seq<nat>)
    ensures drained != [] ==> Queue(first, drained, [], 0) == first - Min(drained[0], first)
  {
  }

  lemma NoneTook(wire: seq<T.Frame>, first: nat, drained: seq<nat>)
    ensures AllTook(wire, first, drained, [])
  {
  }

  lemma TookOnce(wire: seq<T.Frame>, first: nat, drained: seq<nat>, rounds: seq<seq<T.Frame>>, taken: seq<T.Frame>)
    requires |rounds| < |drained| && AllTook(wire, first, drained, rounds)
    requires |Flatten(rounds)| <= |wire| && Queue(first, drained, rounds, |rounds|) <= T.QUEUE_SIZE
    requires Took(wire[|Flatten(rounds)|..], T.QUEUE_SIZE - Queue(first, drained, rounds, |rounds|), taken)
    ensures AllTook(wire, first, drained, rounds + [taken])
  {
    hide Took;
    hide Flatten;
    hide Queue;
    forall j | 0 <= j < |rounds| + 1
      ensures TookAt(wire, first, drained, rounds + [taken], j)
    {
      QueueOfFront(first, drained, rounds, taken, j);
      assert (rounds + [taken])[..j] == rounds[..j];
      if j < |rounds| {
        assert TookAt(wire, first, drained, rounds, j);
      } else {
        assert rounds[..j] == rounds;
      }
    }
  }

  /**
   `propagate_remote_to_local`: round by round the loop takes the control frames up to the next data
   frame or close, if the queue has room for them, and goes on until it has taken a close. What is
   written out is what the frames taken off the wire carry, in order; `drained` says how many
   queued control frames the writer takes before each round.
   */
  method PropagateRemoteToLocal(r: WebsocketTunnelRead, drained: seq<nat>)
          returns (written: seq<nat>, closed: bool, ghost rounds: seq<seq<T.Frame>>)
    requires |r.pendingOperations| <= T.QUEUE_SIZE
    modifies r
    ensures old(r.wire) == Flatten(rounds) + r.wire && written == DataOf(Flatten(rounds))
    ensures |rounds| <= |drained| && AllTook(old(r.wire), old(|r.pendingOperations|), drained, rounds)
    ensures forall j :: 0 <= j < |rounds| ==> (EndsInClose(rounds[j]) <==> closed && j == |rounds| - 1)
    ensures !closed ==> |rounds| == |drained|
  {
    hide Took;
    hide Flatten;
    hide DataOf;
    hide AllTook;
    QueueFirst(|r.pendingOperations|, drained);
    NoneTook(r.wire, |r.pendingOperations|, drained);
    hide Queue;
    written, closed, rounds := [], false, [];
    ghost var wire, first := r.wire, |r.pendingOperations|;
    NoData();
    FlattenNone();
    var i := 0;
    while i < |drained| && !closed
      invariant i == |rounds| <= |drained| && wire == Flatten(rounds) + r.wire && written == DataOf(Flatten(rounds))
      invariant |r.pendingOperations| <= T.QUEUE_SIZE && AllTook(wire, first, drained, rounds)
      invariant i < |drained| ==>
                  Queue(first, drained, rounds, i) == |r.pendingOperations| - Min(drained[i], |r.pendingOperations|)
      invariant forall j :: 0 <= j < |rounds| ==> (EndsInClose(rounds[j]) <==> closed && j == |rounds| - 1)
      invariant closed ==> rounds != []
    {
      r.pendingOperations := r.pendingOperations[Min(drained[i], |r.pendingOperations|)..];
      var data;
      ghost var taken;
      assert wire[|Flatten(rounds)|..] == r.wire;
      data, closed, taken := ReaderRound(r);
      TookOnce(wire, first, drained, rounds, taken);
      if i + 1 < |drained| {
        QueueNext(first, drained, rounds, taken, |r.pendingOperations|);
      }
      TakenInAll(rounds, taken, r.wire);
      written, rounds := written + data, rounds + [taken];
      i := i + 1;
    }
  }

  lemma TakenInAll(rounds: seq<seq<T.Frame>>, taken: seq<T.Frame>, left: seq<T.Frame>)
    ensures Flatten(rounds + [taken]) == Flatten(rounds) + taken
    ensures Flatten(rounds) + (taken + left) == Flatten(rounds + [taken]) + left
    ensures DataOf(Flatten(rounds + [taken])) == DataOf(Flatten(rounds)) + DataOf(taken)
  {
    hide Flatten;
    hide DataOf;
    FlattenAppend(rounds, [taken]);
    FlattenOne(taken);
    DataConcat(Flatten(rounds), taken);
  }

  function FrameOf(op: T.Op): (f: T.Frame)
    ensures !f.Binary? && T.OpOf(f) == op
  {
    match op
    case OpPing => T.Ping
    case OpPong => T.Pong
    case OpClose => T.Close
  }
}
