/**
 The writing and reading halves of a tunnel as objects: the websocket writer with its growing
 buffer and its queue of pending control frames, the websocket reader that fills that queue, and
 the HTTP/2 writer that gives its filled buffer away.
 */
module TunnelBuffers {
  import opened Common
  import T = Transport
  import L = TransportLaws

  const MAX_PACKET_LENGTH: nat := 64 * 1024
  const MB: nat := 1024 * 1024

  /** `reserve(n)` on an empty buffer of capacity `c` yields `alloc(c, n)`. */
  ghost predicate Allocator(alloc: (nat, nat) -> nat) {
    forall c: nat, n: nat {:trigger alloc(c, n)} :: n <= alloc(c, n) <= Max(n, 2 * c)
  }

  /** Capacity after writing a buffer of `len` bytes: a completely filled one grows by a quarter or more. */
  function Grown(cap: nat, len: nat, alloc: (nat, nat) -> nat): nat {
    if cap == len && cap < 32 * MB then alloc(cap, cap + cap / 4) else cap
  }

  function CapacityAfter(lens: seq<nat>, alloc: (nat, nat) -> nat): nat {
    if lens == [] then MAX_PACKET_LENGTH
    else Grown(CapacityAfter(lens[..|lens| - 1], alloc), lens[|lens| - 1], alloc)
  }

  lemma GrownIsBounded(cap: nat, len: nat, alloc: (nat, nat) -> nat)
    requires Allocator(alloc) && MAX_PACKET_LENGTH <= cap < 64 * MB
    ensures cap <= Grown(cap, len, alloc) < 64 * MB
    ensures len < cap || cap >= 32 * MB ==> Grown(cap, len, alloc) == cap
    ensures len == cap && cap < 32 * MB ==> 4 * Grown(cap, len, alloc) + 3 >= 5 * cap
  {
    assert cap + cap / 4 <= alloc(cap, cap + cap / 4) <= Max(cap + cap / 4, 2 * cap);
  }

  /**
   Whatever is read, the websocket buffer always has room for a whole packet, never shrinks, and
   stays below 64 MiB, the largest frame the far side accepts. It does not grow at all while every
   read is a datagram that leaves room, as over UDP.
   */
  lemma {:induction false} CapacityIsBounded(lens: seq<nat>, n: nat, alloc: (nat, nat) -> nat)
    requires Allocator(alloc) && n <= |lens|
    ensures 65536 <= CapacityAfter(lens[..n], alloc) <= CapacityAfter(lens, alloc) < 64 * MB
    ensures (forall i :: 0 <= i < |lens| ==> lens[i] < 65536) ==> CapacityAfter(lens, alloc) == 65536
    decreases |lens|
  {
    hide Grown;
    if lens == [] {
      assert lens[..n] == lens;
    } else {
      var init, last := lens[..|lens| - 1], lens[|lens| - 1];
      var k := if n < |lens| then n else |init|;
      CapacityIsBounded(init, k, alloc);
      GrownIsBounded(CapacityAfter(init, alloc), last, alloc);
      assert init[..k] == lens[..k] && lens[..|lens|] == lens;
    }
  }

  datatype IoResult = Ok | BrokenPipe | ConnectionAborted

  function Reply(op: T.Op): seq<T.Frame> {
    match op
    case OpPing => [T.Pong]
    case OpPong => []
    case OpClose => [T.Close]
  }

  /** The frames written for a run of drained control frames. */
  function Replies(ops: seq<T.Op>): seq<T.Frame> {
    if ops == [] then [] else Replies(ops[..|ops| - 1]) + Reply(ops[|ops| - 1])
  }

  lemma RepliesNext(ops: seq<T.Op>, i: nat)
    requires i < |ops|
    ensures Replies(ops[..i + 1]) == Replies(ops[..i]) + Reply(ops[i])
    ensures T.Count(ops[..i + 1], T.OpPong) == T.Count(ops[..i], T.OpPong) + T.One(ops[i].OpPong?)
  {
    assert ops[..i + 1] == ops[..i] + [ops[i]];
    assert ops[..i + 1][..i] == ops[..i];
    L.CountAppend(ops[..i], ops[i], T.OpPong);
  }

  lemma {:induction false} RepliesPrefix(ops: seq<T.Op>, i: nat)
    requires i <= |ops|
    ensures Replies(ops[..i]) <= Replies(ops) && T.Count(ops[..i], T.OpPong) <= T.Count(ops, T.OpPong)
    decreases |ops| - i
  {
    if i == |ops| {
      assert ops[..i] == ops;
    } else {
      RepliesNext(ops, i);
      RepliesPrefix(ops, i + 1);
    }
  }

  /** An endpoint after `n` drain steps of the transport model. */
  function Drained(e: T.Endpoint, n: nat): (d: T.Endpoint)
    requires e.wpc.Draining? && n <= |e.ops|
    ensures d.wpc.Draining? && d.ops == e.ops[n..]
  {
    if n == 0 then e else T.Do(Drained(e, n - 1), e, T.DrainOne).0
  }

  /** A counter that was lowered `k` times, wrapping around below zero. */
  function Lowered(n: T.Usize, k: nat): T.Usize { (n - k) % (T.USIZE_MAX + 1) }

  lemma LoweredOnce(n: T.Usize, k: nat)
    ensures T.FetchSub(Lowered(n, k)) == Lowered(n, k + 1)
    ensures k <= n ==> Lowered(n, k) == n - k
  {
  }

  lemma DrainStep(d: T.Endpoint, peer: T.Endpoint)
    requires T.Can(d, peer, T.DrainOne)
    ensures var m := T.Do(d, peer, T.DrainOne).0;
            && m.out == d.out + Reply(d.ops[0]) && m.handled == d.handled + [d.ops[0]]
            && m.inFlight == if d.ops[0].OpPong? then T.FetchSub(d.inFlight) else d.inFlight
  {
    assert d.out + [] == d.out;
  }

  /** `d` has answered the first `n` operations of `e`: pings by pongs, pongs by taking them off the counter. */
  ghost predicate Answers(e: T.Endpoint, d: T.Endpoint, n: nat)
    requires n <= |e.ops| && e.inFlight <= T.USIZE_MAX
  {
    && d.out == e.out + Replies(e.ops[..n])
    && d.inFlight == Lowered(e.inFlight, T.Count(e.ops[..n], T.OpPong))
    && d.handled == e.handled + e.ops[..n]
  }

  lemma AnswersNext(e: T.Endpoint, d: T.Endpoint, m: T.Endpoint, n: nat)
    requires n < |e.ops| && e.inFlight <= T.USIZE_MAX && Answers(e, d, n)
    requires m.out == d.out + Reply(e.ops[n]) && m.handled == d.handled + [e.ops[n]]
    requires m.inFlight == if e.ops[n].OpPong? then T.FetchSub(d.inFlight) else d.inFlight
    ensures Answers(e, m, n + 1)
  {
    hide Lowered;
    RepliesNext(e.ops, n);
    LoweredOnce(e.inFlight, T.Count(e.ops[..n], T.OpPong));
    Assoc(e.out, Replies(e.ops[..n]), Reply(e.ops[n]));
    Assoc(e.handled, e.ops[..n], [e.ops[n]]);
    assert e.ops[..n] + [e.ops[n]] == e.ops[..n + 1];
  }

  /**
   Draining answers every ping with a pong, in order, and takes every pong off the counter, which
   wraps around when more pongs were sent than pings were in flight.
   */
  lemma {:induction false} DrainedAnswers(e: T.Endpoint, n: nat)
    requires e.wpc.Draining? && n <= |e.ops| && e.inFlight <= T.USIZE_MAX
    ensures Answers(e, Drained(e, n), n)
  {
    if n == 0 {
      assert e.ops[..0] == [];
      LoweredOnce(e.inFlight, 0);
      assert e.out + [] == e.out && e.handled + [] == e.handled;
    } else {
      DrainedAnswers(e, n - 1);
      DrainStep(Drained(e, n - 1), e);
      AnswersNext(e, Drained(e, n - 1), Drained(e, n), n - 1);
    }
  }

  /** `fetch_add(1)`, which wraps around at the top. */
  function FetchAdd(n: T.Usize): T.Usize { if n == T.USIZE_MAX then 0 else n + 1 }

  class WebsocketTunnelWrite {
    var buf: seq<nat>
    var capacity: nat
    var pendingOperations: seq<T.Op>
    var inFlightPing: T.Usize
    var wire: seq<T.Frame>
    const alloc: (nat, nat) -> nat

    /** What holds at the head of the writer loop. */
    ghost predicate Valid()
      reads this
    {
      && Allocator(alloc)
      && buf == []
      && MAX_PACKET_LENGTH <= capacity < 64 * MB
    }

    constructor (alloc: (nat, nat) -> nat)
      requires Allocator(alloc)
      ensures Valid() && capacity == CapacityAfter([], alloc) && this.alloc == alloc
      ensures pendingOperations == [] && inFlightPing == 0 && wire == []
    {
      buf, capacity := [], MAX_PACKET_LENGTH;
      pendingOperations, inFlightPing, wire := [], 0, [];
      this.alloc := alloc;
    }

    /** One `read_buf` of the local side followed by `write`; `sent` tells whether the frame got out. */
    method ReadThenWrite(data: seq<nat>, sent: bool) returns (r: IoResult)
      requires Valid() && 0 < |data| <= capacity
      modifies this
      ensures r == if sent then Ok else ConnectionAborted
      ensures sent ==> Valid() && wire == old(wire) + [T.Binary(data)]
      ensures sent ==> capacity == Grown(old(capacity), |data|, alloc)
      ensures !sent ==> wire == old(wire) && capacity == old(capacity)
      ensures pendingOperations == old(pendingOperations) && inFlightPing == old(inFlightPing)
    {
      buf := buf + data;
      var readLen := |buf|;
      if !sent {
        return ConnectionAborted;
      }
      wire := wire + [T.Binary(buf[..readLen])];
      assert buf[..readLen] == data;
      buf := [];
      if capacity == readLen && capacity < 32 * MB {
        var newSize := capacity + capacity / 4;
        capacity := alloc(capacity, newSize);
      }
      return Ok;
    }

    /** The counter is raised before anything else, so a refused ping leaves it raised. */
    method Ping(sent: bool) returns (r: IoResult)
      modifies this
      ensures inFlightPing == FetchAdd(old(inFlightPing))
      ensures inFlightPing == (old(inFlightPing) + 1) % 0x1_0000_0000_0000_0000
      ensures r == if old(inFlightPing) >= T.MAX_IN_FLIGHT then ConnectionAborted else if sent then Ok else BrokenPipe
      ensures wire == old(wire) + (if r.Ok? then [T.Ping] else [])
      ensures buf == old(buf) && capacity == old(capacity) && pendingOperations == old(pendingOperations)
    {
      var before := inFlightPing;
      inFlightPing := FetchAdd(inFlightPing);
      if before >= T.MAX_IN_FLIGHT {
        return ConnectionAborted;
      }
      if !sent {
        return BrokenPipe;
      }
      wire := wire + [T.Ping];
      return Ok;
    }

    /**
     Drains the queue; the wire takes at most `room` more frames before it fails. Success is what
     `|queue|` drain steps of the transport model do (`DrainedAnswers`); a failure leaves a prefix
     of the replies.
     */
    method HandlePendingOperations(room: nat) returns (r: IoResult)
      modifies this
      ensures r == if |Replies(old(pendingOperations))| <= room then Ok else ConnectionAborted
      ensures r.Ok? ==>
                && pendingOperations == []
                && wire == old(wire) + Replies(old(pendingOperations))
                && inFlightPing == Lowered(old(inFlightPing), T.Count(old(pendingOperations), T.OpPong))
      ensures old(wire) <= wire <= old(wire) + Replies(old(pendingOperations))
      ensures buf == old(buf) && capacity == old(capacity)
    {
      ghost var all := pendingOperations;
      ghost var w0, n0 := wire, inFlightPing;
      ghost var i := 0;
      var left := room;
      hide Lowered;
      hide Replies;
      NoReplies();
      r := Ok;
      LoweredOnce(n0, 0);
      assert all[..|all|] == all;
      while pendingOperations != []
        invariant r.Ok? && i <= |all| && pendingOperations == all[i..]
        invariant wire == w0 + Replies(all[..i]) && left == room - |Replies(all[..i])|
        invariant inFlightPing == Lowered(n0, T.Count(all[..i], T.OpPong))
        invariant buf == old(buf) && capacity == old(capacity)
        decreases |pendingOperations|
      {
        var frame := pendingOperations[0];
        pendingOperations := pendingOperations[1..];
        ghost var sent := Replies(all[..i]);
        Bookkeeping(w0, all, i);
        LoweredOnce(n0, T.Count(all[..i], T.OpPong));
        if frame.OpPong? {
          inFlightPing := T.FetchSub(inFlightPing);
        } else {
          if left == 0 {
            return ConnectionAborted;
          }
          wire, left := wire + (if frame.OpClose? then [T.Close] else [T.Pong]), left - 1;
        }
        assert wire == w0 + sent + Reply(frame);
        i := i + 1;
      }
    }
  }

  lemma NoReplies()
    ensures Replies([]) == [] && T.Count<T.Op>([], T.OpPong) == 0
  {
  }

  /** What one more drained frame means for the replies, the counter and what is already out. */
  lemma Bookkeeping(w0: seq<T.Frame>, all: seq<T.Op>, i: nat)
    requires i < |all|
    ensures w0 + Replies(all[..i]) + Reply(all[i]) == w0 + Replies(all[..i + 1])
    ensures |Replies(all[..i + 1])| == |Replies(all[..i])| + |Reply(all[i])| <= |Replies(all)|
    ensures w0 <= w0 + Replies(all[..i]) <= w0 + Replies(all)
    ensures T.Count(all[..i + 1], T.OpPong) ==
              T.Count(all[..i], T.OpPong) + T.One(all[i].OpPong?) <= T.Count(all, T.OpPong)
  {
    RepliesNext(all, i);
    RepliesPrefix(all, i);
    RepliesPrefix(all, i + 1);
    Assoc(w0, Replies(all[..i]), Reply(all[i]));
    assert Replies(all) == Replies(all[..i]) + Replies(all)[|Replies(all[..i])|..];
    Assoc(w0, Replies(all[..i]), Replies(all)[|Replies(all[..i])|..]);
  }

  datatype CopyResult =
    | AwaitFrame                // nothing left on the wire yet
    | AwaitRoom(op: T.Op)       // the queue of pending operations is full
    | Wrote(data: seq<nat>)
    | CloseReceived

  predicate AllControl(fs: seq<T.Frame>) {
    forall i :: 0 <= i < |fs| ==> !fs[i].Binary?
  }

  /** The operations that a run of control frames is queued as. */
  function Ops(fs: seq<T.Frame>): (ops: seq<T.Op>)
    requires AllControl(fs)
    ensures |ops| == |fs| && forall i :: 0 <= i < |fs| ==> ops[i] == T.OpOf(fs[i])
  {
    seq(|fs|, i requires 0 <= i < |fs| => T.OpOf(fs[i]))
  }

  class WebsocketTunnelRead {
    var wire: seq<T.Frame>
    var pendingOperations: seq<T.Op>
    var notified: nat  // how often waiters were notified

    /**
     One `copy`: control frames are queued for the writer in order, each followed by a
     notification, until a data frame is written out, a close ends the tunnel, the wire is empty
     or the queue is full. `queued` are the control frames that went through.
     */
    method Copy() returns (r: CopyResult, ghost queued: seq<T.Frame>)
      requires |pendingOperations| <= T.QUEUE_SIZE
      modifies this
      ensures AllControl(queued) && pendingOperations == old(pendingOperations) + Ops(queued)
      ensures |pendingOperations| <= T.QUEUE_SIZE && notified == old(notified) + |queued|
      ensures forall i :: 0 <= i < |queued| ==> (queued[i].Close? <==> r.CloseReceived? && i == |queued| - 1)
      ensures match r
              case AwaitFrame => old(wire) == queued && wire == []
              case AwaitRoom(op) =>
                && |pendingOperations| == T.QUEUE_SIZE && |queued| < |old(wire)|
                && !old(wire)[|queued|].Binary? && op == T.OpOf(old(wire)[|queued|])
                && old(wire) == queued + [old(wire)[|queued|]] + wire
              case Wrote(data) => old(wire) == queued + [T.Binary(data)] + wire
              case CloseReceived => queued != [] && old(wire) == queued + wire
    {
      queued := [];
      while wire != []
        invariant old(wire) == queued + wire && AllControl(queued)
        invariant pendingOperations == old(pendingOperations) + Ops(queued) && |pendingOperations| <= T.QUEUE_SIZE
        invariant notified == old(notified) + |queued|
        invariant forall i :: 0 <= i < |queued| ==> !queued[i].Close?
        decreases |wire|
      {
        var msg := wire[0];
        wire := wire[1..];
        if msg.Binary? {
          return Wrote(msg.data), queued;
        }
        if |pendingOperations| == T.QUEUE_SIZE {
          return AwaitRoom(T.OpOf(msg)), queued;
        }
        pendingOperations := pendingOperations + [T.OpOf(msg)];
        notified := notified + 1;
        queued := queued + [msg];
        if msg.Close? {
          return CloseReceived, queued;
        }
      }
      r := AwaitFrame;
    }
  }

  class Http2TunnelWrite {
    var buf: seq<nat>
    var capacity: nat
    var channel: seq<seq<nat>>
    const alloc: (nat, nat) -> nat

    ghost predicate Valid()
      reads this
    {
      Allocator(alloc) && buf == [] && capacity >= MAX_PACKET_LENGTH
    }

    constructor (alloc: (nat, nat) -> nat)
      requires Allocator(alloc)
      ensures Valid() && channel == [] && capacity == 20 * 65536
    {
      buf, capacity, channel := [], MAX_PACKET_LENGTH * 20, [];
      this.alloc := alloc;
    }

    /** A `read_buf` followed by `write`: the filled part is split off, the rest kept if still large enough. */
    method ReadThenWrite(data: seq<nat>, open: bool) returns (r: IoResult)
      requires Valid() && 0 < |data| <= capacity
      modifies this
      ensures Valid()
      ensures r == if open then Ok else ConnectionAborted
      ensures channel == if open then old(channel) + [data] else old(channel)
      ensures capacity == old(capacity) - |data| || old(capacity) - |data| < MAX_PACKET_LENGTH
    {
      buf := buf + data;
      var frozen := buf;
      assert frozen == data;
      capacity := capacity - |buf|;
      buf := [];
      if open {
        channel := channel + [frozen];
        r := Ok;
      } else {
        r := ConnectionAborted;
      }
      if capacity < MAX_PACKET_LENGTH {
        capacity := alloc(capacity, MAX_PACKET_LENGTH);
      }
    }
  }
}
