/**
 One direction of the HTTP/2 transport: the writer loop sends each filled buffer down a bounded
 channel, the HTTP library carries the bytes and may cut them into body frames as it likes, and
 the far reader writes out every data frame and skips the others.
 */
module Http2Stream {
  import opened Common

  type Bytes = seq<nat>

  const CHANNEL_SIZE := 1024

  datatype ReaderPc = Reading | WritingOut(data: Bytes) | Ended

  /** `hand` is the filled buffer, `flow` what the library carries, `rest` an unwritten remainder. */
  datatype State = State(
    read: Bytes, hand: Bytes, channel: seq<Bytes>, flow: Bytes, rpc: ReaderPc, rest: Bytes, written: Bytes,
    writerEnded: bool)

  datatype Action =
    | ReadLocal(data: Bytes) | Send | SendFails | Leave
    | Carry | DataFrame(n: nat) | OtherFrame | WriteOut | WriteOutFails(n: nat) | BodyEnds

  const INITIAL := State([], [], [], [], Reading, [], [], false)

  predicate Enabled(s: State, a: Action) {
    match a
    case ReadLocal(d) => !s.writerEnded && s.hand == [] && d != []
    case Send => !s.writerEnded && s.hand != [] && |s.channel| < CHANNEL_SIZE
    case SendFails => !s.writerEnded && s.hand != []
    case Leave => !s.writerEnded && s.hand == []
    case Carry => s.channel != []
    case DataFrame(n) => s.rpc.Reading? && n <= |s.flow|
    case OtherFrame => s.rpc.Reading?
    case WriteOut => s.rpc.WritingOut?
    case WriteOutFails(n) => s.rpc.WritingOut? && n <= |s.rpc.data|
    case BodyEnds => s.rpc.Reading?
  }

  function Apply(s: State, a: Action): State
    requires Enabled(s, a)
  {
    match a
    case ReadLocal(d) => s.(read := s.read + d, hand := d)
    case Send => s.(hand := [], channel := s.channel + [s.hand])
    case SendFails => s.(writerEnded := true)
    case Leave => s.(writerEnded := true)
    case Carry => s.(channel := s.channel[1..], flow := s.flow + s.channel[0])
    case DataFrame(n) => s.(flow := s.flow[n..], rpc := WritingOut(s.flow[..n]))
    case OtherFrame => s
    case WriteOut => s.(written := s.written + s.rpc.data, rpc := Reading)
    case WriteOutFails(n) => s.(written := s.written + s.rpc.data[..n], rest := s.rpc.data[n..], rpc := Ended)
    case BodyEnds => s.(rpc := Ended)
  }

  predicate Runs(s: State, acts: seq<Action>)
    decreases |acts|
  {
    acts == [] || (Enabled(s, acts[0]) && Runs(Apply(s, acts[0]), acts[1..]))
  }

  function Exec(s: State, acts: seq<Action>): State
    requires Runs(s, acts)
    decreases |acts|
  {
    if acts == [] then s else Exec(Apply(s, acts[0]), acts[1..])
  }

  function Unwritten(s: State): Bytes {
    if s.rpc.WritingOut? then s.rpc.data else s.rest
  }

  ghost predicate Inv(s: State) {
    && s.read == s.written + Unwritten(s) + s.flow + Flatten(s.channel) + s.hand
    && (!s.rpc.Ended? ==> s.rest == [])
  }

  lemma SendKeepsInv(s: State)
    requires Inv(s) && Enabled(s, Send)
    ensures Inv(Apply(s, Send))
  {
    FlattenAppend(s.channel, [s.hand]);
    var before, sent, d := s.written + Unwritten(s) + s.flow, Flatten(s.channel), s.hand;
    assert Flatten([d]) == d + Flatten([d][1..]) == d;
    assert before + sent + d == before + (sent + d) + [];
  }

  lemma CarryKeepsInv(s: State)
    requires Inv(s) && Enabled(s, Carry)
    ensures Inv(Apply(s, Carry))
  {
  }

  lemma ReaderKeepsInv(s: State, a: Action)
    requires Inv(s) && Enabled(s, a)
    requires a.DataFrame? || a.WriteOut? || a.WriteOutFails?
    ensures Inv(Apply(s, a))
  {
    match a
    case DataFrame(n) =>
      var flow := s.flow;
      assert s.written + [] + flow == s.written + flow[..n] + flow[n..];
    case WriteOut =>
      assert s.written + s.rpc.data + [] == s.written + s.rpc.data;
    case WriteOutFails(n) =>
      var d := s.rpc.data;
      assert s.written + d == s.written + d[..n] + d[n..];
  }

  lemma StepKeepsInv(s: State, a: Action)
    requires Inv(s) && Enabled(s, a)
    ensures Inv(Apply(s, a))
  {
    match a
    case Send => SendKeepsInv(s);
    case Carry => CarryKeepsInv(s);
    case DataFrame(_) => ReaderKeepsInv(s, a);
    case WriteOut => ReaderKeepsInv(s, a);
    case WriteOutFails(_) => ReaderKeepsInv(s, a);
    case ReadLocal(d) =>
      var before := s.written + Unwritten(s) + s.flow + Flatten(s.channel);
      assert before + [] + d == before + d;
    case _ =>
  }

  lemma {:induction false} RunKeepsInv(s: State, acts: seq<Action>)
    requires Inv(s) && Runs(s, acts)
    ensures Inv(Exec(s, acts))
    decreases |acts|
  {
    hide Inv;
    hide Apply;
    if acts != [] {
      StepKeepsInv(s, acts[0]);
      RunKeepsInv(Apply(s, acts[0]), acts[1..]);
    }
  }

  /**
   However the library cuts or merges frames and wherever either side fails, the bytes written at
   the far side are a prefix of the bytes read at the near side, and the rest is still under way.
   */
  lemma BytesArePreserved(acts: seq<Action>)
    requires Runs(INITIAL, acts)
    ensures var s := Exec(INITIAL, acts);
            && s.written <= s.read
            && s.read == s.written + Unwritten(s) + s.flow + Flatten(s.channel) + s.hand
  {
    RunKeepsInv(INITIAL, acts);
    var s := Exec(INITIAL, acts);
    Front(s.read, s.written, Unwritten(s), s.flow, Flatten(s.channel), s.hand);
  }

  lemma Front(all: Bytes, a: Bytes, b: Bytes, c: Bytes, d: Bytes, e: Bytes)
    requires all == a + b + c + d + e
    ensures a <= all
  {
  }

  // ----- every schedule drains -----

  /** The steps that need neither new data nor a failure nor an end. */
  predicate Own(a: Action) { a.Send? || a.Carry? || (a.DataFrame? && a.n > 0) || a.WriteOut? }

  /** Each byte has to be sent, carried, framed and written out, each chunk and frame handled once. */
  function Work(s: State): nat {
    6 * |s.hand| + 4 * |Flatten(s.channel)| + |s.channel| + 3 * |s.flow| +
    if s.rpc.WritingOut? then |s.rpc.data| + 1 else 0
  }

  lemma OwnStepCosts(s: State, a: Action)
    requires Enabled(s, a) && Own(a)
    ensures Work(Apply(s, a)) < Work(s)
    ensures var t := Apply(s, a);
            t.read == s.read && t.writerEnded == s.writerEnded && t.rpc.Ended? == s.rpc.Ended?
  {
    hide Flatten;
    if a.Send? {
      FlattenAppend(s.channel, [s.hand]);
      FlattenOne(s.hand);
    } else if a.Carry? {
      assert s.channel == [s.channel[0]] + s.channel[1..];
      FlattenAppend([s.channel[0]], s.channel[1..]);
      FlattenOne(s.channel[0]);
    }
  }

  lemma {:induction false} OwnRunsAreBounded(s: State, acts: seq<Action>)
    requires Inv(s) && Runs(s, acts) && forall a :: a in acts ==> Own(a)
    ensures |acts| <= Work(s)
    ensures var t := Exec(s, acts);
            Inv(t) && t.read == s.read && t.writerEnded == s.writerEnded && t.rpc.Ended? == s.rpc.Ended?
    decreases |acts|
  {
    hide Inv;
    hide Apply;
    hide Work;
    if acts != [] {
      OwnStepCosts(s, acts[0]);
      StepKeepsInv(s, acts[0]);
      OwnRunsAreBounded(Apply(s, acts[0]), acts[1..]);
    }
  }

  ghost predicate AtRest(s: State) { forall a :: Own(a) ==> !Enabled(s, a) }

  lemma RestIsEmpty(s: State)
    requires AtRest(s) && !s.rpc.Ended?
    ensures s.channel == [] && s.flow == [] && s.rpc.Reading? && (!s.writerEnded ==> s.hand == [])
  {
    assert !Enabled(s, Carry) && !Enabled(s, WriteOut) && !Enabled(s, Send) && !Enabled(s, DataFrame(1));
  }

  /**
   Every schedule delivers everything: from every reached state with both sides running, every run of
   steps that need nothing new is bounded in length, and after one that cannot go on every byte read
   has been written at the far side.
   */
  lemma EveryScheduleDrains(first: seq<Action>, acts: seq<Action>)
    requires Runs(INITIAL, first) && Runs(Exec(INITIAL, first), acts) && forall a :: a in acts ==> Own(a)
    requires !Exec(INITIAL, first).writerEnded && !Exec(INITIAL, first).rpc.Ended?
    ensures |acts| <= Work(Exec(INITIAL, first))
    ensures var t := Exec(Exec(INITIAL, first), acts); AtRest(t) ==> t.written == Exec(INITIAL, first).read
  {
    RunKeepsInv(INITIAL, first);
    var s := Exec(INITIAL, first);
    OwnRunsAreBounded(s, acts);
    var t := Exec(s, acts);
    if AtRest(t) {
      RestIsEmpty(t);
      assert t.written + [] + [] + Flatten([]) + [] == t.written;
    }
  }

  /** A send waits exactly while 1024 chunks are on the channel. */
  lemma SendWaitsExactly(acts: seq<Action>)
    requires Runs(INITIAL, acts)
    ensures var s := Exec(INITIAL, acts);
            !s.writerEnded && s.hand != [] ==> (!Enabled(s, Send) <==> |s.channel| == 1024)
  {
    ChannelIsBounded(INITIAL, acts);
  }

  lemma {:induction false} ChannelIsBounded(s: State, acts: seq<Action>)
    requires |s.channel| <= CHANNEL_SIZE && Runs(s, acts)
    ensures |Exec(s, acts).channel| <= CHANNEL_SIZE
    decreases |acts|
  {
    if acts != [] {
      ChannelIsBounded(Apply(s, acts[0]), acts[1..]);
    }
  }

  // ----- what comes in and what ends -----

  /** One chunk, alone on its way, gets through in five steps. */
  lemma ChunkGetsThrough(s: State, d: Bytes)
    requires s.hand == [] && s.channel == [] && s.flow == [] && s.rpc.Reading? && !s.writerEnded && d != []
    ensures var acts := [ReadLocal(d), Send, Carry, DataFrame(|d|), WriteOut];
            Runs(s, acts) && Exec(s, acts) == s.(read := s.read + d, written := s.written + d)
  {
    hide Runs;
    hide Exec;
    var s1 := Apply(s, ReadLocal(d));
    var s2 := Apply(s1, Send);
    var s3 := Apply(s2, Carry);
    assert s3.flow == d && s3.channel == [];
    var s4 := Apply(s3, DataFrame(|d|));
    assert s4.flow == [] && s4.rpc == WritingOut(d);
    var s5 := Apply(s4, WriteOut);
    NoSteps(s5);
    Prepend(s4, WriteOut, [], [WriteOut]);
    Prepend(s3, DataFrame(|d|), [WriteOut], [DataFrame(|d|), WriteOut]);
    Prepend(s2, Carry, [DataFrame(|d|), WriteOut], [Carry, DataFrame(|d|), WriteOut]);
    Prepend(s1, Send, [Carry, DataFrame(|d|), WriteOut], [Send, Carry, DataFrame(|d|), WriteOut]);
    Prepend(s, ReadLocal(d), [Send, Carry, DataFrame(|d|), WriteOut],
            [ReadLocal(d), Send, Carry, DataFrame(|d|), WriteOut]);
  }

  lemma NoSteps(s: State)
    ensures Runs(s, []) && Exec(s, []) == s
  {
  }

  lemma Prepend(s: State, a: Action, rest: seq<Action>, acts: seq<Action>)
    requires Enabled(s, a) && Runs(Apply(s, a), rest) && acts == [a] + rest
    ensures Runs(s, acts) && Exec(s, acts) == Exec(Apply(s, a), rest)
  {
    hide Apply;
    hide Enabled;
    assert acts[1..] == rest;
  }

  /**
   The writer ends exactly by a failed send or by leaving its loop, the reader exactly at the end of
   the body or by a failed write, of which exactly the first `n` bytes have been written; and what is
   read is what the local side had, whenever the writer has nothing in hand.
   */
  lemma EndsExactly(s: State, a: Action)
    requires Enabled(s, a)
    ensures Apply(s, a).writerEnded != s.writerEnded <==> a == SendFails || a == Leave
    ensures Apply(s, a).rpc.Ended? != s.rpc.Ended? <==> a == BodyEnds || a.WriteOutFails?
    ensures a.WriteOutFails? ==> Apply(s, a).written == s.written + s.rpc.data[..a.n]
    ensures a.ReadLocal? ==> Apply(s, a).read == s.read + a.data && Apply(s, a).hand == a.data
  {
  }
}
