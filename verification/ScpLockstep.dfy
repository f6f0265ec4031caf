/**
 The two halves of an SCP transfer running at the same time: the sender puts the chunks of a
 burst on the channel and waits, the receiver takes them off and acknowledges. Every interleaving
 of their steps is a run.
 */
module ScpLockstep {
  import opened Common
  import opened ScpHeader
  import opened ScpFiles
  import opened ScpReceiver
  import opened ScpSession

  datatype Sender =
    | Emitting(rest: seq<Bytes>)  // chunks of the current burst that are not sent yet
    | AwaitingAck
    | SenderDone

  /** `todo` are the bursts not begun, `acks` the acknowledgements on their way back. */
  datatype Session = Session(todo: seq<seq<Bytes>>, sender: Sender, wire: seq<Bytes>, rx: Rx, acks: nat)

  datatype Step = Emit | TakeAck | Deliver

  /** Both sides have started: the sender awaits a first response, the receiver has sent it. */
  function Opened(plan: seq<seq<Bytes>>, rx: Rx): Session {
    Session(plan, AwaitingAck, [], rx, 1)
  }

  predicate Enabled(s: Session, st: Step) {
    match st
    case Emit => s.sender.Emitting? && s.sender.rest != []
    case TakeAck => s.sender.AwaitingAck? && s.acks > 0
    case Deliver => s.wire != []
  }

  function Apply(s: Session, st: Step): Session
    requires Enabled(s, st)
  {
    match st
    case Emit =>
      s.(wire := s.wire + [s.sender.rest[0]],
         sender := if |s.sender.rest| == 1 then AwaitingAck else Emitting(s.sender.rest[1..]))
    case TakeAck =>
      if s.todo == [] then s.(acks := s.acks - 1, sender := SenderDone)
      else s.(acks := s.acks - 1, todo := s.todo[1..], sender := Emitting(s.todo[0]))
    case Deliver =>
      var (r, n) := OnMsg(s.rx, Data(s.wire[0]));
      s.(wire := s.wire[1..], rx := r, acks := s.acks + n)
  }

  predicate Runs(s: Session, steps: seq<Step>)
    decreases |steps|
  {
    steps == [] || (Enabled(s, steps[0]) && Runs(Apply(s, steps[0]), steps[1..]))
  }

  function Exec(s: Session, steps: seq<Step>): Session
    requires Runs(s, steps)
    decreases |steps|
  {
    if steps == [] then s else Exec(Apply(s, steps[0]), steps[1..])
  }

  /** The chunks of the current burst that the receiver has not had yet. */
  function Pending(s: Session): seq<Bytes> {
    s.wire + (if s.sender.Emitting? then s.sender.rest else [])
  }

  /** The receiver is inside a stage that `pending` completes, after which `todo` leads to `goal`. */
  ghost predicate MidStage(rx: Rx, pending: seq<Bytes>, todo: seq<seq<Bytes>>, goal: Rx) {
    GoodStage(rx, pending) && Leads(StageEnd(rx, pending), todo, goal)
  }

  /**
   Either one acknowledgement is out, the channel is empty and the sender waits for it, or none is
   and the receiver is in the middle of a stage; and the rest of the plan leads to `goal`.
   */
  ghost predicate InStep(s: Session, goal: Rx) {
    && (s.sender.Emitting? ==> s.sender.rest != [])
    && !s.rx.Failed?
    && if s.sender.SenderDone? then s.acks == 0 && s.wire == [] && s.todo == [] && s.rx == goal
       else if s.acks == 0 then MidStage(s.rx, Pending(s), s.todo, goal)
       else
         s.acks == 1 && s.wire == [] && s.sender.AwaitingAck? && Leads(s.rx, s.todo, goal)
  }

  lemma EmitKeepsPending(s: Session)
    requires Enabled(s, Emit)
    ensures Pending(Apply(s, Emit)) == Pending(s)
  {
  }

  lemma EmitKeepsStep(s: Session, goal: Rx)
    requires InStep(s, goal) && Enabled(s, Emit)
    ensures InStep(Apply(s, Emit), goal)
  {
    EmitKeepsPending(s);
  }

  lemma TakeAckKeepsStep(s: Session, goal: Rx)
    requires InStep(s, goal) && Enabled(s, TakeAck)
    ensures InStep(Apply(s, TakeAck), goal)
  {
    var s' := Apply(s, TakeAck);
    if s.todo != [] {
      assert Pending(s') == s.todo[0];
    }
  }

  lemma DeliverKeepsStep(s: Session, goal: Rx)
    requires InStep(s, goal) && Enabled(s, Deliver)
    ensures InStep(Apply(s, Deliver), goal)
  {
    var s' := Apply(s, Deliver);
    var p := Pending(s);
    assert p[0] == s.wire[0] && p[1..] == Pending(s');
    assert StageEnd(s.rx, p) == StageEnd(s'.rx, Pending(s'));
    if |p| == 1 {
      assert Pending(s') == [];
      assert StageEnd(s'.rx, []) == s'.rx;
    }
  }

  lemma {:induction false} RunsStayInStep(s: Session, steps: seq<Step>, goal: Rx)
    requires InStep(s, goal) && Runs(s, steps)
    ensures InStep(Exec(s, steps), goal)
    decreases |steps|
  {
    if steps != [] {
      match steps[0] {
        case Emit => EmitKeepsStep(s, goal);
        case TakeAck => TakeAckKeepsStep(s, goal);
        case Deliver => DeliverKeepsStep(s, goal);
      }
      RunsStayInStep(Apply(s, steps[0]), steps[1..], goal);
    }
  }

  // ----- every run ends -----

  function Total(stages: seq<seq<Bytes>>): nat {
    if stages == [] then 0 else |stages[0]| + Total(stages[1..])
  }

  /** Bounds the steps still possible; each step lowers it. */
  function Work(s: Session): nat {
    3 * (Total(s.todo) + (if s.sender.Emitting? then |s.sender.rest| else 0)) + 2 * |s.wire| + s.acks
  }

  lemma StepDoesWork(s: Session, st: Step)
    requires Enabled(s, st)
    ensures Work(Apply(s, st)) < Work(s)
  {
  }

  lemma {:induction false} RunsAreFinite(s: Session, steps: seq<Step>)
    requires Runs(s, steps)
    ensures |steps| <= Work(s)
    decreases |steps|
  {
    if steps != [] {
      StepDoesWork(s, steps[0]);
      RunsAreFinite(Apply(s, steps[0]), steps[1..]);
    }
  }

  predicate Stuck(s: Session) {
    !Enabled(s, Emit) && !Enabled(s, TakeAck) && !Enabled(s, Deliver)
  }

  /** Neither side stalls: while the sender is not done, somebody can move. */
  lemma StuckMeansDone(s: Session, goal: Rx)
    requires InStep(s, goal) && Stuck(s)
    ensures s.sender.SenderDone? && s.rx == goal
  {
    assert s.wire == [];
  }

  // ----- the round trip -----

  /** A download may have to make its target directory first; the first header then does it. */
  lemma TargetIsMade(es: Forest, name: Name, local: Path, fs: Fs, plan: seq<seq<Bytes>>, goal: Rx)
    requires ValidName(name) && NoFileOnTheWay(fs, local) && (local + [name] in fs ==> fs[local + [name]].Dir?)
    requires Tells(Node(es), name, plan)
    requires Leads(AtHeader([local], MakeDirs(fs, local)), plan, goal)
    ensures Leads(AtHeader([local], fs), plan, goal)
  {
    var made := MakeDirs(fs, local);
    var made' := made[local + [name] := Dir];
    MakeDirsMakes(fs, local);
    MakeExistingDirs(made, local);
    JoinValidName(local, name);
    CreateDirIn(fs, local, name);
    assert local + [name] in made ==> local + [name] in fs;
    CreateDirIn(made, local, name);
    assert Top([local]) == local;
    DirHeaderStep(plan[0][0], name, [local], fs, made');
    DirHeaderStep(plan[0][0], name, [local], made, made');
    SameFirstStep(AtHeader([local], made), AtHeader([local], fs), plan, goal);
  }

  lemma FitsUnderMade(t: Tree, fs: Fs, local: Path, name: Name)
    requires ValidTree(t) && NoFileOnTheWay(fs, local) && Fits(fs, Layout(t, local + [name]))
    ensures Fits(MakeDirs(fs, local), Layout(t, local + [name]))
  {
    MakeDirsMakes(fs, local);
    LayoutIsBelow(t, local + [name]);
  }

  lemma SameFirstStep(r: Rx, u: Rx, plan: seq<seq<Bytes>>, goal: Rx)
    requires plan != [] && plan[0] != [] && OnMsg(r, Data(plan[0][0])) == OnMsg(u, Data(plan[0][0]))
    requires Leads(r, plan, goal)
    ensures Leads(u, plan, goal)
  {
  }

  /** Where the transfer has to end: the target made, the tree laid out in it, the stack at its root. */
  function Goal(t: Tree, name: Name, local: Path, fs: Fs): Rx {
    AtHeader([local], MakeDirs(fs, local) + Layout(t, local + [name]))
  }

  lemma UploadLeadsToGoal(t: Tree, name: Name, local: Path, fs: Fs, plan: seq<seq<Bytes>>)
    requires ValidTree(t) && ValidName(name) && Delivered(Bursts(t, name), plan)
    requires NoFileOnTheWay(fs, local) && (t.Leaf? ==> DirsUpTo(fs, local)) && Fits(fs, Layout(t, local + [name]))
    ensures Leads(AtHeader([local], fs), plan, Goal(t, name, local, fs))
  {
    hide Tells;
    hide Leads;
    hide Fits;
    hide Bursts;
    hide Layout;
    var made := MakeDirs(fs, local);
    BurstsTell(t, name, plan);
    assert Top([local]) == local;
    MakeDirsMakes(fs, local);
    FitsUnderMade(t, fs, local, name);
    TreeArrives(t, name, [local], made, plan);
    if t.Leaf? {
      MakeExistingDirs(fs, local);
    } else {
      EntriesFit(t.entries, local + [name], fs);
      TargetIsMade(t.entries, name, local, fs, plan, Goal(t, name, local, fs));
    }
  }

  /**
   The tree round trip. For every valid tree, every way its payloads are cut into chunks and every
   interleaving of sender and receiver: at most one acknowledgement is ever on its way, and only
   while the sender awaits it with the channel empty; the receiver never fails; every run is
   finite; and a run that cannot go on has the sender done and the receiver's files equal to what
   they were with exactly the layout of the tree over them, its directory stack back at the root.
   */
  lemma TreeRoundTrip(t: Tree, name: Name, local: Path, fs: Fs, plan: seq<seq<Bytes>>, steps: seq<Step>)
    requires ValidTree(t) && ValidName(name) && Delivered(Bursts(t, name), plan)
    requires NoFileOnTheWay(fs, local) && (t.Leaf? ==> DirsUpTo(fs, local)) && Fits(fs, Layout(t, local + [name]))
    requires Runs(Opened(plan, AtHeader([local], fs)), steps)
    ensures var s := Exec(Opened(plan, AtHeader([local], fs)), steps);
            && s.acks <= 1 && (s.acks == 1 ==> s.sender.AwaitingAck? && s.wire == [])
            && !s.rx.Failed?
            && |steps| <= 3 * Total(plan) + 1
            && (Stuck(s) ==> s.sender.SenderDone? && s.rx == Goal(t, name, local, fs))
            && (s.sender.SenderDone? ==> s.rx == Goal(t, name, local, fs))
  {
    var goal := Goal(t, name, local, fs);
    UploadLeadsToGoal(t, name, local, fs, plan);
    var s0 := Opened(plan, AtHeader([local], fs));
    RunsStayInStep(s0, steps, goal);
    RunsAreFinite(s0, steps);
    var s := Exec(s0, steps);
    if Stuck(s) {
      StuckMeansDone(s, goal);
    }
  }

  /** What the reached files hold at any path: what the tree has there, where it has nothing what was there. */
  lemma GoalHoldsTheTree(t: Tree, name: Name, local: Path, fs: Fs, q: Path)
    requires ValidTree(t) && NoFileOnTheWay(fs, local)
    ensures var done := Goal(t, name, local, fs).fs;
            && (local + [name] <= q && Resolve(t, q[|local| + 1..]).Some? ==>
                  q in done && Some(done[q]) == Resolve(t, q[|local| + 1..]))
            && (q in fs && !(local + [name] <= q && Resolve(t, q[|local| + 1..]).Some?) ==>
                q in done && done[q] == fs[q])
            && (q in done ==> q in fs || q <= local || (local + [name] <= q && Resolve(t, q[|local| + 1..]).Some?))
  {
    LayoutIsTree(t, local + [name], q);
    MakeDirsMakes(fs, local);
  }
}
