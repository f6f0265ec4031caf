/**
 An upload fed to a download: the recursive sender sends bursts of bytes and waits for one
 acknowledgement after each, the receiver takes chunks off the channel and acknowledges. The two
 sides and the channel between them run interleaved.
 */
module ScpSession {
  import opened Common
  import opened ScpHeader
  import opened ScpFiles
  import opened ScpReceiver

  const END_LINE: Bytes := [LETTER_E, NL]
  const TERMINATOR: Bytes := [0]

  /** The `channel.data` calls of `upload_dir` and `upload_file` between two awaited responses. */
  type Burst = seq<Bytes>

  function FileBursts(size: nat, content: Bytes, name: Name): seq<Burst> {
    [[FileHeader(size, name)], [content, TERMINATOR]]
  }

  function Bursts(t: Tree, name: Name): seq<Burst>
    decreases t
  {
    match t
    case Leaf(c) => FileBursts(|c|, c, name)
    case Node(es) => [[DirHeader(name)]] + BurstsAll(es) + [[END_LINE]]
  }

  function BurstsAll(f: Forest): seq<Burst>
    decreases f
  {
    match f
    case Empty => []
    case Cons(n, t, rest) => Bursts(t, n) + BurstsAll(rest)
  }

  /** How a burst can arrive: a line whole, a payload in any non-empty chunks. */
  ghost predicate Arrives(b: Burst, chunks: seq<Bytes>) {
    if |b| == 1 then chunks == b else NoneEmpty(chunks) && Flatten(chunks) == Flatten(b)
  }

  ghost predicate Delivered(bursts: seq<Burst>, plan: seq<seq<Bytes>>) {
    |plan| == |bursts| && forall i :: 0 <= i < |plan| ==> Arrives(bursts[i], plan[i])
  }

  /** The receiver goes through all stages of a plan. */
  predicate GoodPlan(r: Rx, plan: seq<seq<Bytes>>)
    decreases |plan|
  {
    plan == [] || (GoodStage(r, plan[0]) && GoodPlan(StageEnd(r, plan[0]), plan[1..]))
  }

  function PlanEnd(r: Rx, plan: seq<seq<Bytes>>): Rx
    decreases |plan|
  {
    if plan == [] then r else PlanEnd(StageEnd(r, plan[0]), plan[1..])
  }

  ghost predicate Leads(r: Rx, plan: seq<seq<Bytes>>, r': Rx) {
    GoodPlan(r, plan) && PlanEnd(r, plan) == r'
  }

  lemma {:induction false} PlanConcat(r: Rx, a: seq<seq<Bytes>>, r1: Rx, b: seq<seq<Bytes>>, r2: Rx)
    requires Leads(r, a, r1) && Leads(r1, b, r2)
    ensures Leads(r, a + b, r2)
    decreases |a|
  {
    if a == [] {
      assert a + b == b;
    } else {
      PlanConcat(StageEnd(r, a[0]), a[1..], r1, b, r2);
      assert (a + b)[1..] == a[1..] + b;
    }
  }

  lemma StageLeads(r: Rx, stage: seq<Bytes>, r1: Rx)
    requires GoodStage(r, stage) && StageEnd(r, stage) == r1
    ensures Leads(r, [stage], r1)
  {
    hide GoodStage;
    hide StageEnd;
    var plan := [stage];
    assert plan[1..] == [];
    assert GoodPlan(r1, plan[1..]) && PlanEnd(r1, plan[1..]) == r1;
  }

  /** A stage of a single chunk, such as a line. */
  lemma LineLeads(r: Rx, stage: seq<Bytes>, r1: Rx)
    requires |stage| == 1 && OnMsg(r, Data(stage[0])) == (r1, 1) && !r1.Failed?
    ensures Leads(r, [stage], r1)
  {
    hide OnMsg;
    assert GoodStage(r, stage) && StageEnd(r, stage) == r1;
    StageLeads(r, stage, r1);
  }

  // ----- the tree arrives -----

  /** What the receiver sees in a header line. */
  predicate Announces(line: Bytes, kind: byte, size: nat, name: Name) {
    line != [] && line[0] == kind && kind < 0x80 && kind != NL && ParseHeader(line) == Parsed(size, name)
  }

  lemma HeadersAnnounce(size: nat, name: Name)
    requires size <= U64_MAX && ValidName(name)
    ensures Announces(FileHeader(size, name), LETTER_C, size, name)
    ensures Announces(DirHeader(name), LETTER_D, 0, name)
  {
    HeaderRoundTrip(size, name);
  }

  lemma FileHeaderStep(line: Bytes, size: nat, name: Name, stack: seq<Path>, fs: Fs)
    requires Announces(line, LETTER_C, size, name) && ValidName(name) && stack != []
    requires DirsUpTo(fs, Top(stack)) && !(Top(stack) + [name] in fs && fs[Top(stack) + [name]].Dir?)
    ensures var dest := Top(stack) + [name];
            OnMsg(AtHeader(stack, fs), Data(line)) == (Awaiting(stack, fs[dest := File([])], dest, [], size), 1)
  {
    hide ParseHeader;
    JoinValidName(Top(stack), name);
    CreateFileIn(fs, Top(stack), name);
    var fs' := fs[Top(stack) + [name] := File([])];
    assert fs'[Top(stack) + [name] := File([])] == fs';
  }

  /** A non-empty chunk at the header fails or is acknowledged once; only a file's header leads elsewhere. */
  lemma HeaderAnswers(stack: seq<Path>, fs: Fs, buf: Bytes)
    requires buf != []
    ensures var (r, n) := OnHeader(stack, fs, buf);
            (r.Failed? || n == 1) && (buf[0] != LETTER_C ==> r.Failed? || r.AtHeader?)
  {
    hide ParseHeader;
    hide Join;
    hide CreateFile;
    hide CreateDirAll;
  }

  /** What follows a file's header counts as its content, or acknowledges a second time. */
  lemma FileLineCut(stack: seq<Path>, fs: Fs, cut: ParseResult, whole: ParseResult, b: Bytes)
    requires b != [] && whole.Parsed? && !OnFileHeader(stack, fs, whole).0.Failed?
    requires cut.Parsed? ==> cut.size == whole.size
    ensures var (r1, n1) := OnFileHeader(stack, fs, cut);
            var (r2, n2) := OnMsg(r1, Data(b));
            (r2, n1 + n2) != (OnFileHeader(stack, fs, whole).0, 1)
  {
    hide Join;
    hide CreateFile;
    hide OnHeader;
    var (r1, n1) := OnFileHeader(stack, fs, cut);
    if r1.InFile? {
      assert |r1.got + b[..Min(r1.remaining, |b|)]| > 0;
    }
  }

  /** A header line has to arrive whole: cut in two anywhere, it never has the effect it has in one piece. */
  lemma CutLineIsLost(a: Bytes, b: Bytes, stack: seq<Path>, fs: Fs, r: Rx)
    requires a != [] && b != [] && OnMsg(AtHeader(stack, fs), Data(a + b)) == (r, 1) && !r.Failed?
    ensures Feed(AtHeader(stack, fs), Datas([a, b])) != (r, 1)
  {
    var r0 := AtHeader(stack, fs);
    var (r1, n1) := OnHeader(stack, fs, a);
    TwoChunks(r0, a, b);
    hide Feed;
    hide ParseHeader;
    hide OnFileHeader;
    hide OnDirHeader;
    assert (a + b)[0] == a[0];
    HeaderAnswers(stack, fs, a);
    if a[0] == LETTER_C {
      if ParseHeader(a).Parsed? && ParseHeader(a + b).Parsed? {
        SizeIsSettled(a, b);
      }
      RejectedFails(stack, fs, ParseHeader(a + b));
      FileLineCut(stack, fs, ParseHeader(a), ParseHeader(a + b), b);
    } else if r1.AtHeader? {
      HeaderAnswers(r1.stack, r1.fs, b);
    }
  }

  lemma RejectedFails(stack: seq<Path>, fs: Fs, h: ParseResult)
    ensures h.Rejected? ==> OnFileHeader(stack, fs, h).0.Failed?
  {
  }

  lemma TwoChunks(r: Rx, a: Bytes, b: Bytes)
    ensures var (r1, n1) := OnMsg(r, Data(a));
            var (r2, n2) := OnMsg(r1, Data(b));
            Feed(r, Datas([a, b])) == (r2, n1 + n2)
  {
    hide OnMsg;
    assert [a, b][1..] == [b] && [b][1..] == [];
    FeedCons(r, [a, b]);
    FeedCons(OnMsg(r, Data(a)).0, [b]);
  }

  lemma CreateFileIn(fs: Fs, top: Path, name: Name)
    requires DirsUpTo(fs, top) && !(top + [name] in fs && fs[top + [name]].Dir?)
    ensures CreateFile(fs, top + [name]) == Some(fs[top + [name] := File([])])
  {
    var dest := top + [name];
    assert dest[..|dest| - 1] == top == top[..|top|];
  }

  lemma CreateDirIn(fs: Fs, top: Path, name: Name)
    requires NoFileOnTheWay(fs, top) && (top + [name] in fs ==> fs[top + [name]].Dir?)
    ensures CreateDirAll(fs, top + [name]) == Some(MakeDirs(fs, top)[top + [name] := Dir])
  {
    var dest := top + [name];
    forall k | 0 < k <= |dest| && dest[..k] in fs
      ensures fs[dest[..k]].Dir?
    {
      if k == |dest| {
        assert dest[..k] == dest;
      } else {
        assert dest[..k] == top[..k];
      }
    }
    assert dest[..|dest| - 1] == top;
    MakeDirsMakes(fs, top);
    var made := MakeDirs(fs, top);
    if dest in made {
      assert dest in fs;
      assert made[dest := Dir] == made;
    }
  }

  /**
   In an existing directory a file header is refused exactly if a directory has that name, a
   directory header exactly if a file has.
   */
  lemma HeaderRefusedExactly(line: Bytes, kind: byte, size: nat, name: Name, stack: seq<Path>, fs: Fs)
    requires Announces(line, kind, size, name) && ValidName(name) && DirsUpTo(fs, Top(stack))
    requires kind == LETTER_C || kind == LETTER_D
    ensures var dest := Top(stack) + [name];
            OnMsg(AtHeader(stack, fs), Data(line)).0.Failed? <==> dest in fs && fs[dest].Dir? == (kind == LETTER_C)
  {
    hide ParseHeader;
    var dest := Top(stack) + [name];
    JoinValidName(Top(stack), name);
    assert dest[..|dest|] == dest;
    if dest in fs && fs[dest].Dir? {
      CreateDirIn(fs, Top(stack), name);
    } else {
      CreateFileIn(fs, Top(stack), name);
      if dest !in fs {
        CreateDirIn(fs, Top(stack), name);
      }
    }
  }

  lemma DirHeaderStep(line: Bytes, name: Name, stack: seq<Path>, fs: Fs, fs': Fs)
    requires Announces(line, LETTER_D, 0, name) && Join(Top(stack), name) == Top(stack) + [name]
    requires CreateDirAll(fs, Top(stack) + [name]) == Some(fs')
    ensures OnMsg(AtHeader(stack, fs), Data(line)) == (AtHeader(stack + [Top(stack) + [name]], fs'), 1)
  {
  }

  lemma EndLineStep(line: Bytes, stack: seq<Path>, dest: Path, fs: Fs)
    requires line != [] && line[0] == LETTER_E && stack != []
    ensures OnMsg(AtHeader(stack + [dest], fs), Data(line)) == (AtHeader(stack, fs), 1)
  {
    assert (stack + [dest])[..|stack|] == stack;
  }

  /** How many times the sender waits while it uploads a tree. */
  function Stages(t: Tree): nat {
    match t
    case Leaf(_) => 2
    case Node(es) => 2 + StagesAll(es)
  }

  function StagesAll(f: Forest): nat {
    match f
    case Empty => 0
    case Cons(_, t, rest) => Stages(t) + StagesAll(rest)
  }

  /** The plan says of a tree what the protocol says of it, whatever bytes the lines are made of. */
  ghost predicate Tells(t: Tree, name: Name, plan: seq<seq<Bytes>>) {
    && |plan| == Stages(t)
    && |plan[0]| == 1
    && match t
       case Leaf(c) =>
         && Announces(plan[0][0], LETTER_C, |c|, name)
         && NoneEmpty(plan[1]) && Flatten(plan[1]) == c + [0]
       case Node(es) =>
         && Announces(plan[0][0], LETTER_D, 0, name)
         && TellsAll(es, plan[1..|plan| - 1])
         && |plan[|plan| - 1]| == 1 && plan[|plan| - 1][0] != [] && plan[|plan| - 1][0][0] == LETTER_E
  }

  ghost predicate TellsAll(f: Forest, plan: seq<seq<Bytes>>) {
    && |plan| == StagesAll(f)
    && match f
       case Empty => true
       case Cons(n, t, rest) => Tells(t, n, plan[..Stages(t)]) && TellsAll(rest, plan[Stages(t)..])
  }

  lemma WrittenOver(fs: Fs, p: Path, c: Bytes)
    ensures fs[p := File([])][p := File([] + c)] == fs + map[p := File(c)]
  {
    assert [] + c == c;
  }

  lemma FileArrives(c: Bytes, name: Name, stack: seq<Path>, fs: Fs, plan: seq<seq<Bytes>>)
    requires ValidName(name) && stack != []
    requires DirsUpTo(fs, Top(stack)) && Fits(fs, Layout(Leaf(c), Top(stack) + [name]))
    requires Tells(Leaf(c), name, plan)
    ensures Leads(AtHeader(stack, fs), plan, AtHeader(stack, fs + map[Top(stack) + [name] := File(c)]))
  {
    var dest := Top(stack) + [name];
    var base := fs[dest := File([])];
    FileHeaderStep(plan[0][0], |c|, name, stack, fs);
    PayloadIsStage(stack, base, dest, [], c, plan[1]);
    WrittenOver(fs, dest, c);
    TwoStages(AtHeader(stack, fs), Awaiting(stack, base, dest, [], |c|),
              AtHeader(stack, fs + map[dest := File(c)]), plan);
  }

  lemma TwoStages(r: Rx, r1: Rx, r2: Rx, plan: seq<seq<Bytes>>)
    requires |plan| == 2 && |plan[0]| == 1 && OnMsg(r, Data(plan[0][0])) == (r1, 1) && !r1.Failed?
    requires GoodStage(r1, plan[1]) && StageEnd(r1, plan[1]) == r2
    ensures Leads(r, plan, r2)
  {
    LineLeads(r, plan[0], r1);
    StageLeads(r1, plan[1], r2);
    PlanConcat(r, [plan[0]], r1, [plan[1]], r2);
    assert plan == [plan[0]] + [plan[1]];
  }

  /** A line, a plan of its own, and a closing line. */
  lemma Framed(r: Rx, r1: Rx, r2: Rx, r3: Rx, plan: seq<seq<Bytes>>)
    requires |plan| >= 2 && |plan[0]| == 1 && |plan[|plan| - 1]| == 1
    requires OnMsg(r, Data(plan[0][0])) == (r1, 1) && !r1.Failed?
    requires Leads(r1, plan[1..|plan| - 1], r2)
    requires OnMsg(r2, Data(plan[|plan| - 1][0])) == (r3, 1) && !r3.Failed?
    ensures Leads(r, plan, r3)
  {
    var last := |plan| - 1;
    LineLeads(r, plan[0], r1);
    LineLeads(r2, plan[last], r3);
    PlanConcat(r, [plan[0]], r1, plan[1..last], r2);
    PlanConcat(r, [plan[0]] + plan[1..last], r2, [plan[last]], r3);
    Reassemble(plan);
  }

  lemma Reassemble(plan: seq<seq<Bytes>>)
    requires |plan| >= 2
    ensures plan == [plan[0]] + plan[1..|plan| - 1] + [plan[|plan| - 1]]
  {
  }

  lemma InsideDir(fs: Fs, top: Path, name: Name)
    requires DirsUpTo(fs, top)
    ensures DirsUpTo(fs[top + [name] := Dir], top + [name])
  {
    var dest := top + [name];
    forall k | 0 < k <= |dest|
      ensures dest[..k] in fs[dest := Dir] && fs[dest := Dir][dest[..k]].Dir?
    {
      if k == |dest| {
        assert dest[..k] == dest;
      } else {
        assert dest[..k] == top[..k];
      }
    }
  }

  lemma DirThenEntries(fs: Fs, p: Path, below: Fs)
    ensures fs[p := Dir] + below == fs + (map[p := Dir] + below)
  {
  }

  lemma OneAfterAnother(fs: Fs, a: Fs, b: Fs)
    ensures (fs + a) + b == fs + (a + b)
  {
  }

  lemma {:induction false} DirArrives(es: Forest, name: Name, stack: seq<Path>, fs: Fs, plan: seq<seq<Bytes>>)
    requires ValidForest(es) && ValidName(name) && stack != []
    requires DirsUpTo(fs, Top(stack)) && Fits(fs, Layout(Node(es), Top(stack) + [name]))
    requires Tells(Node(es), name, plan)
    ensures Leads(AtHeader(stack, fs), plan, AtHeader(stack, fs + Layout(Node(es), Top(stack) + [name])))
    decreases es, 1
  {
    var dest, last := Top(stack) + [name], |plan| - 1;
    var fs1 := fs[dest := Dir];
    var fs2 := fs1 + LayoutAll(es, dest);
    assert Top(stack + [dest]) == dest;
    EntriesFit(es, dest, fs);
    EnterDir(plan[0][0], name, stack, fs);
    ForestArrives(es, stack + [dest], dest, fs1, plan[1..last]);
    EndLineStep(plan[last][0], stack, dest, fs2);
    Framed(AtHeader(stack, fs), AtHeader(stack + [dest], fs1),
           AtHeader(stack + [dest], fs2), AtHeader(stack, fs2), plan);
    DirThenEntries(fs, dest, LayoutAll(es, dest));
  }

  lemma EnterDir(line: Bytes, name: Name, stack: seq<Path>, fs: Fs)
    requires Announces(line, LETTER_D, 0, name) && ValidName(name)
    requires DirsUpTo(fs, Top(stack)) && (Top(stack) + [name] in fs ==> fs[Top(stack) + [name]].Dir?)
    ensures var dest := Top(stack) + [name];
            && OnMsg(AtHeader(stack, fs), Data(line)) == (AtHeader(stack + [dest], fs[dest := Dir]), 1)
            && DirsUpTo(fs[dest := Dir], dest)
  {
    var dest := Top(stack) + [name];
    JoinValidName(Top(stack), name);
    MakeExistingDirs(fs, Top(stack));
    CreateDirIn(fs, Top(stack), name);
    DirHeaderStep(line, name, stack, fs, fs[dest := Dir]);
    InsideDir(fs, Top(stack), name);
  }

  lemma {:induction false} ForestArrives(f: Forest, stack: seq<Path>, dest: Path, fs: Fs, plan: seq<seq<Bytes>>)
    requires ValidForest(f) && stack != [] && Top(stack) == dest && DirsUpTo(fs, dest)
    requires Fits(fs, LayoutAll(f, dest)) && TellsAll(f, plan)
    ensures Leads(AtHeader(stack, fs), plan, AtHeader(stack, fs + LayoutAll(f, dest)))
    decreases f, 0
  {
    match f {
      case Empty =>
        assert fs + map[] == fs;
      case Cons(n, t, rest) =>
        var cut := Stages(t);
        var fs1 := fs + Layout(t, dest + [n]);
        FirstAndRestFit(f, dest, fs);
        TreeArrives(t, n, stack, fs, plan[..cut]);
        ForestArrives(rest, stack, dest, fs1, plan[cut..]);
        PlanConcat(AtHeader(stack, fs), plan[..cut], AtHeader(stack, fs1),
                   plan[cut..], AtHeader(stack, fs1 + LayoutAll(rest, dest)));
        CutHere(plan, cut);
        OneAfterAnother(fs, Layout(t, dest + [n]), LayoutAll(rest, dest));
    }
  }

  lemma CutHere(plan: seq<seq<Bytes>>, cut: nat)
    requires cut <= |plan|
    ensures plan == plan[..cut] + plan[cut..]
  {
  }

  /**
   Whatever the receiver has on its stack, an upload of a valid tree takes it through all stages
   and back to the same stack, with exactly the layout of that tree laid over the top directory.
   */
  lemma {:induction false} TreeArrives(t: Tree, name: Name, stack: seq<Path>, fs: Fs, plan: seq<seq<Bytes>>)
    requires ValidTree(t) && ValidName(name) && stack != []
    requires DirsUpTo(fs, Top(stack)) && Fits(fs, Layout(t, Top(stack) + [name]))
    requires Tells(t, name, plan)
    ensures Leads(AtHeader(stack, fs), plan, AtHeader(stack, fs + Layout(t, Top(stack) + [name])))
    decreases t
  {
    match t {
      case Leaf(c) => FileArrives(c, name, stack, fs, plan);
      case Node(es) => DirArrives(es, name, stack, fs, plan);
    }
  }

  // ----- what the sender sends tells the tree -----

  lemma DeliveredParts(a: seq<Burst>, b: seq<Burst>, plan: seq<seq<Bytes>>)
    requires Delivered(a + b, plan)
    ensures Delivered(a, plan[..|a|]) && Delivered(b, plan[|a|..])
  {
  }

  lemma {:induction false} BurstsTell(t: Tree, name: Name, plan: seq<seq<Bytes>>)
    requires ValidTree(t) && ValidName(name) && Delivered(Bursts(t, name), plan)
    ensures Tells(t, name, plan)
    decreases t
  {
    hide Announces;
    hide FileHeader;
    hide DirHeader;
    match t {
      case Leaf(c) =>
        HeadersAnnounce(|c|, name);
        FlatPair(c);
        assert Arrives([FileHeader(|c|, name)], plan[0]) && Arrives([c, TERMINATOR], plan[1]);
        LeafTells(c, name, FileHeader(|c|, name), plan);
      case Node(es) =>
        HeadersAnnounce(0, name);
        FramedBursts([DirHeader(name)], BurstsAll(es), [END_LINE], plan);
        ForestBurstsTell(es, plan[1..|plan| - 1]);
        NodeTells(es, name, DirHeader(name), plan);
    }
  }

  lemma LeafTells(c: Bytes, name: Name, line: Bytes, plan: seq<seq<Bytes>>)
    requires Announces(line, LETTER_C, |c|, name) && |plan| == 2 && plan[0] == [line]
    requires NoneEmpty(plan[1]) && Flatten(plan[1]) == c + [0]
    ensures Tells(Leaf(c), name, plan)
  {
  }

  lemma NodeTells(es: Forest, name: Name, line: Bytes, plan: seq<seq<Bytes>>)
    requires Announces(line, LETTER_D, 0, name) && |plan| >= 2 && plan[0] == [line] && plan[|plan| - 1] == [END_LINE]
    requires TellsAll(es, plan[1..|plan| - 1])
    ensures Tells(Node(es), name, plan)
  {
  }

  lemma FramedBursts(head: Burst, mid: seq<Burst>, tail: Burst, plan: seq<seq<Bytes>>)
    requires Delivered([head] + mid + [tail], plan) && |head| == 1 && |tail| == 1
    ensures |plan| == |mid| + 2 && plan[0] == head && plan[|plan| - 1] == tail && Delivered(mid, plan[1..|plan| - 1])
  {
  }

  lemma FlatPair(c: Bytes)
    ensures Flatten([c, TERMINATOR]) == c + [0]
  {
    var rest := [TERMINATOR];
    assert [c, TERMINATOR][1..] == rest && rest[1..] == [];
    assert Flatten(rest) == TERMINATOR + Flatten(rest[1..]) == TERMINATOR;
  }

  lemma {:induction false} ForestBurstsTell(f: Forest, plan: seq<seq<Bytes>>)
    requires ValidForest(f) && Delivered(BurstsAll(f), plan)
    ensures TellsAll(f, plan)
    decreases f
  {
    match f {
      case Empty =>
      case Cons(n, t, rest) =>
        DeliveredParts(Bursts(t, n), BurstsAll(rest), plan);
        BurstsTell(t, n, plan[..|Bursts(t, n)|]);
        ForestBurstsTell(rest, plan[|Bursts(t, n)|..]);
    }
  }
}
