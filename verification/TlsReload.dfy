/**
 Reloading of the server's certificates: file event handlers overwrite the stored certificate, key
 and client CA and raise a flag, the accept loop lowers the flag and rebuilds its acceptor. Every
 atomic access and every lock acquisition is a step of its own.
 */
module TlsReload {
  datatype Cell = Cert | Key | Ca

  /** Contents of a file, by identity. */
  type Pem = nat

  /** What rustls accepts, and whether client certificates are checked. */
  datatype Rustls = Rustls(mtls: bool, caOk: Pem -> bool, pairOk: (Pem, Pem) -> bool)

  datatype Material = Material(cert: Pem, key: Pem, ca: Pem)

  /** What an acceptor was built from; without client authentication no CA takes part. */
  datatype Acceptor = Acceptor(cert: Pem, key: Pem, ca: Pem)

  predicate Builds(t: Rustls, m: Material) {
    (t.mtls ==> t.caOk(m.ca)) && t.pairOk(m.cert, m.key)
  }

  function AcceptorOf(t: Rustls, m: Material): Acceptor {
    Acceptor(m.cert, m.key, if t.mtls then m.ca else 0)
  }

  /** A running handler: the cells it still has to reload, in order; `stored` between store and flag. */
  datatype Handler = Handler(todo: seq<Cell>, stored: bool)

  /** Where the accept loop is inside `tls_acceptor`; it reads the CA, then locks the certificate, then the key. */
  datatype Phase = Idle | ReadingCa | ReadingCert(ca: Pem) | HoldingCert(ca: Pem, cert: Pem)

  datatype State = State(
    now: Material,
    flag: bool,
    handlers: seq<Handler>,
    phase: Phase,
    acceptor: Acceptor,
    built: seq<Acceptor>)  // every acceptor so far

  datatype Step =
    | Event(cells: seq<Cell>)       // a create or modify event that names these files
    | Store(h: nat, content: Pem)   // the file loads, its cell is overwritten under the lock
    | LoadFails(h: nat)             // the file does not load; it will be watched anew
    | Raise(h: nat)                 // the flag is set
    | Accept                        // a connection: the flag is swapped for false
    | ReadCa
    | ReadCert
    | ReadKey                       // and build

  predicate Busy(h: Handler) { h.stored || h.todo != [] }

  /** The cells an event can name, in the order the handler looks at them. */
  predicate Ordered(cells: seq<Cell>) {
    cells <= [Cert, Key, Ca] || cells <= [Key, Ca] || cells <= [Cert, Ca] || cells == [Ca]
  }

  predicate Enabled(t: Rustls, s: State, a: Step) {
    match a
    case Event(cells) => Ordered(cells) && (Ca in cells ==> t.mtls)
    case Store(h, _) =>
      && h < |s.handlers| && !s.handlers[h].stored && s.handlers[h].todo != []
      && (s.handlers[h].todo[0].Cert? ==> !s.phase.HoldingCert?)
    case LoadFails(h) => h < |s.handlers| && !s.handlers[h].stored && s.handlers[h].todo != []
    case Raise(h) => h < |s.handlers| && s.handlers[h].stored
    case Accept => s.phase.Idle?
    case ReadCa => s.phase.ReadingCa?
    case ReadCert => s.phase.ReadingCert?
    case ReadKey => s.phase.HoldingCert?
  }

  function Put(m: Material, c: Cell, content: Pem): Material {
    match c
    case Cert => m.(cert := content)
    case Key => m.(key := content)
    case Ca => m.(ca := content)
  }

  function Done(h: Handler): Handler {
    Handler(if h.todo == [] then [] else h.todo[1..], false)
  }

  function Apply(t: Rustls, s: State, a: Step): State
    requires Enabled(t, s, a)
  {
    match a
    case Event(cells) => s.(handlers := s.handlers + [Handler(cells, false)])
    case Store(h, content) =>
      s.(now := Put(s.now, s.handlers[h].todo[0], content), handlers := s.handlers[h := s.handlers[h].(stored := true)])
    case LoadFails(h) => s.(handlers := s.handlers[h := Done(s.handlers[h])])
    case Raise(h) => s.(flag := true, handlers := s.handlers[h := Done(s.handlers[h])])
    case Accept =>
      if !s.flag then s
      else s.(flag := false, phase := if t.mtls then ReadingCa else ReadingCert(0))
    case ReadCa => s.(phase := if t.caOk(s.now.ca) then ReadingCert(s.now.ca) else Idle)
    case ReadCert => s.(phase := HoldingCert(s.phase.ca, s.now.cert))
    case ReadKey =>
      if t.pairOk(s.phase.cert, s.now.key) then
        var a := Acceptor(s.phase.cert, s.now.key, s.phase.ca);
        s.(phase := Idle, acceptor := a, built := s.built + [a])
      else s.(phase := Idle)
  }

  function Start(t: Rustls, m: Material): State {
    State(m, false, [], Idle, AcceptorOf(t, m), [AcceptorOf(t, m)])
  }

  predicate Runs(t: Rustls, s: State, steps: seq<Step>)
    decreases |steps|
  {
    steps == [] || (Enabled(t, s, steps[0]) && Runs(t, Apply(t, s, steps[0]), steps[1..]))
  }

  function Exec(t: Rustls, s: State, steps: seq<Step>): State
    requires Runs(t, s, steps)
    decreases |steps|
  {
    if steps == [] then s else Exec(t, Apply(t, s, steps[0]), steps[1..])
  }

  // ----- what every step keeps -----

  /** A reload is still to come: the flag is up, or a handler has stored and is about to raise it. */
  predicate Due(s: State) {
    s.flag || exists i :: 0 <= i < |s.handlers| && s.handlers[i].stored
  }

  /** The acceptor is the one the stored material makes, if it makes one. */
  predicate UpToDate(t: Rustls, s: State) {
    Builds(t, s.now) ==> s.acceptor == AcceptorOf(t, s.now)
  }

  /** A CA that was read is good and, unless a reload is due, still the stored one. */
  predicate CaFresh(t: Rustls, s: State, ca: Pem) {
    if t.mtls then t.caOk(ca) && (Due(s) || ca == s.now.ca) else ca == 0
  }

  /** An acceptor rustls agreed to build. */
  predicate Works(t: Rustls, a: Acceptor) {
    (if t.mtls then t.caOk(a.ca) else a.ca == 0) && t.pairOk(a.cert, a.key)
  }

  predicate Inv(t: Rustls, s: State) {
    && s.built != [] && s.acceptor == s.built[|s.built| - 1] && Works(t, s.acceptor)
    && match s.phase
       case Idle => Due(s) || UpToDate(t, s)
       case ReadingCa => t.mtls
       case ReadingCert(ca) => CaFresh(t, s, ca)
       case HoldingCert(ca, cert) => CaFresh(t, s, ca) && cert == s.now.cert
  }

  lemma StoreKeepsInv(t: Rustls, s: State, h: nat, content: Pem)
    requires Inv(t, s) && Enabled(t, s, Store(h, content))
    ensures Inv(t, Apply(t, s, Store(h, content))) && Due(Apply(t, s, Store(h, content)))
  {
    assert Apply(t, s, Store(h, content)).handlers[h].stored;
  }

  lemma HandlerKeepsInv(t: Rustls, s: State, a: Step)
    requires Inv(t, s) && Enabled(t, s, a) && (a.Event? || a.LoadFails? || a.Raise?)
    ensures Inv(t, Apply(t, s, a)) && (Due(s) ==> Due(Apply(t, s, a)))
  {
    var s' := Apply(t, s, a);
    if Due(s) && !s.flag {
      var i :| 0 <= i < |s.handlers| && s.handlers[i].stored;
      assert s'.flag || s'.handlers[i].stored;
    }
  }

  lemma AcceptorKeepsInv(t: Rustls, s: State, a: Step)
    requires Inv(t, s) && Enabled(t, s, a) && (a.Accept? || a.ReadCa? || a.ReadCert? || a.ReadKey?)
    ensures Inv(t, Apply(t, s, a))
  {
  }

  lemma StepKeepsInv(t: Rustls, s: State, a: Step)
    requires Inv(t, s) && Enabled(t, s, a)
    ensures Inv(t, Apply(t, s, a))
  {
    match a {
      case Store(h, content) => StoreKeepsInv(t, s, h, content);
      case Event(_) => HandlerKeepsInv(t, s, a);
      case LoadFails(_) => HandlerKeepsInv(t, s, a);
      case Raise(_) => HandlerKeepsInv(t, s, a);
      case _ => AcceptorKeepsInv(t, s, a);
    }
  }

  lemma {:induction false} RunKeepsInv(t: Rustls, s: State, steps: seq<Step>)
    requires Inv(t, s) && Runs(t, s, steps)
    ensures Inv(t, Exec(t, s, steps))
    decreases |steps|
  {
    if steps != [] {
      StepKeepsInv(t, s, steps[0]);
      RunKeepsInv(t, Apply(t, s, steps[0]), steps[1..]);
    }
  }

  ghost predicate Reached(t: Rustls, s: State) {
    exists m, steps :: Builds(t, m) && Runs(t, Start(t, m), steps) && Exec(t, Start(t, m), steps) == s
  }

  lemma ReachedInv(t: Rustls, s: State)
    requires Reached(t, s)
    ensures Inv(t, s)
  {
    var m, steps :| Builds(t, m) && Runs(t, Start(t, m), steps) && Exec(t, Start(t, m), steps) == s;
    RunKeepsInv(t, Start(t, m), steps);
  }

  // ----- the promises -----

  /**
   No reload is lost: in every reached state in which the flag is down, no handler is between its
   store and its flag and no rebuild is under way, the acceptor was built from exactly the stored
   certificate, key and CA; or those do not build, and the last acceptor that was built is kept.
   */
  lemma NoReloadIsLost(t: Rustls, s: State)
    requires Reached(t, s) && !Due(s) && s.phase.Idle?
    ensures if Builds(t, s.now) then s.acceptor == AcceptorOf(t, s.now)
            else s.built != [] && s.acceptor == s.built[|s.built| - 1] && Works(t, s.acceptor)
  {
    ReachedInv(t, s);
  }

  /**
   A torn read is repaired: an acceptor built from values that are no longer all stored leaves the
   flag up or a handler about to raise it, and the certificate and key of an acceptor were always
   stored together.
   */
  lemma TornReadIsRepaired(t: Rustls, s: State)
    requires Reached(t, s) && s.phase.HoldingCert?
    ensures var s' := Apply(t, s, ReadKey);
            && (s'.acceptor != AcceptorOf(t, s'.now) && Builds(t, s'.now) ==> Due(s'))
            && (|s'.built| > |s.built| ==> s'.acceptor.cert == s'.now.cert && s'.acceptor.key == s'.now.key)
  {
    ReachedInv(t, s);
    AcceptorKeepsInv(t, s, ReadKey);
  }

  /** Only a step that changes a cell can make a settled acceptor stale, and it makes a reload due. */
  lemma OnlyStoresMakeStale(t: Rustls, s: State, a: Step)
    requires Reached(t, s) && s.phase.Idle? && UpToDate(t, s) && Enabled(t, s, a)
    ensures var s' := Apply(t, s, a); UpToDate(t, s') || (a.Store? && Due(s'))
  {
    ReachedInv(t, s);
    if a.Store? {
      StoreKeepsInv(t, s, a.h, a.content);
    }
  }

  /** The steps of one accept from here to its end. */
  function AcceptSteps(t: Rustls, s: State): (steps: seq<Step>) {
    match s.phase
    case Idle => if !s.flag then [Accept] else [Accept] + (if !t.mtls then [ReadCert, ReadKey] else FromCa(t, s))
    case ReadingCa => FromCa(t, s)
    case ReadingCert(_) => [ReadCert, ReadKey]
    case HoldingCert(_, _) => [ReadKey]
  }

  function FromCa(t: Rustls, s: State): seq<Step> {
    if t.caOk(s.now.ca) then [ReadCa, ReadCert, ReadKey] else [ReadCa]
  }

  predicate Quiet(s: State) { forall i :: 0 <= i < |s.handlers| ==> !Busy(s.handlers[i]) }

  lemma RebuildRuns(t: Rustls, s: State)
    requires !s.phase.Idle?
    ensures Runs(t, s, AcceptSteps(t, s))
    ensures var s' := Exec(t, s, AcceptSteps(t, s));
            s'.phase.Idle? && s'.handlers == s.handlers && s'.now == s.now && s'.flag == s.flag
    decreases |AcceptSteps(t, s)|
  {
    var steps := AcceptSteps(t, s);
    var s1 := Apply(t, s, steps[0]);
    if |steps| > 1 {
      assert steps[1..] == AcceptSteps(t, s1);
      RebuildRuns(t, s1);
    }
  }

  lemma AcceptRuns(t: Rustls, s: State)
    requires s.phase.Idle?
    ensures Runs(t, s, AcceptSteps(t, s))
    ensures var s' := Exec(t, s, AcceptSteps(t, s));
            s'.phase.Idle? && s'.handlers == s.handlers && s'.now == s.now && !s'.flag
  {
    if s.flag {
      var s1 := Apply(t, s, Accept);
      assert AcceptSteps(t, s)[1..] == AcceptSteps(t, s1);
      RebuildRuns(t, s1);
    }
  }

  /** Once no handler is at work, the next whole accept serves an acceptor that is up to date. */
  lemma NextAcceptIsUpToDate(t: Rustls, s: State)
    requires Reached(t, s) && s.phase.Idle? && Quiet(s)
    ensures Runs(t, s, AcceptSteps(t, s))
    ensures var s' := Exec(t, s, AcceptSteps(t, s)); s'.phase.Idle? && !Due(s') && s'.now == s.now && UpToDate(t, s')
  {
    ReachedInv(t, s);
    AcceptRuns(t, s);
    RunKeepsInv(t, s, AcceptSteps(t, s));
  }

  lemma {:induction false} OneStepMore(t: Rustls, s: State, steps: seq<Step>, a: Step)
    requires Runs(t, s, steps) && Enabled(t, Exec(t, s, steps), a)
    ensures Runs(t, s, steps + [a]) && Exec(t, s, steps + [a]) == Apply(t, Exec(t, s, steps), a)
    decreases |steps|
  {
    if steps == [] {
      assert steps + [a] == [a] && [a][1..] == [];
    } else {
      OneStepMore(t, Apply(t, s, steps[0]), steps[1..], a);
      assert (steps + [a])[1..] == steps[1..] + [a];
    }
  }

  lemma ReachedNext(t: Rustls, s: State, a: Step)
    requires Reached(t, s) && Enabled(t, s, a)
    ensures Reached(t, Apply(t, s, a))
  {
    var m, steps :| Builds(t, m) && Runs(t, Start(t, m), steps) && Exec(t, Start(t, m), steps) == s;
    OneStepMore(t, Start(t, m), steps, a);
    assert Exec(t, Start(t, m), steps + [a]) == Apply(t, s, a);
  }

  // ----- every schedule settles -----

  /** The steps of running handlers and of the accept loop; an accept counts only if it finds the flag up. */
  predicate Own(s: State, a: Step) { !a.Event? && (a.Accept? ==> s.flag) }

  /** Each cell has to be stored and flagged, and the flag makes for one rebuild. */
  function HandlerWork(h: Handler): nat {
    if !h.stored then 7 * |h.todo| else if h.todo == [] then 6 else 7 * |h.todo| - 1
  }

  function HandlersWork(hs: seq<Handler>): nat {
    if hs == [] then 0 else HandlersWork(hs[..|hs| - 1]) + HandlerWork(hs[|hs| - 1])
  }

  function Work(s: State): nat {
    HandlersWork(s.handlers) + (if s.flag then 5 else 0) +
    match s.phase
    case Idle => 0
    case ReadingCa => 3
    case ReadingCert(_) => 2
    case HoldingCert(_, _) => 1
  }

  lemma {:induction false} WorkOfUpdate(hs: seq<Handler>, i: nat, h: Handler)
    requires i < |hs|
    ensures HandlersWork(hs[i := h]) == HandlersWork(hs) - HandlerWork(hs[i]) + HandlerWork(h)
    ensures HandlersWork(hs) >= HandlerWork(hs[i])
  {
    var init := hs[..|hs| - 1];
    if i == |hs| - 1 {
      assert hs[i := h][..|hs| - 1] == init;
    } else {
      assert hs[i := h][..|hs| - 1] == init[i := h];
      WorkOfUpdate(init, i, h);
    }
  }

  lemma OwnStepCosts(t: Rustls, s: State, a: Step)
    requires Enabled(t, s, a) && Own(s, a)
    ensures Work(Apply(t, s, a)) < Work(s)
  {
    hide HandlersWork;
    if a.Store? || a.LoadFails? || a.Raise? {
      WorkOfUpdate(s.handlers, a.h, Apply(t, s, a).handlers[a.h]);
    }
  }

  /** A run of own steps. */
  predicate OwnRun(t: Rustls, s: State, steps: seq<Step>)
    decreases |steps|
  {
    steps == [] || (Enabled(t, s, steps[0]) && Own(s, steps[0]) && OwnRun(t, Apply(t, s, steps[0]), steps[1..]))
  }

  lemma {:induction false} OwnRunsAreBounded(t: Rustls, s: State, steps: seq<Step>)
    requires Inv(t, s) && OwnRun(t, s, steps)
    ensures Runs(t, s, steps) && |steps| <= Work(s) && Inv(t, Exec(t, s, steps))
    decreases |steps|
  {
    hide Inv;
    hide Apply;
    hide Work;
    if steps != [] {
      OwnStepCosts(t, s, steps[0]);
      StepKeepsInv(t, s, steps[0]);
      OwnRunsAreBounded(t, Apply(t, s, steps[0]), steps[1..]);
    }
  }

  ghost predicate AtRest(t: Rustls, s: State) { forall a :: Enabled(t, s, a) ==> !Own(s, a) }

  lemma RestIsQuiet(t: Rustls, s: State)
    requires AtRest(t, s)
    ensures s.phase.Idle? && !s.flag && Quiet(s)
  {
    assert !Enabled(t, s, ReadCa) && !Enabled(t, s, ReadCert) && !Enabled(t, s, ReadKey);
    assert Enabled(t, s, Accept) ==> !Own(s, Accept);
    forall i | 0 <= i < |s.handlers|
      ensures !Busy(s.handlers[i])
    {
      assert !Enabled(t, s, LoadFails(i)) && !Enabled(t, s, Raise(i));
    }
  }

  /**
   Every schedule settles: from every reached state, however the running handlers and the accept loop
   are interleaved and whichever files load, only so many of their steps can be taken, and after a run
   that cannot be continued exactly the stored certificate and key are served, with the stored CA where
   clients are checked; or these do not build, and the last acceptor that was built is.
   */
  lemma EveryScheduleSettles(t: Rustls, s: State, steps: seq<Step>)
    requires Reached(t, s) && OwnRun(t, s, steps)
    ensures Runs(t, s, steps) && |steps| <= Work(s)
    ensures var r := Exec(t, s, steps);
            AtRest(t, r) ==>
              if t.pairOk(r.now.cert, r.now.key) && (t.mtls ==> t.caOk(r.now.ca)) then
                && r.acceptor.cert == r.now.cert && r.acceptor.key == r.now.key
                && (t.mtls ==> r.acceptor.ca == r.now.ca)
              else r.built != [] && r.acceptor == r.built[|r.built| - 1]
  {
    hide Reached;
    ReachedInv(t, s);
    OwnRunsAreBounded(t, s, steps);
    if AtRest(t, Exec(t, s, steps)) {
      RestIsQuiet(t, Exec(t, s, steps));
    }
  }

  /** A whole accept in one piece. */
  function AfterAccept(t: Rustls, s: State): State {
    if !s.flag then s
    else if !Builds(t, s.now) then s.(flag := false)
    else s.(flag := false, acceptor := AcceptorOf(t, s.now), built := s.built + [AcceptorOf(t, s.now)])
  }

  lemma AcceptIsReached(t: Rustls, s: State)
    requires Reached(t, s) && s.phase.Idle?
    ensures Reached(t, AfterAccept(t, s))
  {
    hide Reached;
    if s.flag {
      var s1 := Apply(t, s, Accept);
      ReachedNext(t, s, Accept);
      if t.mtls {
        ReachedNext(t, s1, ReadCa);
        s1 := Apply(t, s1, ReadCa);
      }
      if s1.phase.ReadingCert? {
        var s2 := Apply(t, s1, ReadCert);
        ReachedNext(t, s1, ReadCert);
        ReachedNext(t, s2, ReadKey);
      }
    }
  }

  // ----- the program -----

  datatype EventKind = Access | Create | Modify | Remove | OtherKind | AnyKind

  /** What an event says of one watched file: not named, named and not loadable, named and loaded. */
  datatype Named = NotNamed | Unloadable | Loads(content: Pem)

  /** The server's stored material with the reloader and the accept loop's acceptor. */
  class TlsServer {
    const rustls: Rustls
    var cert: Pem
    var key: Pem
    var ca: Pem
    var reload: bool
    var acceptor: Acceptor
    ghost var handlers: seq<Handler>
    ghost var built: seq<Acceptor>

    ghost function Abs(): State
      reads this
    {
      State(Material(cert, key, ca), reload, handlers, Idle, acceptor, built)
    }

    ghost predicate Valid()
      reads this
    {
      Reached(rustls, Abs()) && Quiet(Abs())
    }

    constructor (t: Rustls, m: Material)
      requires Builds(t, m)
      ensures Valid() && rustls == t && Abs() == Start(t, m)
    {
      rustls := t;
      cert, key, ca := m.cert, m.key, m.ca;
      reload := false;
      acceptor := AcceptorOf(t, m);
      handlers := [];
      built := [AcceptorOf(t, m)];
      new;
      assert Runs(t, Start(t, m), []) && Exec(t, Start(t, m), []) == Abs();
    }

    /** A handler runs alone and has these cells left. */
    ghost predicate Running(todo: seq<Cell>)
      reads this
    {
      && Reached(rustls, Abs())
      && handlers != [] && handlers[|handlers| - 1] == Handler(todo, false)
      && forall i :: 0 <= i < |handlers| - 1 ==> !Busy(handlers[i])
    }

    /** The handler's look at one cell: not named, stored and flagged, or to be watched anew. */
    method Reload(c: Cell, file: Named, ghost rest: seq<Cell>) returns (rewatch: seq<Cell>)
      requires Running(Listed(c, file) + rest)
      modifies `cert, `key, `ca, `reload, `handlers
      ensures Running(rest)
      ensures Abs().now == (if file.Loads? then Put(old(Abs()).now, c, file.content) else old(Abs()).now)
      ensures reload == (old(reload) || file.Loads?)
      ensures rewatch == if file.Unloadable? then [c] else []
    {
      hide Reached;
      if file.NotNamed? {
        assert Listed(c, file) + rest == rest;
        return [];
      }
      ghost var h := |handlers| - 1;
      assert ([c] + rest)[1..] == rest;
      if file.Unloadable? {
        ReachedNext(rustls, Abs(), LoadFails(h));
        handlers := handlers[h := Done(handlers[h])];
        return [c];
      }
      ReachedNext(rustls, Abs(), Store(h, file.content));
      handlers := handlers[h := handlers[h].(stored := true)];
      match c {
        case Cert => cert := file.content;
        case Key => key := file.content;
        case Ca => ca := file.content;
      }
      ReachedNext(rustls, Abs(), Raise(h));
      handlers := handlers[h := Done(handlers[h])];
      reload := true;
      return [];
    }

    /** `handle_server_fs_event`, running alone; `rewatch` are the files to watch anew. */
    method HandleServerFsEvent(kind: EventKind, certFile: Named, keyFile: Named, caFile: Named)
            returns (rewatch: seq<Cell>)
      requires Valid() && (!rustls.mtls ==> caFile == NotNamed)
      modifies this
      ensures Valid() && acceptor == old(acceptor)
      ensures rewatch == Rewatched(kind, Cert, certFile) + Rewatched(kind, Key, keyFile) + Rewatched(kind, Ca, caFile)
      ensures cert == Kept(kind, certFile, old(cert)) && key == Kept(kind, keyFile, old(key))
      ensures ca == Kept(kind, caFile, old(ca))
      ensures reload == (old(reload) ||
                (kind in {Create, Modify} && (certFile.Loads? || keyFile.Loads? || caFile.Loads?)))
    {
      hide Reached;
      hide Running;
      hide Quiet;
      rewatch := [];
      if kind.Remove? {
        rewatch := Listed(Cert, certFile) + Listed(Key, keyFile) + Listed(Ca, caFile);
      }
      if !Changes(kind) {
        return;
      }
      ghost var third := Listed(Ca, caFile);
      ghost var second := Listed(Key, keyFile) + third;
      Begin(Listed(Cert, certFile) + second);
      var certs := Reload(Cert, certFile, second);
      var keys := Reload(Key, keyFile, third);
      assert third == third + [];
      var cas := Reload(Ca, caFile, []);
      rewatch := certs + keys + cas;
      Ended();
    }

    lemma Ended()
      requires Running([])
      ensures Valid()
    {
      hide Reached;
    }

    ghost method Begin(cells: seq<Cell>)
      requires Valid() && Ordered(cells) && (Ca in cells ==> rustls.mtls)
      modifies `handlers
      ensures Running(cells)
    {
      hide Reached;
      ReachedNext(rustls, Abs(), Event(cells));
      handlers := handlers + [Handler(cells, false)];
    }

    /**
     End to end: an event and then a connection; only a create or a modify brings anything new. If
     the certificate and the key in force go together, and the CA is good where clients are checked,
     exactly they are served, newly loaded or not; otherwise what was served before is served on.
     */
    method EventThenAccept(kind: EventKind, certFile: Named, keyFile: Named, caFile: Named) returns (served: Acceptor)
      requires Valid() && (!rustls.mtls ==> caFile == NotNamed)
      modifies this
      ensures Valid() && !reload
      ensures var news := kind == Create || kind == Modify;
              var c := if news && certFile.Loads? then certFile.content else old(cert);
              var k := if news && keyFile.Loads? then keyFile.content else old(key);
              var root := if news && caFile.Loads? then caFile.content else old(ca);
              if rustls.pairOk(c, k) && (rustls.mtls ==> rustls.caOk(root)) then
                served.cert == c && served.key == k && (rustls.mtls ==> served.ca == root)
              else served == old(acceptor)
    {
      hide Reached;
      var _ := HandleServerFsEvent(kind, certFile, keyFile, caFile);
      served := TlsAcceptor();
    }

    /** `TlsContext::tls_acceptor`: what it serves is up to date whenever the stored material builds. */
    method TlsAcceptor() returns (served: Acceptor)
      requires Valid()
      modifies `reload, `acceptor, `built
      ensures Valid() && served == acceptor && !reload
      ensures Abs().now == old(Abs()).now
      ensures if Builds(rustls, Abs().now) then served == AcceptorOf(rustls, Abs().now) else served == old(acceptor)
    {
      hide Reached;
      ReachedInv(rustls, Abs());
      AcceptIsReached(rustls, Abs());
      if !reload {
        return acceptor;
      }
      reload := false;
      var root := 0;
      if rustls.mtls {
        if !rustls.caOk(ca) {
          return acceptor;
        }
        root := ca;
      }
      if rustls.pairOk(cert, key) {
        acceptor := Acceptor(cert, key, root);
        built := built + [acceptor];
      }
      return acceptor;
    }
  }

  predicate Changes(kind: EventKind) { kind.Create? || kind.Modify? }

  function Listed(c: Cell, file: Named): seq<Cell> {
    if file.NotNamed? then [] else [c]
  }

  function Rewatched(kind: EventKind, c: Cell, file: Named): seq<Cell> {
    if (kind.Remove? && !file.NotNamed?) || (Changes(kind) && file.Unloadable?) then [c] else []
  }

  function Kept(kind: EventKind, file: Named, was: Pem): Pem {
    if Changes(kind) && file.Loads? then file.content else was
  }

  /**
   What each kind of event does to one file's cell: a create or a modify stores the content if the
   file loads and has it watched anew if it does not, a remove only has it watched anew, any other
   does nothing; and none does anything to a file that it does not name.
   */
  lemma EventsByKind(kind: EventKind, c: Cell, file: Named, was: Pem)
    ensures kind == Create || kind == Modify ==>
              && Kept(kind, file, was) == (if file.Loads? then file.content else was)
              && Rewatched(kind, c, file) == (if file == Unloadable then [c] else [])
    ensures kind == Remove ==>
              && Kept(kind, file, was) == was
              && Rewatched(kind, c, file) == (if file == NotNamed then [] else [c])
    ensures kind == Access || kind == OtherKind || kind == AnyKind ==>
              Kept(kind, file, was) == was && Rewatched(kind, c, file) == []
  {
  }
}
