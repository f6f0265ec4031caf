/**
 Every schedule of a reverse listener serves its requests: however the steps of listener and requests
 that need neither a new connection nor a new request nor a tick are interleaved, only so many of them
 can be taken, and when none is left nobody waits for a connection that is there.
 */
module ReverseDrain {
  import opened ReverseTunnel

  predicate Own(a: Step) {
    a.Clone? || a.Insert? || a.Receive? || a.Refused? || a.Enqueue? || a.Remove? || a.Close?
  }

  function RequestWork(q: Request): nat {
    match q
    case Counted => 2
    case Waiting => 1
    case _ => 0
  }

  function RequestsWork(qs: seq<Request>): nat {
    if qs == [] then 0 else RequestsWork(qs[..|qs| - 1]) + RequestWork(qs[|qs| - 1])
  }

  function ListenerWork(p: Phase): nat {
    match p
    case Sending(_) => 1
    case Closing => 2
    case Removed => 1
    case _ => 0
  }

  function Work(s: State): nat {
    RequestsWork(s.requests) + ListenerWork(s.phase) + if s.creator.HasCounted? || s.creator.HasCloned? then 1 else 0
  }

  lemma {:induction false} WorkOfUpdate(qs: seq<Request>, r: nat, q: Request)
    requires r < |qs|
    ensures RequestsWork(qs[r := q]) == RequestsWork(qs) - RequestWork(qs[r]) + RequestWork(q)
    ensures RequestsWork(qs) >= RequestWork(qs[r])
  {
    var init := qs[..|qs| - 1];
    if r == |qs| - 1 {
      assert qs[r := q][..|qs| - 1] == init;
    } else {
      assert qs[r := q][..|qs| - 1] == init[r := q];
      WorkOfUpdate(init, r, q);
    }
  }

  lemma OwnStepCosts(s: State, a: Step)
    requires Registry(s) && Enabled(s, a) && Own(a)
    ensures Work(Apply(s, a)) < Work(s)
    ensures Apply(s, a).accepted == s.accepted && |Apply(s, a).requests| == |s.requests|
  {
    hide RequestsWork;
    hide Joining;
    if a.Clone? || a.Receive? || a.Refused? {
      WorkOfUpdate(s.requests, a.r, Apply(s, a).requests[a.r]);
    }
  }

  lemma {:induction false} OwnRunsAreBounded(s: State, steps: seq<Step>)
    requires Inv(s) && Runs(s, steps) && forall a :: a in steps ==> Own(a)
    ensures |steps| <= Work(s)
    ensures var t := Exec(s, steps); Inv(t) && t.accepted == s.accepted && |t.requests| == |s.requests|
    decreases |steps|
  {
    hide Apply;
    hide Work;
    if steps != [] {
      OwnStepCosts(s, steps[0]);
      StepKeepsInv(s, steps[0]);
      OwnRunsAreBounded(Apply(s, steps[0]), steps[1..]);
    }
  }

  ghost predicate AtRest(s: State) { forall a :: Own(a) ==> !Enabled(s, a) }

  lemma RestingListener(s: State)
    requires Inv(s) && AtRest(s)
    ensures s.creator.Spawned? || s.creator.Inserted?
    ensures s.phase.Sending? ==> |s.queue| == 10
    ensures !s.phase.Closing? && !s.phase.Removed?
  {
    NobodyJoins(s);
    assert !Enabled(s, Enqueue) && !Enabled(s, Insert) && !Enabled(s, Remove) && !Enabled(s, Close);
  }

  lemma NobodyJoins(s: State)
    requires AtRest(s)
    ensures forall r :: 0 <= r < |s.requests| ==> !s.requests[r].Counted?
    ensures !Joining(s)
  {
    forall r | 0 <= r < |s.requests|
      ensures !s.requests[r].Counted?
    {
      assert !Enabled(s, Clone(r));
    }
  }

  lemma RestingRequest(s: State, r: nat)
    requires Inv(s) && AtRest(s) && r < |s.requests|
    ensures !s.requests[r].Counted?
    ensures s.requests[r].Waiting? ==> s.queue == [] && (s.phase.Selecting? || s.phase.Swapped?)
  {
    assert !Enabled(s, Clone(r)) && !Enabled(s, Receive(r)) && !Enabled(s, Refused(r));
    RestingListener(s);
  }

  /**
   Every request is served in every schedule: from every reached state, every run of such steps is
   bounded in length, and after one that cannot be continued nobody waits while a connection is
   queued, nobody waits at a listener that is gone, and none is on its way out; every accepted
   connection was delivered, is queued, or waits behind ten others, or was given up.
   */
  lemma EveryRequestIsServed(s: State, steps: seq<Step>)
    requires Reached(s) && Runs(s, steps) && forall a :: a in steps ==> Own(a)
    ensures |steps| <= Work(s)
    ensures var t := Exec(s, steps);
            AtRest(t) ==>
              && !t.phase.Closing? && !t.phase.Removed? && (t.phase.Sending? ==> |t.queue| == 10)
              && (forall r :: 0 <= r < |t.requests| ==>
                    && !t.requests[r].Counted?
                    && (t.requests[r].Waiting? ==> t.queue == [] && (t.phase.Selecting? || t.phase.Swapped?)))
              && t.delivered + t.queue + InHand(t.phase) + Lost(t.dropped) == Line(s.accepted)
  {
    hide Reached;
    ReachedInv(s);
    OwnRunsAreBounded(s, steps);
    var t := Exec(s, steps);
    if AtRest(t) {
      RestingListener(t);
      forall r | 0 <= r < |t.requests|
        ensures !t.requests[r].Counted?
        ensures t.requests[r].Waiting? ==> t.queue == [] && (t.phase.Selecting? || t.phase.Swapped?)
      {
        RestingRequest(t, r);
      }
    }
  }
}
