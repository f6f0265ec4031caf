/**
 All connections of a server with their shared quotas, over time: wraps, polls of half connections
 in any order, and the clock.
 */
module RateLimiterPool {
  import opened Common
  import opened RateLimiter

  /** The reading half carries the download, the writing half the upload. */
  datatype Dir = Read | Write

  /** A bucket belongs to a tunnel id and a direction. */
  datatype Key = Key(id: nat, dir: Dir)

  datatype Half = Half(key: Key, sleep: Option<nat>)

  datatype State = State(
    now: nat,
    pool: map<Key, Option<Bucket>>,
    halves: seq<Half>,
    charged: map<Key, nat>,   // bytes paid for, since the start
    moved: map<Key, nat>)     // bytes moved, since the start

  datatype Step =
    | Tick(dt: nat)
    | Wrap(id: nat, upload: Option<U16>, download: Option<U16>)
    | PollOne(h: nat, room: nat, roll: nat, inner: Option<nat>)

  function BuildLimiter(m: Option<U16>, now: nat): Option<Bucket> {
    if m.None? then None else Some(Full(BuildQuota(m.value), now))
  }

  /** The entry of a tunnel id is made by the first wrap and only read by later ones. */
  function Entered(pool: map<Key, Option<Bucket>>, now: nat, id: nat, upload: Option<U16>,
          download: Option<U16>): map<Key, Option<Bucket>> {
    if Key(id, Read) in pool then pool
    else pool[Key(id, Read) := BuildLimiter(download, now)][Key(id, Write) := BuildLimiter(upload, now)]
  }

  function At(m: map<Key, nat>, k: Key): nat { if k in m then m[k] else 0 }

  function Add(m: map<Key, nat>, k: Key, n: nat): map<Key, nat> { m[k := At(m, k) + n] }

  ghost predicate PoolOk(pool: map<Key, Option<Bucket>>, now: nat) {
    && (forall k :: k in pool && pool[k].Some? ==> BucketOk(pool[k].value, now))
    && (forall id :: Key(id, Read) in pool <==> Key(id, Write) in pool)
  }

  ghost predicate Inv(s: State) {
    && PoolOk(s.pool, s.now)
    && forall h :: 0 <= h < |s.halves| ==> s.halves[h].key in s.pool
  }

  predicate Enabled(s: State, a: Step) { a.PollOne? ==> a.h < |s.halves| }

  function Apply(s: State, a: Step): State
    requires Inv(s) && Enabled(s, a)
  {
    match a
    case Tick(dt) => s.(now := s.now + dt)
    case Wrap(id, upload, download) =>
      s.(pool := Entered(s.pool, s.now, id, upload, download),
         halves := s.halves + [Half(Key(id, Read), None), Half(Key(id, Write), None)])
    case PollOne(h, room, roll, inner) =>
      var k := s.halves[h].key;
      var p := PollHalf(s.halves[h].sleep, s.pool[k], s.now, room, roll, inner);
      s.(pool := s.pool[k := p.bucket], halves := s.halves[h := Half(k, p.sleep)],
         charged := Add(s.charged, k, p.charged), moved := Add(s.moved, k, MovedBy(p.poll)))
  }

  lemma StepKeepsInv(s: State, a: Step)
    requires Inv(s) && Enabled(s, a)
    ensures Inv(Apply(s, a))
  {
  }

  predicate Runs(s: State, steps: seq<Step>)
    requires Inv(s)
    decreases |steps|
  {
    steps == [] ||
    (Enabled(s, steps[0]) && (StepKeepsInv(s, steps[0]); Runs(Apply(s, steps[0]), steps[1..])))
  }

  function Exec(s: State, steps: seq<Step>): (s': State)
    requires Inv(s) && Runs(s, steps)
    ensures Inv(s')
    decreases |steps|
  {
    if steps == [] then s else StepKeepsInv(s, steps[0]); Exec(Apply(s, steps[0]), steps[1..])
  }

  const INITIAL := State(0, map[], [], map[], map[])

  lemma InitialInv()
    ensures Inv(INITIAL)
  {
  }

  // ----- the quota of a tunnel -----

  function QuotaOf(b: Option<Bucket>): Option<Quota> { if b.None? then None else Some(b.value.quota) }

  /** No step changes the quota of a direction that has one, or gives one to a direction that has none. */
  lemma StepKeepsQuota(s: State, a: Step, k: Key)
    requires Inv(s) && Enabled(s, a) && k in s.pool
    ensures var s' := Apply(s, a); k in s'.pool && QuotaOf(s'.pool[k]) == QuotaOf(s.pool[k])
  {
  }

  /** The first connection of a tunnel id fixes the quota of all later ones, over any run. */
  lemma {:induction false} FirstQuotaStays(s: State, steps: seq<Step>, k: Key)
    requires Inv(s) && Runs(s, steps) && k in s.pool
    ensures var s' := Exec(s, steps); k in s'.pool && QuotaOf(s'.pool[k]) == QuotaOf(s.pool[k])
    decreases |steps|
  {
    hide Apply;
    hide QuotaOf;
    if steps != [] {
      StepKeepsInv(s, steps[0]);
      StepKeepsQuota(s, steps[0], k);
      FirstQuotaStays(Apply(s, steps[0]), steps[1..], k);
    }
  }

  function BuiltQuota(m: Option<U16>): Option<Quota> {
    if m.None? then None else Some(BuildQuota(m.value))
  }

  /** What the first connection of a tunnel asks for download holds for reading, what it asks for upload for writing. */
  lemma FirstWrapDecides(s: State, id: nat, upload: Option<U16>, download: Option<U16>, steps: seq<Step>)
    requires Inv(s) && Key(id, Read) !in s.pool && Inv(Apply(s, Wrap(id, upload, download)))
    requires Runs(Apply(s, Wrap(id, upload, download)), steps)
    ensures var s' := Exec(Apply(s, Wrap(id, upload, download)), steps);
            && Key(id, Read) in s'.pool && QuotaOf(s'.pool[Key(id, Read)]) == BuiltQuota(download)
            && Key(id, Write) in s'.pool && QuotaOf(s'.pool[Key(id, Write)]) == BuiltQuota(upload)
  {
    var s1 := Apply(s, Wrap(id, upload, download));
    FirstQuotaStays(s1, steps, Key(id, Read));
    FirstQuotaStays(s1, steps, Key(id, Write));
  }

  // ----- the bound -----

  /** What a direction of quota `q` can still pay for; before its bucket exists, a full one. */
  function Credit(s: State, k: Key, q: Quota): nat
    requires Inv(s)
  {
    if k in s.pool && s.pool[k].Some? then Level(s.pool[k].value, s.now) else q.burst * SECOND
  }

  /** What was moved was paid for, and what was paid for came out of the credit or out of time. */
  ghost predicate Pays(s: State, s': State, k: Key, q: Quota)
    requires Inv(s) && Inv(s')
  {
    && s.now <= s'.now
    && At(s.charged, k) <= At(s'.charged, k)
    && At(s.moved, k) <= At(s'.moved, k)
    && At(s'.moved, k) - At(s.moved, k) <= At(s'.charged, k) - At(s.charged, k)
    && (At(s'.charged, k) - At(s.charged, k)) * SECOND + Credit(s', k, q) <= Credit(s, k, q) + q.bps * (s'.now - s.now)
  }

  lemma PaysAddUp(a: State, b: State, c: State, k: Key, q: Quota)
    requires Inv(a) && Inv(b) && Inv(c) && Pays(a, b, k, q) && Pays(b, c, k, q)
    ensures Pays(a, c, k, q)
  {
    hide Inv;
    hide Credit;
    Distributes(q.bps, b.now - a.now, c.now - b.now);
    assert c.now - a.now == (b.now - a.now) + (c.now - b.now);
  }

  /** `k` has the quota `q`, or nothing yet. */
  predicate OfQuota(s: State, k: Key, q: Quota) {
    k in s.pool ==> QuotaOf(s.pool[k]) == Some(q)
  }

  lemma TickPays(s: State, dt: nat, k: Key, q: Quota)
    requires Inv(s) && Inv(Apply(s, Tick(dt))) && OfQuota(s, k, q)
    ensures Pays(s, Apply(s, Tick(dt)), k, q)
  {
    hide Level;
    if k in s.pool {
      LevelRises(s.pool[k].value, s.now, dt);
    }
  }

  lemma WrapPays(s: State, a: Step, k: Key, q: Quota)
    requires Inv(s) && a.Wrap? && Inv(Apply(s, a)) && OfQuota(s, k, q) && OfQuota(Apply(s, a), k, q)
    ensures Pays(s, Apply(s, a), k, q)
  {
    hide BuildQuota;
    if k !in s.pool && k in Apply(s, a).pool {
      LevelNow(q, q.burst * SECOND, s.now);
    }
  }

  lemma PollStepPays(s: State, a: Step, k: Key, q: Quota)
    requires Inv(s) && a.PollOne? && Enabled(s, a) && Inv(Apply(s, a)) && OfQuota(s, k, q)
    ensures Pays(s, Apply(s, a), k, q)
  {
    hide PollHalf;
    hide Level;
    var h := s.halves[a.h];
    if k == h.key {
      PollPays(h.sleep, s.pool[k].value, s.now, a.room, a.roll, a.inner);
    }
  }

  lemma StepPays(s: State, a: Step, k: Key, q: Quota)
    requires Inv(s) && Enabled(s, a) && Inv(Apply(s, a)) && OfQuota(s, k, q) && OfQuota(Apply(s, a), k, q)
    ensures Pays(s, Apply(s, a), k, q)
  {
    match a {
      case Tick(dt) => TickPays(s, dt, k, q);
      case Wrap(_, _, _) => WrapPays(s, a, k, q);
      case PollOne(_, _, _, _) => PollStepPays(s, a, k, q);
    }
  }

  lemma {:induction false} RunPays(s: State, steps: seq<Step>, k: Key, q: Quota)
    requires Inv(s) && Runs(s, steps) && OfQuota(s, k, q) && OfQuota(Exec(s, steps), k, q)
    ensures Pays(s, Exec(s, steps), k, q)
    decreases |steps|
  {
    hide Apply;
    hide Credit;
    if steps != [] {
      StepKeepsInv(s, steps[0]);
      var s1 := Apply(s, steps[0]);
      if k in s1.pool {
        FirstQuotaStays(s1, steps[1..], k);
      }
      StepPays(s, steps[0], k, q);
      RunPays(s1, steps[1..], k, q);
      PaysAddUp(s, s1, Exec(s, steps), k, q);
    }
  }

  /**
   The shared quota: from any state `s`, over any run from there, all connections of a tunnel id
   together move in one direction at most the burst and what the rate gives in the time that
   passes, and every byte moved was paid for; a direction without a quota excepted.
   */
  lemma SharedQuotaBound(s: State, steps: seq<Step>, k: Key)
    requires Inv(s) && Runs(s, steps)
    requires k in Exec(s, steps).pool && Exec(s, steps).pool[k].Some?
    ensures var s' := Exec(s, steps);
            var q := s'.pool[k].value.quota;
            && s.now <= s'.now
            && 0 <= At(s'.moved, k) - At(s.moved, k) <= At(s'.charged, k) - At(s.charged, k)
            && (At(s'.charged, k) - At(s.charged, k)) * SECOND <= q.burst * SECOND + q.bps * (s'.now - s.now)
  {
    hide Apply;
    var s' := Exec(s, steps);
    var q := s'.pool[k].value.quota;
    if k in s.pool {
      FirstQuotaStays(s, steps, k);
      LevelIsCapped(s.pool[k].value, s.now);
    }
    RunPays(s, steps, k, q);
  }

  /** For the quotas the resolver hands out: at most 6/5 of a second's worth and a second's worth per second. */
  lemma CappedQuotaBound(s: State, steps: seq<Step>, k: Key, m: U16)
    requires Inv(s) && Runs(s, steps) && 1 <= m <= 10
    requires k in Exec(s, steps).pool && QuotaOf(Exec(s, steps).pool[k]) == Some(BuildQuota(m))
    ensures var s' := Exec(s, steps);
            5 * (At(s'.moved, k) - At(s.moved, k)) * SECOND <= m * 1048576 * (6 * SECOND + 5 * (s'.now - s.now))
  {
    SharedQuotaBound(s, steps, k);
    CappedQuotaIsExact(m);
    CappedArithmetic(m, Exec(s, steps).now - s.now);
  }

  lemma CappedArithmetic(m: U16, dt: nat)
    requires 1 <= m <= 10
    ensures 5 * ((m * 6291456 / 5) * SECOND + m * 1048576 * dt) <= m * 1048576 * (6 * SECOND + 5 * dt)
  {
    Distributes(m * 1048576, 6 * SECOND, 5 * dt);
  }

  /**
   A refused poll moves after its sleep: the same poll, made again when the sleep it was given is over
   and nobody else has charged the bucket meanwhile, answers as the wrapped stream does.
   */
  lemma RefusedPollMovesLater(s: State, h: nat, room: nat, roll: nat, inner: Option<nat>)
      returns (refused: State, later: State, done: State)
    requires Inv(s) && h < |s.halves| && s.pool[s.halves[h].key].Some? && Awake(s.halves[h].sleep, s.now)
    requires room % U32 != 0 && ChunkOf(room, roll) <= s.pool[s.halves[h].key].value.quota.burst
    requires ChunkOf(room, roll) * SECOND > Level(s.pool[s.halves[h].key].value, s.now)
    ensures refused == Apply(s, PollOne(h, room, roll, inner)) && Inv(refused)
    ensures At(refused.moved, s.halves[h].key) == At(s.moved, s.halves[h].key)
    ensures |refused.halves| == |s.halves| && refused.halves[h].sleep.Some? && refused.halves[h].sleep.value > s.now
    ensures later == Apply(refused, Tick(refused.halves[h].sleep.value - s.now)) && Inv(later)
    ensures h < |later.halves| && done == Apply(later, PollOne(h, room, roll, inner))
    ensures At(done.charged, s.halves[h].key) == At(s.charged, s.halves[h].key) + ChunkOf(room, roll)
    ensures At(done.moved, s.halves[h].key) ==
            At(s.moved, s.halves[h].key) + (if inner.None? then 0 else Min(inner.value, ChunkOf(room, roll)))
  {
    hide ChunkOf;
    hide Level;
    var k := s.halves[h].key;
    var b := s.pool[k].value;
    ChunkIsBounded(room, roll);
    RefusedPollSleeps(s.halves[h].sleep, b, s.now, room, roll, inner, s.now);
    refused := Apply(s, PollOne(h, room, roll, inner));
    StepKeepsInv(s, PollOne(h, room, roll, inner));
    var t := refused.halves[h].sleep.value;
    assert refused.pool[k] == Some(b);
    RefusedPollSleeps(s.halves[h].sleep, b, s.now, room, roll, inner, t);
    StepKeepsInv(refused, Tick(t - s.now));
    later := Apply(refused, Tick(t - s.now));
    GrantedAt(b, t, room, roll, inner, refused.halves[h].sleep);
    done := Apply(later, PollOne(h, room, roll, inner));
  }

  lemma GrantedAt(b: Bucket, t: nat, room: nat, roll: nat, inner: Option<nat>, sleep: Option<nat>)
    requires BucketOk(b, t) && Awake(sleep, t) && room % U32 != 0 && ChunkOf(room, roll) <= b.quota.burst
    requires ChunkOf(room, roll) * SECOND <= Level(b, t)
    ensures var p := PollHalf(sleep, Some(b), t, room, roll, inner);
            && p.sleep == None && p.charged == ChunkOf(room, roll)
            && MovedBy(p.poll) == if inner.None? then 0 else Min(inner.value, ChunkOf(room, roll))
  {
    hide ChunkOf;
    hide Level;
    ChunkIsBounded(room, roll);
  }

  // ----- the program -----

  /** A bucket, shared by reference between the connections of a tunnel. */
  class Limiter {
    const quota: Quota
    var level: nat
    var at: nat

    function Abs(): Bucket
      reads this
    {
      Bucket(quota, level, at)
    }

    constructor (m: U16, now: nat)
      ensures Abs() == Full(BuildQuota(m), now)
    {
      quota := BuildQuota(m);
      level := BuildQuota(m).burst * SECOND;
      at := now;
    }

    method CheckN(n: nat, now: nat) returns (c: Checked)
      requires BucketOk(Abs(), now)
      modifies this
      ensures (c, Abs()) == Check(old(Abs()), n, now) && BucketOk(Abs(), now)
    {
      if n > quota.burst {
        return Insufficient;
      }
      var available := Level(Abs(), now);
      if n * SECOND <= available {
        level, at := available - n * SECOND, now;
        return Granted;
      }
      return NotUntil(Wait(n * SECOND - available, quota.bps));
    }
  }

  /** A rate limited half connection. */
  class RateLimited {
    const limiter: Limiter?
    var sleep: Option<nat>

    constructor (l: Limiter?)
      ensures limiter == l && sleep == None
    {
      limiter, sleep := l, None;
    }

    ghost function Shared(): Option<Bucket>
      reads limiter
    {
      if limiter == null then None else Some(limiter.Abs())
    }

    /** `poll_read` and `poll_write` around the wrapped stream, whose answer is `inner`. */
    method Poll(now: nat, room: nat, roll: nat, inner: Option<nat>) returns (answer: Poll, ghost charged: nat)
      requires Shared().Some? ==> BucketOk(Shared().value, now)
      modifies this, limiter
      ensures Polled(sleep, Shared(), answer, charged) == PollHalf(old(sleep), old(Shared()), now, room, roll, inner)
    {
      hide ChunkOf;
      charged := 0;
      if sleep.Some? {
        if now < sleep.value {
          return Pending, 0;
        }
        sleep := None;
      }
      var n := ChunkOf(room, roll);
      if limiter != null {
        if n == 0 {
          return Panicked, 0;
        }
        var checked := limiter.CheckN(n, now);
        match checked {
          case Insufficient =>
            sleep := Some(now + RETRY);
            return Pending, 0;
          case NotUntil(wait) =>
            sleep := Some(now + wait);
            return Pending, 0;
          case Granted => charged := n;
        }
      }
      answer := if inner.None? then Pending else Ready(Min(inner.value, n));
    }
  }

  class Pool {
    var limiters: map<nat, (Limiter?, Limiter?)>

    constructor ()
      ensures limiters == map[]
    {
      limiters := map[];
    }

    /**
     `RateLimiterPool::wrap`: later connections of a tunnel id get the very limiters of the first,
     whatever quota they ask for; the first gets full ones of its own quota.
     */
    method Wrap(id: nat, upload: Option<U16>, download: Option<U16>, now: nat)
            returns (reader: RateLimited, writer: RateLimited)
      modifies `limiters
      ensures fresh(reader) && fresh(writer) && reader.sleep == None && writer.sleep == None
      ensures id in limiters && limiters[id] == (reader.limiter, writer.limiter)
      ensures id in old(limiters) ==> limiters == old(limiters)
      ensures id !in old(limiters) ==>
        && (forall k :: k in limiters <==> k == id || k in old(limiters))
        && (forall k :: k in old(limiters) ==> limiters[k] == old(limiters)[k])
        && (reader.limiter != null ==> fresh(reader.limiter)) && (writer.limiter != null ==> fresh(writer.limiter))
        && reader.Shared() == BuildLimiter(download, now) && writer.Shared() == BuildLimiter(upload, now)
    {
      if id !in limiters {
        var r := Build(download, now);
        var w := Build(upload, now);
        limiters := limiters[id := (r, w)];
      }
      reader := new RateLimited(limiters[id].0);
      writer := new RateLimited(limiters[id].1);
    }

    method Build(m: Option<U16>, now: nat) returns (l: Limiter?)
      ensures if m.None? then l == null else l != null && fresh(l) && l.Abs() == Full(BuildQuota(m.value), now)
    {
      l := null;
      if m.Some? {
        l := new Limiter(m.value, now);
      }
    }
  }
}
