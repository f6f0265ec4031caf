/**
 The inactivity watchdog of a UDP stream: a `tokio` interval whose first tick is one period
 after creation, polled once at the start of every `poll_read`. The interval keeps its
 schedule when it is polled late (its default `Burst` behaviour), so a late poll can find
 several ticks due; the source drains them.
 */
module Watchdog {

  /** `next` is the next tick due, `dataRead` is `data_read_before_deadline`. */
  datatype Timer = Timer(period: nat, next: nat, dataRead: bool)

  function NewTimer(period: nat, now: nat): Timer {
    Timer(period, now + period, false)
  }

  /** The first tick of the schedule `next, next + period, ...` that is not due yet. */
  function FirstAfter(next: nat, period: nat, now: nat): (r: nat)
    requires period > 0
    ensures r > now && r >= next && (r == next || r <= now + period)
    decreases now + 1 - next
  {
    if next > now then next
    else FirstAfter(next + period, period, now)
  }

  /** Draining keeps the schedule: it skips whole periods, and no tick that is still to come. */
  lemma {:induction false} StaysOnSchedule(next: nat, period: nat, now: nat) returns (k: nat)
    requires period > 0
    ensures FirstAfter(next, period, now) == next + k * period
    ensures k > 0 ==> next + (k - 1) * period <= now
    decreases now + 1 - next
  {
    k := 0;
    if next <= now {
      var k' := StaysOnSchedule(next + period, period, now);
      k := k' + 1;
    }
  }

  /** One poll of the stream: when it happens and whether it gets as far as reading a datagram. */
  datatype Poll = Poll(at: nat, got: bool)

  predicate TimesOut(t: Timer, now: nat) {
    now >= t.next && !t.dataRead
  }

  /** The timer after a poll that does not time out. */
  function AfterPoll(t: Timer, p: Poll): Timer
    requires t.period > 0 && !TimesOut(t, p.at)
  {
    var ticked := if p.at >= t.next then Timer(t.period, FirstAfter(t.next + t.period, t.period, p.at), false) else t;
    if p.got then ticked.(dataRead := true) else ticked
  }

  /** A run of polls at non-decreasing times, none of which timed out. */
  predicate Survives(t: Timer, now: nat, polls: seq<Poll>)
    requires t.period > 0
    decreases |polls|
  {
    polls == [] ||
    (now <= polls[0].at && !TimesOut(t, polls[0].at) && Survives(AfterPoll(t, polls[0]), polls[0].at, polls[1..]))
  }

  function TimerAfter(t: Timer, now: nat, polls: seq<Poll>): Timer
    requires t.period > 0 && Survives(t, now, polls)
    decreases |polls|
  {
    if polls == [] then t else TimerAfter(AfterPoll(t, polls[0]), polls[0].at, polls[1..])
  }

  lemma {:induction false} OnePollMore(t: Timer, now: nat, polls: seq<Poll>, p: Poll)
    requires t.period > 0 && Survives(t, now, polls) && LastPoll(polls, now) <= p.at
    requires !TimesOut(TimerAfter(t, now, polls), p.at) && TimerAfter(t, now, polls).period > 0
    ensures Survives(t, now, polls + [p])
    ensures TimerAfter(t, now, polls + [p]) == AfterPoll(TimerAfter(t, now, polls), p)
    decreases |polls|
  {
    if polls == [] {
      assert polls + [p] == [p] && [p][1..] == [];
    } else {
      assert (polls + [p])[1..] == polls[1..] + [p];
      OnePollMore(AfterPoll(t, polls[0]), polls[0].at, polls[1..], p);
    }
  }

  /** The time of the last poll that read a datagram; `dflt` if there is none. */
  function LastRead(polls: seq<Poll>, dflt: int): (r: int)
    ensures r == dflt || r >= 0
  {
    if polls == [] then dflt
    else if polls[|polls| - 1].got then polls[|polls| - 1].at
    else LastRead(polls[..|polls| - 1], dflt)
  }

  function LastPoll(polls: seq<Poll>, dflt: nat): nat {
    if polls == [] then dflt else polls[|polls| - 1].at
  }

  lemma {:induction false} LastReadPrepend(p: Poll, polls: seq<Poll>, dflt: int)
    ensures LastRead([p] + polls, dflt) == LastRead(polls, if p.got then p.at else dflt)
  {
    var all := [p] + polls;
    if polls == [] {
      assert all[..|all| - 1] == [];
    } else {
      assert all[..|all| - 1] == [p] + polls[..|polls| - 1];
      LastReadPrepend(p, polls[..|polls| - 1], dflt);
    }
  }

  /** What the watchdog knows: `read` is the last read (-1 when there was none), `created` its creation. */
  ghost predicate Knows(t: Timer, created: nat, read: int, now: nat) {
    && t.period > 0
    && -1 <= read <= now && (read >= 0 ==> created <= read) && created <= now
    && (t.dataRead ==> read >= 0 && t.next > read)
    && (!t.dataRead && read >= 0 ==> t.next > read + t.period)
    && (read < 0 ==> !t.dataRead && t.next >= created + t.period)
  }

  lemma {:induction false} SurvivingKeepsKnows(t: Timer, created: nat, read: int, now: nat, polls: seq<Poll>)
    requires Knows(t, created, read, now) && Survives(t, now, polls)
    ensures Knows(TimerAfter(t, now, polls), created, LastRead(polls, read), LastPoll(polls, now))
    decreases |polls|
  {
    if polls != [] {
      var p := polls[0];
      LastReadPrepend(p, polls[1..], read);
      assert [p] + polls[1..] == polls;
      SurvivingKeepsKnows(AfterPoll(t, p), created, if p.got then p.at else read, p.at, polls[1..]);
    }
  }

  /**
   The watchdog is never hasty. Whatever the polling pattern, a poll times out only when
   strictly more than one period has passed since the last datagram read, or at least one
   period since creation when none was ever read.
   */
  lemma TimeoutMeansIdle(period: nat, created: nat, polls: seq<Poll>, last: nat)
    requires period > 0 && Survives(NewTimer(period, created), created, polls)
    requires LastPoll(polls, created) <= last
    requires TimesOut(TimerAfter(NewTimer(period, created), created, polls), last)
    ensures LastRead(polls, -1) >= 0 ==> last > LastRead(polls, -1) + period
    ensures LastRead(polls, -1) < 0 ==> last >= created + period
  {
    SurvivingKeepsKnows(NewTimer(period, created), created, -1, created, polls);
    SurvivingKeepsPeriod(NewTimer(period, created), created, polls);
  }

  lemma {:induction false} SurvivingKeepsPeriod(t: Timer, now: nat, polls: seq<Poll>)
    requires t.period > 0 && Survives(t, now, polls)
    ensures TimerAfter(t, now, polls).period == t.period
    decreases |polls|
  {
    if polls != [] {
      SurvivingKeepsPeriod(AfterPoll(t, polls[0]), polls[0].at, polls[1..]);
    }
  }

  /** The stream is polled no later than `slack` after each tick falls due. */
  predicate Punctual(t: Timer, now: nat, polls: seq<Poll>, slack: nat)
    requires t.period > 0 && Survives(t, now, polls)
    decreases |polls|
  {
    polls == [] ||
    (polls[0].at <= t.next + slack && Punctual(AfterPoll(t, polls[0]), polls[0].at, polls[1..], slack))
  }

  /** `since` is the last read, or the creation when there was none. */
  ghost predicate Bounded(t: Timer, since: nat, hasRead: bool) {
    && t.period > 0
    && (t.dataRead ==> hasRead)
    && t.next <= since + (if hasRead && !t.dataRead then 2 * t.period else t.period)
  }

  lemma {:induction false} PunctualKeepsBounded(t: Timer, since: nat, hasRead: bool, now: nat, polls: seq<Poll>,
          slack: nat)
    requires Bounded(t, since, hasRead) && since <= now && slack < t.period && t.next <= now + t.period
    requires now < since + (if hasRead then 2 * t.period else t.period)
    requires Survives(t, now, polls) && Punctual(t, now, polls, slack)
    ensures var r := LastRead(polls, if hasRead then since else -1);
            && Bounded(TimerAfter(t, now, polls), if r >= 0 then r else since, r >= 0)
            && LastPoll(polls, now) < (if r >= 0 then r + 2 * t.period else since + t.period)
    decreases |polls|
  {
    if polls != [] {
      var p := polls[0];
      LastReadPrepend(p, polls[1..], if hasRead then since else -1);
      assert [p] + polls[1..] == polls;
      PunctualKeepsBounded(AfterPoll(t, p), if p.got then p.at else since, hasRead || p.got, p.at, polls[1..], slack);
    }
  }

  /**
   The watchdog is never late. A stream that is polled less than a period after each tick, at
   most `slack`, stays alive only while its last read is less than two periods old (one after
   creation when nothing was read), and the poll that times it out comes at most `slack` after that.
   */
  lemma SilenceTimesOut(period: nat, created: nat, polls: seq<Poll>, last: nat, slack: nat)
    requires slack < period && Survives(NewTimer(period, created), created, polls)
    requires Punctual(NewTimer(period, created), created, polls, slack)
    requires last <= TimerAfter(NewTimer(period, created), created, polls).next + slack
    ensures var r := LastRead(polls, -1);
            var t := TimerAfter(NewTimer(period, created), created, polls);
            var limit := if r >= 0 then r + 2 * period else created + period;
            && LastPoll(polls, created) < limit
            && (TimesOut(t, last) ==> last <= limit + slack)
            && (!TimesOut(t, last) ==> last < limit)
  {
    PunctualKeepsBounded(NewTimer(period, created), created, false, created, polls, slack);
    SurvivingKeepsPeriod(NewTimer(period, created), created, polls);
  }
}
