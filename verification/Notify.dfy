/**
 The wake-up primitive that the UDP demultiplexer and the tunnel writer are built on:
 `tokio::sync::Notify` together with the one `Notified` future that its owner keeps on it.

 A future starts as `Init`, remembering how many broadcasts had been made when it was
 created; it joins the waiter queue (`Waiting`) only when it is first polled or enabled.
 `NotifyOne` hands its wake-up to a queued waiter or else stores a single permit, while
 `NotifyWaiters` stores nothing but completes every future that already exists.
 */
module Notify {

  datatype Notified =
    | Absent
    | Init(seenCalls: nat)
    | Waiting
    | Woken(byOne: bool)

  datatype Notify = Notify(permit: bool, calls: nat, fut: Notified) {

    /** Polling the future now would complete it. */
    predicate Ready() {
      fut.Woken? || (fut.Init? && (permit || fut.seenCalls != calls))
    }

    /** `notify.notified()`, replacing whatever future was kept before. */
    function Create(): Notify {
      Drop().(fut := Init(calls))
    }

    function NotifyOne(): Notify {
      if fut.Waiting? then this.(fut := Woken(true)) else this.(permit := true)
    }

    function NotifyWaiters(): Notify {
      this.(calls := calls + 1, fut := if fut.Waiting? then Woken(false) else fut)
    }

    /** One poll: a completed future is consumed, an unfinished one joins the queue. */
    function Poll(): Notify {
      match fut
      case Absent => this
      case Init(c) =>
        if permit then Notify(false, calls, Absent)
        else if c != calls then this.(fut := Absent)
        else this.(fut := Waiting)
      case Waiting => this
      case Woken(_) => this.(fut := Absent)
    }

    /** `Notified::enable`: joins the queue like a poll, but keeps a completed future. */
    function Enable(): Notify {
      if Ready() then Poll().(fut := Woken(false)) else Poll()
    }

    /** Dropping a future that `NotifyOne` had chosen passes the wake-up on. */
    function Drop(): Notify {
      Notify(permit || fut == Woken(true), calls, Absent)
    }
  }

  const FRESH: Notify := Notify(false, 0, Absent)
}
