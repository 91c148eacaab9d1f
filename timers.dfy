/** The host's interval timers (`setInterval` / `clearInterval`): the set of
    intervals still scheduled, and the handle the next `setInterval` returns. */
module Timers {

  type TimerId = nat

  class TimerHost {
    /** Intervals that are scheduled and not yet cleared. */
    var live: set<TimerId>
    /** Handles are never reused: every handle issued so far is below `next`. */
    var next: TimerId

    ghost predicate Valid()
      reads this
    {
      forall t | t in live :: t < next
    }

    constructor ()
      ensures Valid() && live == {}
    {
      live, next := {}, 0;
    }

    /** `setInterval(...)`: schedules a new interval and returns its fresh handle. */
    method SetInterval() returns (id: TimerId)
      requires Valid()
      modifies this
      ensures Valid()
      ensures id == old(next) && id !in old(live)
      ensures live == old(live) + {id} && next == old(next) + 1
    {
      id := next;
      live, next := live + {id}, next + 1;
    }

    /** `clearInterval(id)`: unschedules the interval; a no-op for a handle
      already cleared. */
    method ClearInterval(id: TimerId)
      requires Valid()
      modifies this
      ensures Valid()
      ensures live == old(live) - {id} && next == old(next)
    {
      live := live - {id};
    }
  }
}
