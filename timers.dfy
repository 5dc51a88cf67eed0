/** The browser's timer facility as far as the page uses it: a table of
    registered callbacks under the handles setInterval and setTimeout hand
    out, and the consistency the page's controller keeps in that table. */
module Timers {
  import opened Optional

  /** The handle setInterval and setTimeout return. */
  type TimerId = nat

  /** The callbacks the controller registers with the browser. */
  datatype Timer =
    | CountdownTimer                    // initCountdown's one-second interval
    | StatusPollTimer                   // init's thirty-second status poll
    | CelebrationTimer(count: nat)      // launchSequence's interval and its celebrationCount
    | ErrorRemovalTimer(element: nat)   // showErrorMessage's ten-second removal of its element

  /** clearInterval(handle): cancels that timer; a null handle cancels nothing. */
  function Cleared(timers: map<TimerId, Timer>, handle: Option<TimerId>): map<TimerId, Timer>
  {
    if handle.Some? then timers - {handle.value} else timers
  }

  /** The celebration intervals among the registered timers. */
  function Celebrations(timers: map<TimerId, Timer>): set<TimerId>
  {
    set id | id in timers && timers[id].CelebrationTimer?
  }

  /** The timer table is consistent: handles are below the next one to be
      handed out, the countdown interval is the only countdown timer and is
      stored in `countdown`, and `celebrations` are exactly the registered
      celebration intervals. */
  ghost predicate TableOk(timers: map<TimerId, Timer>, next: TimerId, countdown: Option<TimerId>,
                          celebrations: set<TimerId>)
  {
    && (forall id :: id in timers ==> id < next)
    && (countdown.Some? ==> countdown.value < next)
    && (forall id :: id in timers && timers[id] == CountdownTimer ==> countdown == Some(id))
    && (countdown.Some? && countdown.value in timers ==> timers[countdown.value] == CountdownTimer)
    && celebrations == Celebrations(timers)
  }

  /** Registering a timer that is neither the countdown nor a celebration
      under a fresh handle keeps the table consistent and leaves the
      countdown's registration as it was. */
  lemma RegisterOther(timers: map<TimerId, Timer>, next: TimerId, countdown: Option<TimerId>,
                      celebrations: set<TimerId>, t: Timer)
    requires TableOk(timers, next, countdown, celebrations)
    requires t != CountdownTimer && !t.CelebrationTimer?
    ensures next !in timers
    ensures TableOk(timers[next := t], next + 1, countdown, celebrations)
    ensures (countdown.Some? && countdown.value in timers[next := t]) == (countdown.Some? && countdown.value in timers)
  {
  }

  /** Registering a celebration interval under a fresh handle adds exactly
      that handle to the celebrations. */
  lemma RegisterCelebration(timers: map<TimerId, Timer>, next: TimerId, countdown: Option<TimerId>,
                            celebrations: set<TimerId>, count: nat)
    requires TableOk(timers, next, countdown, celebrations)
    ensures next !in celebrations
    ensures TableOk(timers[next := CelebrationTimer(count)], next + 1, countdown, celebrations + {next})
    ensures (countdown.Some? && countdown.value in timers[next := CelebrationTimer(count)])
            == (countdown.Some? && countdown.value in timers)
  {
  }

  /** Storing the first countdown interval under a fresh handle. */
  lemma RegisterCountdown(timers: map<TimerId, Timer>, next: TimerId, celebrations: set<TimerId>)
    requires TableOk(timers, next, None, celebrations)
    ensures TableOk(timers[next := CountdownTimer], next + 1, Some(next), celebrations)
  {
  }

  /** clearInterval on the stored countdown handle unregisters it. */
  lemma ClearCountdown(timers: map<TimerId, Timer>, next: TimerId, countdown: Option<TimerId>,
                       celebrations: set<TimerId>)
    requires TableOk(timers, next, countdown, celebrations)
    ensures TableOk(Cleared(timers, countdown), next, countdown, celebrations)
    ensures !(countdown.Some? && countdown.value in Cleared(timers, countdown))
  {
  }

  /** A registered timer other than the countdown is unregistered, or given a
      new celebration counter. */
  lemma RetireOrRecount(timers: map<TimerId, Timer>, next: TimerId, countdown: Option<TimerId>,
                        celebrations: set<TimerId>, id: TimerId, count: nat)
    requires TableOk(timers, next, countdown, celebrations)
    requires id in timers && timers[id] != CountdownTimer
    ensures TableOk(timers - {id}, next, countdown, celebrations - {id})
    ensures timers[id].CelebrationTimer? ==>
              TableOk(timers[id := CelebrationTimer(count)], next, countdown, celebrations)
    ensures (countdown.Some? && countdown.value in timers - {id}) == (countdown.Some? && countdown.value in timers)
    ensures countdown.Some? && countdown.value in timers ==> countdown.value != id
  {
  }
}
