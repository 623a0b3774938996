/** `Looper`: a run/stop switch that owns the repeating timer driving the
    frame loop, and forwards each tick to its delegate. */
module Looping {
  import opened Platform

  /** A scheduled repeating `Timer`. Only its validity is modelled: the
      interval and tolerance are floating-point seconds. */
  class Timer {
    var valid: bool

    /** `Timer.scheduledTimer(...)`: a new timer starts out valid. */
    constructor Scheduled()
      ensures valid
    {
      valid := true;
    }

    /** `invalidate()`: the timer never fires again. */
    method Invalidate()
      modifies this
      ensures !valid
    {
      valid := false;
    }
  }

  /** `LooperDelegate`, reduced to the record of the `loop(_:)` calls it
      receives; what the delegate does with them is not part of the model. */
  class LooperDelegate {
    var received: seq<Looper>

    constructor ()
      ensures received == []
    {
      received := [];
    }

    method Loop(looper: Looper)
      modifies this
      ensures received == old(received) + [looper]
    {
      received := received + [looper];
    }
  }

  class Looper {
    var timer: Timer?
    var isRunning: bool
    var delegate: LooperDelegate?
    const frequencyPerSecond: Int
    /** Every timer this looper has scheduled. */
    ghost var scheduled: set<Timer>

    /** A timer is held exactly while running, and it is the only one of the
        looper's timers still valid: every timer that was replaced has been
        invalidated. */
    ghost predicate Valid()
      reads this, scheduled
    {
      && (timer != null <==> isRunning)
      && (timer != null ==> timer in scheduled && timer.valid)
      && (forall t :: t in scheduled && t != timer ==> !t.valid)
    }

    /** `init(frequencyPerSecond:)`. */
    constructor (frequencyPerSecond: Int)
      ensures Valid()
      ensures this.frequencyPerSecond == frequencyPerSecond
      ensures !isRunning && timer == null && delegate == null && scheduled == {}
    {
      this.frequencyPerSecond := frequencyPerSecond;
      timer := null;
      isRunning := false;
      delegate := null;
      scheduled := {};
    }

    /** An assignment to `timer` together with its `didSet` observer, which
        invalidates the timer being replaced. */
    method SetTimer(newValue: Timer?)
      modifies this, timer
      ensures timer == newValue
      ensures old(timer) != null ==> !old(timer).valid
      ensures isRunning == old(isRunning) && delegate == old(delegate) && scheduled == old(scheduled)
    {
      var oldValue := timer;
      timer := newValue;
      if oldValue != null {
        oldValue.Invalidate();
      }
    }

    /** An assignment to `isRunning` together with its `didSet` observer:
        nothing happens unless the value changes; becoming true schedules a
        new timer, becoming false drops the held one. */
    method SetIsRunning(newValue: bool)
      requires Valid()
      modifies this, scheduled
      ensures Valid()
      ensures isRunning == newValue && delegate == old(delegate)
      ensures newValue == old(isRunning) ==> unchanged(this) && unchanged(scheduled)
      ensures newValue && !old(isRunning) ==>
                fresh(timer) && scheduled == old(scheduled) + {timer}
      ensures !newValue ==> timer == null && scheduled == old(scheduled)
      ensures newValue != old(isRunning) && old(timer) != null ==> !old(timer).valid
    {
      var oldValue := isRunning;
      isRunning := newValue;
      if oldValue == isRunning {
        return;
      }
      if isRunning {
        var t := new Timer.Scheduled();
        scheduled := scheduled + {t};
        SetTimer(t);
      } else {
        SetTimer(null);
      }
    }

    /** `run()`: starts a new timer unless already running. */
    method Run()
      requires Valid()
      modifies this, scheduled
      ensures Valid() && isRunning && delegate == old(delegate)
      ensures old(isRunning) ==> unchanged(this) && unchanged(scheduled)
      ensures !old(isRunning) ==>
                fresh(timer) && timer.valid && scheduled == old(scheduled) + {timer}
    {
      if isRunning {
        return;
      }
      SetIsRunning(true);
    }

    /** `stop()`: drops and invalidates the timer; stopping when stopped
        changes nothing. */
    method Stop()
      requires Valid()
      modifies this, scheduled
      ensures Valid() && !isRunning && timer == null && delegate == old(delegate)
      ensures old(timer) != null ==> !old(timer).valid
      ensures !old(isRunning) ==> unchanged(this) && unchanged(scheduled)
      ensures scheduled == old(scheduled)
    {
      SetIsRunning(false);
    }

    /** `handleLoop()`, the timer's action: one `loop(_:)` call to the
        delegate if there is one, nothing otherwise. */
    method HandleLoop()
      modifies delegate
      ensures delegate != null ==> delegate.received == old(delegate.received) + [this]
    {
      if delegate != null {
        delegate.Loop(this);
      }
    }
  }
}
