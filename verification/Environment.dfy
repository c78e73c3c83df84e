/** What a running stream sees of the world: a clock that never runs back, and a caller's
    context that stays cancelled once it is. */
module Environments {
  class Env {
    var clock: int
    var cancelled: bool
    // When the last wait was to end.
    ghost var due: int

    constructor () {
      clock, cancelled, due := 0, false, 0;
    }

    // Everything that may happen while the program does something else.
    twostate predicate Later()
      reads this
    {
      old(clock) <= clock && (old(cancelled) ==> cancelled)
    }

    method Pass()
      modifies this`clock, this`cancelled
      ensures Later()
    {
      var ticks: int := *;
      if ticks > 0 {
        clock := clock + ticks;
      }
      if * {
        cancelled := true;
      }
    }

    method Now() returns (now: int)
      modifies this`clock, this`cancelled
      ensures Later() && now == clock
    {
      Pass();
      now := clock;
    }

    method Err() returns (err: bool)
      modifies this`clock, this`cancelled
      ensures Later() && err == cancelled
    {
      Pass();
      err := cancelled;
    }

    // Sleeps for the duration or until the context is cancelled; a timer never fires early.
    method Wait(duration: int) returns (err: bool)
      modifies this
      ensures Later() && (err ==> cancelled) && due == old(clock) + duration
      ensures !err && duration > 0 ==> clock >= old(clock) + duration
    {
      due := clock + duration;
      if duration <= 0 {
        err := Err();
        return;
      }
      var start := clock;
      Pass();
      var fired: bool := *;
      if cancelled && !fired {
        return true;
      }
      if clock < start + duration {
        clock := start + duration;
      }
      err := false;
    }
  }
}
