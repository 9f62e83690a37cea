/**
 * The debounced search the three pages share. Each page keeps the handle of
 * its last timer in component state; a keystroke clears the timer that handle
 * names, and arms a new one only when the input is long enough. Time does
 * not pass here: a timer runs when `Fire` is applied to it.
 *
 * `Timers` holds both the handle in component state and the one timer the
 * browser still has pending (with the values its callback closed over).
 */
module Debounce {

  import opened Common

  datatype Armed<P> = Armed(handle: nat, payload: P)

  datatype Timers<P> = Timers(stateHandle: Option<nat>, live: Option<Armed<P>>, nextHandle: nat)

  /**
   * Handles are positive (so always truthy) and fresh, and a pending timer is
   * the one whose handle the state holds.
   */
  predicate Valid<P>(t: Timers<P>) {
    && t.nextHandle >= 1
    && (t.stateHandle.Some? ==> 1 <= t.stateHandle.value < t.nextHandle)
    && (t.live.Some? ==> t.stateHandle == Some(t.live.value.handle))
  }

  function Initial<P>(): (t: Timers<P>)
    ensures Valid(t) && t.live.None?
  {
    Timers(None, None, 1)
  }

  /** `if (timeout) clearTimeout(timeout)`: the pending timer of that handle is cancelled. */
  function ClearPending<P>(t: Timers<P>): Timers<P> {
    if t.stateHandle.Some? && t.live.Some? && t.live.value.handle == t.stateHandle.value
    then t.(live := None)
    else t
  }

  /** `setTimeout(...)` followed by storing its handle. */
  function Arm<P>(t: Timers<P>, payload: P): Timers<P> {
    Timers(Some(t.nextHandle), Some(Armed(t.nextHandle, payload)), t.nextHandle + 1)
  }

  /**
   * One keystroke: clear first, then arm when `arm` holds. When it does not,
   * the state keeps the handle of the cancelled timer.
   */
  function Keystroke<P>(t: Timers<P>, arm: bool, payload: P): Timers<P> {
    var cleared := ClearPending(t);
    if arm then Arm(cleared, payload) else cleared
  }

  /**
   * After a keystroke at most one timer is pending, and it is the one just
   * armed: whatever was pending before is gone.
   */
  lemma KeystrokeFacts<P>(t: Timers<P>, arm: bool, payload: P)
    requires Valid(t)
    ensures var r := Keystroke(t, arm, payload);
      && Valid(r)
      && (arm ==> r.live == Some(Armed(t.nextHandle, payload)) && r.stateHandle == Some(t.nextHandle))
      && (!arm ==> r.live.None? && r.stateHandle == t.stateHandle)
  {
  }

  datatype Fired<P> = Fired(payload: Option<P>, timers: Timers<P>)

  /** The pending timer's callback runs; the state still holds its (spent) handle. */
  function Fire<P>(t: Timers<P>): (r: Fired<P>)
    ensures r.payload.Some? <==> t.live.Some?
    ensures t.live.Some? ==> r.payload.value == t.live.value.payload
    ensures r.timers == t.(live := None)
    ensures Valid(t) ==> Valid(r.timers)
  {
    match t.live
    case None => Fired(None, t)
    case Some(a) => Fired(Some(a.payload), t.(live := None))
  }

  /** Two keystrokes before the timer runs leave only the second one's payload to fire. */
  lemma LastKeystrokeWins<P>(t: Timers<P>, p1: P, p2: P)
    requires Valid(t)
    ensures Fire(Keystroke(Keystroke(t, true, p1), true, p2)).payload == Some(p2)
    ensures Fire(Fire(Keystroke(Keystroke(t, true, p1), true, p2)).timers).payload.None?
  {
    KeystrokeFacts(t, true, p1);
    KeystrokeFacts(Keystroke(t, true, p1), true, p2);
  }
}
