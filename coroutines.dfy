/**
 * A Unity coroutine suspended in `yield return new WaitForSeconds(d)`,
 * seen as a countdown. Starting the coroutine runs its code up to the wait;
 * every frame the engine advances the countdown by the frame time, and the
 * code after the wait runs on the frame at which the duration is used up.
 * `StopCoroutine` or `StopAllCoroutines` drops the countdown, so that code
 * never runs.
 */
module Coroutines {

  /** A coroutine waiting with `remaining` seconds left, or none. */
  datatype Timer = Stopped | Running(remaining: real)

  /** The countdown after `dt` more seconds: it ends once the time left is used up. */
  function Advance(t: Timer, dt: real): (r: Timer)
    ensures r.Running? <==> t.Running? && dt < t.remaining
    ensures r.Running? ==> 0.0 < r.remaining && r.remaining + dt == t.remaining
  {
    match t
    case Stopped => Stopped
    case Running(r) => if r <= dt then Stopped else Running(r - dt)
  }

  /** Advancing in two steps is advancing once by their sum, so the frame rate does not matter. */
  lemma AdvanceTwice(t: Timer, a: real, b: real)
    requires a >= 0.0 && b >= 0.0
    ensures Advance(Advance(t, a), b) == Advance(t, a + b)
  {
  }
}
