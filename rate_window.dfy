/** The fixed counting window that both rate limiters are built from. A
    window holds how many requests it has admitted and the clock reading at
    which it was (re)started; the clock is in integer milliseconds and a
    `time.sleep(d)` is the clock moving forward by `d`. */
module RateWindow {

  datatype Window = Window(count: int, start: int)

  /** The reset test at the top of `acquire`: a window whose period has run
      out, measured at the reading `now`, starts again empty at `now`. */
  function Refresh(w: Window, period: int, now: int): Window {
    if now - w.start >= period then Window(0, now) else w
  }

  /** The full-window branch of `acquire`. The sleep is computed from the
      reading `now` taken at the top of `acquire` (the source reuses
      `current_time`), but it starts from `clock`, the reading after any
      earlier sleep of the same call; the window restarts at the reading after
      the sleep. Gives the new window and the new clock reading. */
  function Gate(w: Window, cap: int, period: int, now: int, clock: int): (Window, int) {
    if w.count >= cap then
      var pause := period - (now - w.start);
      var t := if pause > 0 then clock + pause else clock;
      (Window(0, t), t)
    else
      (w, clock)
  }

  /** The increment at the end of `acquire`. */
  function Bump(w: Window): Window {
    Window(w.count + 1, w.start)
  }

  /** One window's part of an `acquire` that starts at reading `now` with the
      clock at `clock`: refresh, gate, bump. Gives the new window and the
      clock reading after the gate's sleep. */
  function Pass(w: Window, cap: int, period: int, now: int, clock: int): (Window, int) {
    var g := Gate(Refresh(w, period, now), cap, period, now, clock);
    (Bump(g.0), g.1)
  }

  /** With a cap of at least one, a window never holds more than its cap
      after a pass, whatever it held before. */
  lemma PassWithinCap(w: Window, cap: int, period: int, now: int, clock: int)
    requires cap >= 1
    ensures Pass(w, cap, period, now, clock).0.count <= cap
    ensures w.count >= 0 ==> Pass(w, cap, period, now, clock).0.count >= 1
  {
    var r := Refresh(w, period, now);
    if r.count >= cap {
      assert Gate(r, cap, period, now, clock).0.count == 0;
    }
  }

  /** A pass never rejects and never turns the clock back, and it sleeps at
      most one period when the window did not start after `now`. */
  lemma PassAdmitsOne(w: Window, cap: int, period: int, now: int, clock: int)
    requires period > 0 && now <= clock
    ensures var (w', t) := Pass(w, cap, period, now, clock);
      clock <= t && (w.start <= now ==> t <= clock + period)
  {
  }

  /** How a pass ends, case by case: a window whose period has run out is
      reset at `now` and counts one; an unexpired window that still has room
      counts one more and keeps its start; a full unexpired window restarts
      no earlier than one period after it began and holds one. */
  lemma {:induction false} PassCases(w: Window, cap: int, period: int, now: int, clock: int)
    requires cap >= 1 && period > 0 && now <= clock
    ensures now - w.start >= period ==>
      Pass(w, cap, period, now, clock) == (Window(1, now), clock)
    ensures now - w.start < period && w.count < cap ==>
      Pass(w, cap, period, now, clock) == (Window(w.count + 1, w.start), clock)
    ensures now - w.start < period && w.count >= cap ==>
      var (w', t) := Pass(w, cap, period, now, clock);
      w' == Window(1, t) && t >= w.start + period && t - clock == period - (now - w.start)
  {
  }
}
