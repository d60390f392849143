/**
 * The reading stopwatch of initTimer as values: its three fields and the transitions the
 * start/pause button, the one-second tick and the reset button apply. Times are milliseconds
 * from the clock the handlers read; elapsed is whole seconds.
 */
module Stopwatch {
  datatype Timer = Timer(running: bool, startTime: int, elapsed: int)

  /** The timer as the app starts and as the reset button leaves it. */
  const Stopped := Timer(false, 0, 0)

  /**
   * The start/pause button. Pausing only clears `running`; starting anchors `startTime` so that
   * the seconds already counted are kept (with nothing counted yet, the anchor is `now` itself).
   */
  function Toggle(t: Timer, now: int): (u: Timer)
    ensures u.running == !t.running
    ensures u.elapsed == t.elapsed
    ensures t.running ==> u.startTime == t.startTime
    ensures !t.running ==> u.startTime == now - t.elapsed * 1000
  {
    if t.running then t.(running := false)
    else if t.elapsed == 0 then t.(running := true, startTime := now)
    else t.(running := true, startTime := now - t.elapsed * 1000)
  }

  /** The interval callback: elapsed becomes the whole seconds since `startTime` (Math.floor). */
  function Tick(t: Timer, now: int): (u: Timer)
    ensures u.running == t.running && u.startTime == t.startTime
    ensures u.elapsed * 1000 <= now - t.startTime < u.elapsed * 1000 + 1000
  {
    t.(elapsed := (now - t.startTime) / 1000)
  }

  lemma ShiftSeconds(x: int, k: int)
    ensures (x + k * 1000) / 1000 == x / 1000 + k
  {
    var q := x / 1000;
    var r := x % 1000;
    assert x == q * 1000 + r && 0 <= r < 1000;
    assert x + k * 1000 == (q + k) * 1000 + r;
  }

  /** Resuming at `now` and ticking `d` milliseconds later adds the whole seconds of `d` to what was counted. */
  lemma ResumeThenTick(t: Timer, now: int, d: int)
    requires !t.running
    ensures Tick(Toggle(t, now), now + d).running
    ensures Tick(Toggle(t, now), now + d).elapsed == t.elapsed + d / 1000
  {
    var u := Toggle(t, now);
    assert now + d - u.startTime == d + t.elapsed * 1000;
    ShiftSeconds(d, t.elapsed);
  }

  /**
   * Pausing keeps the count: a running timer last ticked at `p`, paused, resumed at `q` and
   * ticked at `r` shows its count at `p` plus the whole seconds between `q` and `r`.
   */
  lemma PauseResumeContinues(t: Timer, p: int, q: int, r: int)
    requires t.running
    ensures var paused := Toggle(Tick(t, p), p);
      && !paused.running
      && paused.elapsed == Tick(t, p).elapsed
      && Tick(Toggle(paused, q), r).elapsed == Tick(t, p).elapsed + (r - q) / 1000
  {
    var paused := Toggle(Tick(t, p), p);
    ResumeThenTick(paused, q, r - q);
    assert q + (r - q) == r;
  }

  /** The first start from a fresh or reset timer counts whole seconds from that moment. */
  lemma StartFromStopped(now: int, d: int)
    ensures Tick(Toggle(Stopped, now), now + d).elapsed == d / 1000
  {
    ResumeThenTick(Stopped, now, d);
  }

  /** A later tick never shows fewer seconds. */
  lemma TickMonotone(t: Timer, n1: int, n2: int)
    requires n1 <= n2
    ensures Tick(t, n1).elapsed <= Tick(t, n2).elapsed
  {
    var e1 := Tick(t, n1).elapsed;
    var e2 := Tick(t, n2).elapsed;
    assert e1 * 1000 <= n1 - t.startTime <= n2 - t.startTime < e2 * 1000 + 1000;
  }

  /**
   * Pausing and resuming at one instant keeps the count and the timer running; the anchor moves
   * forward by the part of a second not yet counted, so by less than 1000 ms.
   */
  lemma PauseResumeSameInstant(t: Timer, now: int)
    requires t.running
    ensures var ticked := Tick(t, now);
      var u := Toggle(Toggle(ticked, now), now);
      && u.running && u.elapsed == ticked.elapsed
      && t.startTime <= u.startTime < t.startTime + 1000
  {
  }

  /** A tick shows a negative count exactly when the clock reads earlier than the anchor. */
  lemma TickNegativeIff(t: Timer, now: int)
    ensures Tick(t, now).elapsed < 0 <==> now < t.startTime
  {
    var e := Tick(t, now).elapsed;
    assert e * 1000 <= now - t.startTime < e * 1000 + 1000;
    if e < 0 {
      assert e * 1000 <= -1000;
    }
  }
}
