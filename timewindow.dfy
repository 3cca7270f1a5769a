/** The query window of one run: from the current instant to the same time
    of day one day later (`now` and `now.add(1, "day")` in UTC). Instants
    are integer milliseconds since the Unix epoch, the precision of dayjs. */
module TimeWindow {

  const MillisPerDay: int := 24 * 60 * 60 * 1000

  /** The `timeMin` and `timeMax` of the calendar query. */
  datatype Window = Window(timeMin: int, timeMax: int)

  /** The UTC day number of an instant (days since 1970-01-01, rounding down). */
  function DayOf(t: int): int {
    t / MillisPerDay
  }

  /** The milliseconds elapsed since the start of that UTC day. */
  function TimeOfDay(t: int): (ms: int)
    ensures 0 <= ms < MillisPerDay
  {
    t % MillisPerDay
  }

  /** dayjs's `add(n, "day")` in UTC mode: move the calendar date by `n`
      days and keep the time of day. UTC days have no daylight-saving
      shifts, so this is a fixed shift of the instant. */
  function AddDays(t: int, n: int): (r: int)
    ensures r == t + n * MillisPerDay
    ensures DayOf(r) == DayOf(t) + n
    ensures TimeOfDay(r) == TimeOfDay(t)
  {
    assert t == DayOf(t) * MillisPerDay + TimeOfDay(t);
    (DayOf(t) + n) * MillisPerDay + TimeOfDay(t)
  }

  /** `{ timeMin: now, timeMax: now.add(1, "day") }`: the window starts now,
      lasts exactly one day and is never empty. */
  function QueryWindow(now: int): (w: Window)
    ensures w.timeMin == now
    ensures w.timeMax == now + MillisPerDay
    ensures w.timeMin < w.timeMax
  {
    Window(now, AddDays(now, 1))
  }

  /** Instant `x` falls inside window `w` (`timeMin` inclusive, `timeMax`
      exclusive). */
  predicate InWindow(w: Window, x: int) {
    w.timeMin <= x < w.timeMax
  }

  /** The window of the run made `i` days after a run at `start`. */
  function DailyWindow(start: int, i: int): Window {
    QueryWindow(start + i * MillisPerDay)
  }

  /** Runs made once a day cover the time from the first run on with no gap
      and no overlap: each instant of the first `k` days lies in the window
      of exactly one of the first `k` runs. */
  lemma DailyRunsCoverEachInstantOnce(start: int, k: nat, x: int)
    requires start <= x < start + k * MillisPerDay
    ensures exists i :: 0 <= i < k && InWindow(DailyWindow(start, i), x)
    ensures forall i, j ::
      (0 <= i < k && 0 <= j < k && InWindow(DailyWindow(start, i), x) && InWindow(DailyWindow(start, j), x)) ==> i == j
  {
    var i := (x - start) / MillisPerDay;
    DayIndex(x - start, i);
    assert InWindow(DailyWindow(start, i), x);
    forall j | 0 <= j < k && InWindow(DailyWindow(start, j), x)
      ensures j == i
    {
      DayIndex(x - start, j);
    }
  }

  /** The day `i` that offset `d` falls in is `d / MillisPerDay`. */
  lemma DayIndex(d: int, i: int)
    ensures i * MillisPerDay <= d < (i + 1) * MillisPerDay <==> i == d / MillisPerDay
  {
    var q := d / MillisPerDay;
    assert d == q * MillisPerDay + d % MillisPerDay;
  }
}
