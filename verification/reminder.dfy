/** The daily reminder's scheduling arithmetic and `localStorage` bookkeeping
    (`src/lib/utils/reminder.ts`). The clock is integer milliseconds since the epoch
    with a fixed offset from UTC to local time (no daylight-saving changes); the
    timer and the notification themselves are effects outside the model, and the
    timer id `setTimeout` hands back is an input. */
module Reminder {
  import opened Wrappers
  import opened Text
  import opened Api
  import opened Clock
  import opened LocalStorage

  const TimerIdKey: string := "notification_timer_id"
  const TimeKey: string := "notification_time"

  /** A time string whose first two `:`-separated fields are decimal numbers, as an
      `<input type="time">` value (`HH:MM`) is. */
  predicate WellFormedTime(time: string) {
    var fields := Split(time, ':');
    |fields| >= 2 && |fields[0]| > 0 && IsDigits(fields[0]) && |fields[1]| > 0 && IsDigits(fields[1])
  }

  /** `const [hour, minute] = time.split(':').map(Number)`. */
  function ParseTime(time: string): (hm: (nat, nat))
    requires WellFormedTime(time)
  {
    var fields := Split(time, ':');
    (DigitsValue(fields[0]), DigitsValue(fields[1]))
  }

  /** Reading back a zero-padded `HH:MM` gives the hour and minute written. */
  lemma ParseTimeOfClock(h: nat, m: nat)
    requires h < 100 && m < 100
    ensures WellFormedTime(Pad2(h) + ":" + Pad2(m))
    ensures ParseTime(Pad2(h) + ":" + Pad2(m)) == (h, m)
  {
    var a, b := Pad2(h), Pad2(m);
    SplitFirstField(a, ':', b);
    SplitNoSeparator(b, ':');
    assert Split(a + ":" + b, ':') == [a, b];
    Pad2Value(h);
    Pad2Value(m);
  }

  /** Local midnight of the day that contains `nowMs`. */
  function LocalMidnight(nowMs: int, offsetMs: int): (m: int)
    ensures m <= nowMs < m + DAY_MS
    ensures (m + offsetMs) % DAY_MS == 0
  {
    (nowMs + offsetMs) / DAY_MS * DAY_MS - offsetMs
  }

  /** The instant the reminder fires: today at `hour:minute:00.000` local time
      (`setHours`, which lets large values roll over), or one day later when that
      is not after now. */
  function NextFire(hour: nat, minute: nat, nowMs: int, offsetMs: int): (target: int)
    ensures target > nowMs
    ensures (target + offsetMs) % DAY_MS == (hour * HOUR_MS + minute * MINUTE_MS) % DAY_MS
    ensures hour < 24 && minute < 60 ==> target - nowMs <= DAY_MS
    ensures hour < 24 && minute < 60 ==> target - DAY_MS <= nowMs
  {
    var midnight, timeOfDay := LocalMidnight(nowMs, offsetMs), hour * HOUR_MS + minute * MINUTE_MS;
    FromMidnight(midnight, offsetMs, timeOfDay);
    var scheduled := midnight + timeOfDay;
    if scheduled <= nowMs then scheduled + DAY_MS else scheduled
  }

  /** An instant a given span after a local midnight, or a day later, has that
      span's time of day. */
  lemma FromMidnight(midnight: int, offsetMs: int, span: int)
    requires (midnight + offsetMs) % DAY_MS == 0
    ensures (midnight + span + offsetMs) % DAY_MS == span % DAY_MS
    ensures (midnight + span + DAY_MS + offsetMs) % DAY_MS == span % DAY_MS
  {
    var days, r := (midnight + offsetMs) / DAY_MS + span / DAY_MS, span % DAY_MS;
    assert midnight + span + offsetMs == days * DAY_MS + r;
    assert midnight + span + DAY_MS + offsetMs == (days + 1) * DAY_MS + r;
  }

  /** Moving forward by less than a day always changes the time of day. */
  lemma LessThanADayApart(b: int, k: int)
    requires 0 < k < DAY_MS
    ensures (b + k) % DAY_MS != b % DAY_MS
  {
    var r := b % DAY_MS;
    assert b == b / DAY_MS * DAY_MS + r;
    if r + k < DAY_MS {
      assert (b + k) % DAY_MS == r + k;
    } else {
      assert (b + k) % DAY_MS == r + k - DAY_MS;
    }
  }

  /** For a valid clock time the reminder fires at its first occurrence after now:
      no earlier instant after now has that local time of day. */
  lemma NextFireIsFirst(hour: nat, minute: nat, nowMs: int, offsetMs: int, t: int)
    requires hour < 24 && minute < 60
    requires nowMs < t < NextFire(hour, minute, nowMs, offsetMs)
    ensures (t + offsetMs) % DAY_MS != (hour * HOUR_MS + minute * MINUTE_MS) % DAY_MS
  {
    var target := NextFire(hour, minute, nowMs, offsetMs);
    LessThanADayApart(t + offsetMs, target - t);
  }

  /** The timer's delay: strictly positive because a time equal to now counts as
      passed, and for a valid clock time at most one day. */
  function Delay(time: string, nowMs: int, offsetMs: int): (delay: int)
    requires WellFormedTime(time)
    ensures delay > 0
    ensures ParseTime(time).0 < 24 && ParseTime(time).1 < 60 ==> delay <= DAY_MS
    ensures nowMs + delay == NextFire(ParseTime(time).0, ParseTime(time).1, nowMs, offsetMs)
  {
    var (hour, minute) := ParseTime(time);
    NextFire(hour, minute, nowMs, offsetMs) - nowMs
  }

  /** The previous timer cleared (if any) and the storage afterwards. */
  datatype Cancelled = Cancelled(storage: Storage, clearedTimer: Option<string>)

  /** `cancelNotification`: a stored, non-empty timer id is cleared and its key
      removed; `notification_time` and every other key stay. */
  function Cancel(inWindow: bool, storage: Storage): (r: Cancelled)
    ensures !inWindow ==> r == Cancelled(storage, None)
    ensures inWindow && Truthy(GetItem(storage, TimerIdKey)) ==>
      r.clearedTimer == GetItem(storage, TimerIdKey) && TimerIdKey !in r.storage
    ensures !Truthy(GetItem(storage, TimerIdKey)) ==> r == Cancelled(storage, None)
    ensures forall k :: k in storage && k != TimerIdKey ==> k in r.storage && r.storage[k] == storage[k]
    ensures forall k :: k in r.storage ==> k in storage
  {
    var timerId := GetItem(storage, TimerIdKey);
    if !inWindow || !Truthy(timerId) then Cancelled(storage, None)
    else Cancelled(storage - {TimerIdKey}, timerId)
  }

  datatype Scheduled = Scheduled(storage: Storage, clearedTimer: Option<string>, delay: int)

  /** `scheduleNotification(time)`: clear the previous timer, start one for the next
      occurrence of `time`, and remember the new timer id and the time. */
  function Schedule(inWindow: bool, storage: Storage, time: string, nowMs: int, offsetMs: int, timerId: nat): (r: Scheduled)
    requires WellFormedTime(time)
    ensures r.delay > 0
    ensures r.delay == Delay(time, nowMs, offsetMs)
    ensures r.clearedTimer == Cancel(inWindow, storage).clearedTimer
    ensures inWindow ==> GetItem(r.storage, TimeKey) == Some(time)
    ensures inWindow ==> GetItem(r.storage, TimerIdKey) == Some(NatToString(timerId))
    ensures inWindow ==> forall k :: k != TimeKey && k != TimerIdKey ==> GetItem(r.storage, k) == GetItem(storage, k)
    ensures !inWindow ==> r.storage == storage
  {
    var cancelled := Cancel(inWindow, storage);
    var delay := Delay(time, nowMs, offsetMs);
    var stored := if inWindow
      then cancelled.storage[TimerIdKey := NatToString(timerId)][TimeKey := time]
      else cancelled.storage;
    Scheduled(stored, cancelled.clearedTimer, delay)
  }

  /** `initializeReminder`: schedule exactly when a non-empty time is saved and the
      notification permission is `'granted'`. */
  function Initialize(inWindow: bool, storage: Storage, permission: string, nowMs: int, offsetMs: int,
                      timerId: nat): (r: Option<Scheduled>)
    requires inWindow && Truthy(GetItem(storage, TimeKey)) && permission == "granted" ==>
      WellFormedTime(storage[TimeKey])
    ensures r.Some? <==> inWindow && Truthy(GetItem(storage, TimeKey)) && permission == "granted"
    ensures r.Some? ==> GetItem(r.value.storage, TimeKey) == GetItem(storage, TimeKey)
    ensures r.Some? ==> r.value.delay > 0
    ensures r.Some? ==> r.value == Schedule(inWindow, storage, storage[TimeKey], nowMs, offsetMs, timerId)
  {
    if !inWindow then None
    else
      var savedTime := GetItem(storage, TimeKey);
      if Truthy(savedTime) && permission == "granted" then
        Some(Schedule(inWindow, storage, savedTime.value, nowMs, offsetMs, timerId))
      else None
  }

  /** Scheduling again (the notification callback reschedules itself daily) clears
      exactly the timer the previous schedule stored and stores the new one. */
  lemma RescheduleClearsPrevious(storage: Storage, time: string, nowMs: int, laterMs: int, offsetMs: int,
                                 firstId: nat, secondId: nat)
    requires WellFormedTime(time)
    ensures var first := Schedule(true, storage, time, nowMs, offsetMs, firstId);
      var second := Schedule(true, first.storage, time, laterMs, offsetMs, secondId);
      && second.clearedTimer == Some(NatToString(firstId))
      && GetItem(second.storage, TimerIdKey) == Some(NatToString(secondId))
      && GetItem(second.storage, TimeKey) == Some(time)
  {
  }
}
