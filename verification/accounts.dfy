/** The per-user accounting columns of the `users` table — the daily usage counter
    and the cached streak — and the rules the loaders apply to them. */
module Accounts {
  import opened Wrappers
  import opened Constants
  import opened Streaks

  /** The `users` row as the loaders select it; every column may be null. */
  datatype UserRow = UserRow(
    nickname: Option<string>,
    notificationTime: Option<string>,
    streakCount: Option<int>,
    lastJournalDate: Option<string>,
    dailyUsageCount: Option<int>,
    dailyUsageDate: Option<string>)

  /** The usage answer: `{ used, limit, remaining, canCreate }`. */
  datatype UsageInfo = UsageInfo(used: int, limit: int, remaining: int, canCreate: bool)

  /** The stored count is only today's count when it was stamped with today's key;
      a null count reads as 0. `remaining` is `max(0, limit - used)`. */
  function DeriveUsage(count: Option<int>, date: Option<string>, todayKey: string): (u: UsageInfo)
    ensures u.limit == DAILY_LIMIT
    ensures date != Some(todayKey) ==> u.used == 0
    ensures date == Some(todayKey) ==> u.used == count.GetOr(0)
    ensures u.remaining >= 0 && u.remaining >= u.limit - u.used
    ensures u.remaining == 0 || u.remaining == u.limit - u.used
    ensures u.canCreate <==> u.used < u.limit
  {
    var used := if date == Some(todayKey) then count.GetOr(0) else 0;
    var remaining := if DAILY_LIMIT - used > 0 then DAILY_LIMIT - used else 0;
    UsageInfo(used, DAILY_LIMIT, remaining, used < DAILY_LIMIT)
  }

  /** `remaining > 0` and `canCreate` always agree, and a new calendar day resets the
      effective count whatever was stored. */
  lemma UsageConsistent(count: Option<int>, date: Option<string>, todayKey: string)
    ensures var u := DeriveUsage(count, date, todayKey);
      && (u.canCreate <==> u.remaining > 0)
      && (date != Some(todayKey) ==> u.used == 0 && u.remaining == DAILY_LIMIT && u.canCreate)
  {
  }

  /** Home page policy: the cached streak is trusted only when the last journal
      date is today's or yesterday's key. */
  predicate PageTrustsCache(row: UserRow, todayKey: string, yesterdayKey: string) {
    row.lastJournalDate == Some(todayKey) || row.lastJournalDate == Some(yesterdayKey)
  }

  /** Usage endpoint policy: any nonzero cached streak is trusted, however old. */
  predicate UsageTrustsCache(row: UserRow) {
    row.streakCount.Some? && row.streakCount.value != 0
  }

  /** The streak the home page shows: `streak_count || 0` when the cache is trusted,
      otherwise a fresh computation over the entry days. */
  function PageStreak(row: UserRow, todayKey: string, yesterdayKey: string, history: set<int>, today: int): (s: int)
    ensures !PageTrustsCache(row, todayKey, yesterdayKey) ==> s == Streak(history, today)
    ensures PageTrustsCache(row, todayKey, yesterdayKey) ==> s == row.streakCount.GetOr(0)
  {
    if PageTrustsCache(row, todayKey, yesterdayKey) then row.streakCount.GetOr(0)
    else Streak(history, today)
  }

  /** The streak the usage endpoint reports: the cached value whenever it is nonzero,
      a fresh computation when it is 0 or null. */
  function UsageStreak(row: Option<UserRow>, history: set<int>, today: int): (s: int)
    ensures row.Some? && UsageTrustsCache(row.value) ==> s == row.value.streakCount.value
    ensures !(row.Some? && UsageTrustsCache(row.value)) ==> s == Streak(history, today)
  {
    if row.Some? && UsageTrustsCache(row.value) then row.value.streakCount.value
    else Streak(history, today)
  }

  /** Why the home page's rule holds while the entries are those the cache was
      computed from: a streak computed on day `written` at or after the newest entry
      day `last` still equals the streak of any later day `today` for which `last`
      is today or yesterday. A delete breaks the premise, because it changes the
      entries and leaves the cache alone (see `JournalApi.StaleCacheAfterDelete`). */
  lemma CachedStreakStillValid(days: set<int>, last: int, written: int, today: int)
    requires last in days && forall d :: d in days ==> d <= last
    requires last <= written <= today
    requires last == today || last == today - 1
    ensures Streak(days, written) == Streak(days, today)
  {
    if last == today - 1 && written == today - 1 {
      assert today !in days;
    }
  }

  /** The usage endpoint's rule is not sound even with the entries unchanged: a
      streak of 1 cached on day 0, the day of the only entry, with that day's key as
      last journal date, is still reported five days later, when the real streak is
      0 and the home page recomputes. */
  lemma UsageCacheCanBeStale()
    ensures var row := UserRow(None, None, Some(Streak({0}, 0)), Some("1970-01-01"), None, None);
      && Streak({0}, 0) == 1
      && Streak({0}, 5) == 0
      && UsageStreak(Some(row), {0}, 5) == 1
      && PageStreak(row, "1970-01-06", "1970-01-05", {0}, 5) == 0
  {
    StreakExamples(0);
  }

  /** The cache columns recomputed from the entry days a query returns newest
      first, on day `written`: the streak of those days and the key of the newest
      one, or a zero streak and no date when no entry is left. `key` renders a day
      number as its day key. Every other column keeps its value. */
  function RefreshCache(row: UserRow, journals: seq<int>, written: int, key: int -> string): (r: UserRow)
    ensures r.streakCount == Some(Streak(DaySet(journals), written))
    ensures |journals| == 0 ==> r.lastJournalDate.None?
    ensures |journals| > 0 ==> r.lastJournalDate == Some(key(journals[0]))
    ensures r.nickname == row.nickname && r.notificationTime == row.notificationTime
    ensures r.dailyUsageCount == row.dailyUsageCount && r.dailyUsageDate == row.dailyUsageDate
  {
    if |journals| == 0 then row.(streakCount := Some(0), lastJournalDate := None)
    else row.(streakCount := Some(Streak(DaySet(journals), written)), lastJournalDate := Some(key(journals[0])))
  }

  /** With the cache recomputed after every change to the entries, the home page's
      rule is sound: whatever day after the refresh it is, the streak the page shows
      is the streak of the entries. The entries are not dated after the refresh day,
      and distinct days have distinct keys. */
  lemma RefreshedCacheSound(row: UserRow, journals: seq<int>, written: int, today: int, key: int -> string)
    requires NewestFirst(journals)
    requires forall i :: 0 <= i < |journals| ==> journals[i] <= written
    requires written <= today
    requires forall a, b :: key(a) == key(b) ==> a == b
    ensures var refreshed := RefreshCache(row, journals, written, key);
      PageStreak(refreshed, key(today), key(today - 1), DaySet(journals), today) == Streak(DaySet(journals), today)
  {
    var refreshed, days := RefreshCache(row, journals, written, key), DaySet(journals);
    if PageTrustsCache(refreshed, key(today), key(today - 1)) {
      var last := journals[0];
      assert last == today || last == today - 1;
      assert forall d :: d in days ==> d <= last by {
        forall d | d in days
          ensures d <= last
        {
          var i :| 0 <= i < |journals| && journals[i] == d;
          if i > 0 {
            assert journals[0] >= journals[i];
          }
        }
      }
      CachedStreakStillValid(days, last, written, today);
    }
  }
}
