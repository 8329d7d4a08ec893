/** The consecutive-day streak. The same algorithm appears as `calculateStreak` in
    the stats, usage and home-page handlers and, with a different control flow and a
    cache write, as `updateStreakCache` in the journal handler. A calendar day is an
    integer day number here, and the predecessor of day `d` is taken to be `d - 1`:
    the conversion of timestamps to local calendar days, and of
    `setDate(getDate() - 1)` to the previous day, is not modelled. */
module Streaks {
  import opened Wrappers

  /** The distinct days of a query result that holds one day number per entry
      (the `Set` the handlers fill from `created_at`). */
  function DaySet(journals: seq<int>): (days: set<int>)
    ensures forall d :: d in days <==> d in journals
  {
    set d | d in journals
  }

  /** Present days on or before `cursor`; the backward walk's termination measure. */
  function AtOrBefore(days: set<int>, cursor: int): set<int> {
    set d | d in days && d <= cursor
  }

  /** Stepping the cursor back past a present day removes exactly that day. */
  lemma StepBackShrinks(days: set<int>, cursor: int)
    requires cursor in days
    ensures |AtOrBefore(days, cursor - 1)| < |AtOrBefore(days, cursor)|
  {
    assert AtOrBefore(days, cursor) == AtOrBefore(days, cursor - 1) + {cursor};
  }

  /** Length of the unbroken run of present days that ends at `cursor`. */
  function RunLength(days: set<int>, cursor: int): nat
    decreases |AtOrBefore(days, cursor)|
  {
    if cursor in days then
      StepBackShrinks(days, cursor);
      1 + RunLength(days, cursor - 1)
    else 0
  }

  /** The streak on day `today`: the run ending today when today has an entry,
      otherwise the run ending yesterday, otherwise nothing. */
  function Streak(days: set<int>, today: int): (n: nat)
    ensures n > 0 <==> today in days || today - 1 in days
  {
    if today in days then RunLength(days, today)
    else if today - 1 in days then RunLength(days, today - 1)
    else 0
  }

  /** The day the backward walk starts from (only meaningful when the streak is positive). */
  function StreakStart(days: set<int>, today: int): int {
    if today in days then today else today - 1
  }

  /** Independent description of a run: the `k` days `c - k + 1 .. c` are all
      present and the day before them, `c - k`, is not. */
  ghost predicate IsRun(days: set<int>, c: int, k: nat) {
    && (forall d :: c - k < d <= c ==> d in days)
    && c - k !in days
  }

  lemma {:induction false} RunLengthIsRun(days: set<int>, c: int)
    ensures IsRun(days, c, RunLength(days, c))
    decreases |AtOrBefore(days, c)|
  {
    if c in days {
      StepBackShrinks(days, c);
      RunLengthIsRun(days, c - 1);
    }
  }

  /** A run ending at `c` cannot be longer than the first gap allows. */
  lemma NoLongerRun(days: set<int>, c: int, k: nat, k': nat)
    requires IsRun(days, c, k) && k < k'
    ensures !IsRun(days, c, k')
  {
    assert c - k' < c - k <= c;
  }

  /** `RunLength` is exactly the length of the run: both directions. */
  lemma RunLengthIff(days: set<int>, c: int, k: nat)
    ensures RunLength(days, c) == k <==> IsRun(days, c, k)
  {
    RunLengthIsRun(days, c);
    var n := RunLength(days, c);
    if IsRun(days, c, k) && k < n {
      NoLongerRun(days, c, k, n);
    } else if n < k {
      NoLongerRun(days, c, n, k);
    }
  }

  /** A streak of `k > 0` means the `k` days ending at the start day (today if it
      has an entry, else yesterday) are all present and the day before them is not;
      a streak of 0 means neither today nor yesterday has an entry. */
  lemma StreakIff(days: set<int>, today: int, k: nat)
    ensures Streak(days, today) == k <==>
      if today in days || today - 1 in days then IsRun(days, StreakStart(days, today), k)
      else k == 0
  {
    RunLengthIff(days, StreakStart(days, today), k);
  }

  /** Fixed examples of the streak: only today gives 1; today, yesterday
      and the day before give 3; only yesterday gives 1; only two days ago gives 0. */
  lemma StreakExamples(t: int)
    ensures Streak({t}, t) == 1
    ensures Streak({t, t - 1, t - 2}, t) == 3
    ensures Streak({t - 1}, t) == 1
    ensures Streak({t - 2}, t) == 0
  {
    RunLengthIff({t}, t, 1);
    RunLengthIff({t, t - 1, t - 2}, t, 3);
    RunLengthIff({t - 1}, t - 1, 1);
  }

  /** Several entries on one day count once: repeating a day in the query result
      leaves the day set, and so the streak, unchanged. */
  lemma DuplicateDayCountsOnce(journals: seq<int>, i: nat)
    requires i < |journals|
    ensures DaySet(journals + [journals[i]]) == DaySet(journals)
  {
    assert journals[i] in journals;
  }

  /** The `calculateStreak` copy of the stats, usage and home-page handlers, on the
      query result (entries' day numbers, newest first; a failed query reads as
      empty). It returns early for an empty history and when neither today nor
      yesterday has an entry, and otherwise walks backward from the start day. */
  method CalculateStreak(journals: seq<int>, today: int) returns (streak: nat)
    ensures streak == Streak(DaySet(journals), today)
  {
    if |journals| == 0 {
      return 0;
    }
    var journalDates: set<int> := {};
    for i := 0 to |journals|
      invariant journalDates == DaySet(journals[..i])
    {
      assert journals[..i + 1] == journals[..i] + [journals[i]];
      journalDates := journalDates + {journals[i]};
    }
    assert journals[..|journals|] == journals;
    var yesterday := today - 1;
    streak := 0;
    var checkDate := today;
    if today !in journalDates {
      if yesterday !in journalDates {
        return 0;
      }
      checkDate := yesterday;
    }
    ghost var start := checkDate;
    while checkDate in journalDates
      invariant streak + RunLength(journalDates, checkDate) == RunLength(journalDates, start)
      decreases |AtOrBefore(journalDates, checkDate)|
    {
      StepBackShrinks(journalDates, checkDate);
      streak := streak + 1;
      checkDate := checkDate - 1;
    }
  }

  /** What `updateStreakCache` writes to the user row. */
  datatype CacheUpdate = CacheUpdate(streakCount: nat, lastJournalDay: int)

  predicate NewestFirst(journals: seq<int>) {
    forall i, j :: 0 <= i < j < |journals| ==> journals[i] >= journals[j]
  }

  /** `updateStreakCache`: no write at all for an empty history; otherwise the same
      streak as `calculateStreak`, and as last journal day the first day inserted
      into the insertion-ordered `Set`, which is the newest day because the query
      is sorted newest first. */
  method UpdateStreakCache(journals: seq<int>, today: int) returns (update: Option<CacheUpdate>)
    ensures update.None? <==> |journals| == 0
    ensures update.Some? ==> update.value.streakCount == Streak(DaySet(journals), today)
    ensures update.Some? ==> update.value.lastJournalDay in DaySet(journals)
    ensures update.Some? ==> update.value.lastJournalDay == journals[0]
    ensures update.Some? && NewestFirst(journals) ==>
      forall d :: d in DaySet(journals) ==> d <= update.value.lastJournalDay
  {
    if |journals| == 0 {
      return None;
    }
    // A JavaScript `Set` iterates in insertion order: kept as a duplicate-free sequence.
    var journalDates: seq<int> := [];
    for i := 0 to |journals|
      invariant forall d :: d in journalDates <==> d in journals[..i]
      invariant i == 0 ==> journalDates == []
      invariant i > 0 ==> |journalDates| > 0 && journalDates[0] == journals[0]
    {
      if journals[i] !in journalDates {
        journalDates := journalDates + [journals[i]];
      }
    }
    assert journals[..|journals|] == journals;
    ghost var days := DaySet(journals);
    assert forall d :: d in journalDates <==> d in days;
    var yesterday := today - 1;
    var streak: nat := 0;
    var checkDate := today;
    if today !in journalDates {
      if yesterday !in journalDates {
        streak := 0;
      } else {
        checkDate := yesterday;
      }
    }
    if today in journalDates || yesterday in journalDates {
      ghost var start := checkDate;
      while checkDate in journalDates
        invariant streak + RunLength(days, checkDate) == RunLength(days, start)
        decreases |AtOrBefore(days, checkDate)|
      {
        StepBackShrinks(days, checkDate);
        streak := streak + 1;
        checkDate := checkDate - 1;
      }
    }
    var lastJournalDate := journalDates[0];
    return Some(CacheUpdate(streak, lastJournalDate));
  }
}
