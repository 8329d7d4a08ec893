/** `GET /api/stats` (`src/routes/api/stats/+server.ts`): over the entries of a
    7- or 30-day window it builds a six-bucket emotion histogram and, per calendar
    day, the emotion with the largest same-day count.

    The per-day counts live in nested JavaScript `Map`s, which iterate in insertion
    order; they are modelled as association lists in that order, so that the
    strict `>` in the dominant-emotion loop decides ties the way the code does. */
module Stats {
  import opened Wrappers
  import opened Emotions
  import opened Api
  import opened Streaks
  import opened Clock

  // ---------------------------------------------------------------------------
  // Reporting window

  /** `period` is the `period` query parameter; absent or empty means `'week'`. */
  function WindowDays(period: Option<string>): (n: int)
    ensures n == 7 || n == 30
    ensures n == 7 <==> !Truthy(period) || period.value == "week"
  {
    var p := if Truthy(period) then period.value else "week";
    if p == "week" then 7 else 30
  }

  /** The `gte('created_at', …)` bound, on a clock of integer milliseconds with a
      fixed offset (so moving the calendar date back `n` days is `n` whole days). */
  function WindowStart(nowMs: int, period: Option<string>): (start: int)
    ensures start < nowMs
    ensures (nowMs - start) % DAY_MS == 0
    ensures (nowMs - start) / DAY_MS == WindowDays(period)
  {
    nowMs - WindowDays(period) * DAY_MS
  }

  /** Any `period` other than `'week'` looks further back: the week window lies
      inside every other window. */
  lemma WeekWindowInsideOthers(nowMs: int, period: Option<string>, createdMs: int)
    requires createdMs >= WindowStart(nowMs, None)
    ensures createdMs >= WindowStart(nowMs, period)
  {
  }

  // ---------------------------------------------------------------------------
  // Histogram

  /** One row of the window query: its emotion and its local calendar day. */
  datatype Entry = Entry(emotion: Emotion, day: int)

  /** `EmotionDistribution`: one counter per emotion, all six always present. */
  datatype Distribution = Distribution(joy: nat, sadness: nat, anger: nat, fear: nat, anxiety: nat, neutral: nat) {

    function Get(e: Emotion): nat {
      match e
      case Joy => joy
      case Sadness => sadness
      case Anger => anger
      case Fear => fear
      case Anxiety => anxiety
      case Neutral => neutral
    }

    function Total(): nat {
      joy + sadness + anger + fear + anxiety + neutral
    }

    /** `emotionDistribution[emotion]++`: bumps one counter and leaves the others. */
    function Inc(e: Emotion): (d: Distribution)
      ensures d.Get(e) == Get(e) + 1
      ensures forall e' :: e' != e ==> d.Get(e') == Get(e')
      ensures d.Total() == Total() + 1
    {
      match e
      case Joy => this.(joy := joy + 1)
      case Sadness => this.(sadness := sadness + 1)
      case Anger => this.(anger := anger + 1)
      case Fear => this.(fear := fear + 1)
      case Anxiety => this.(anxiety := anxiety + 1)
      case Neutral => this.(neutral := neutral + 1)
    }
  }

  const EmptyDistribution: Distribution := Distribution(0, 0, 0, 0, 0, 0)

  function EmotionsOf(entries: seq<Entry>): seq<Emotion> {
    seq(|entries|, i requires 0 <= i < |entries| => entries[i].emotion)
  }

  function DaysOf(entries: seq<Entry>): seq<int> {
    seq(|entries|, i requires 0 <= i < |entries| => entries[i].day)
  }

  /** The histogram: every emotion's counter is its multiplicity among the entries,
      so the counters add up to the number of entries (`totalJournals`). */
  function Tally(entries: seq<Entry>): (d: Distribution)
    ensures forall e :: d.Get(e) == multiset(EmotionsOf(entries))[e]
    ensures d.Total() == |entries|
    decreases |entries|
  {
    if |entries| == 0 then EmptyDistribution
    else
      var n := |entries| - 1;
      assert EmotionsOf(entries) == EmotionsOf(entries[..n]) + [entries[n].emotion];
      Tally(entries[..n]).Inc(entries[n].emotion)
  }

  // ---------------------------------------------------------------------------
  // Per-day counts, in insertion order

  datatype EmotionCount = EmotionCount(emotion: Emotion, count: nat)

  /** One entry of `dailyEmotionsMap`: a day and its insertion-ordered emotion counts. */
  datatype DayBucket = DayBucket(day: int, counts: seq<EmotionCount>)

  /** `Map.has`/`Map.get` on the outer map: index of the day's bucket, or `|bs|`. */
  function FindDay(bs: seq<DayBucket>, day: int): (k: nat)
    ensures k <= |bs|
    ensures k < |bs| ==> bs[k].day == day
    ensures forall j :: 0 <= j < k ==> bs[j].day != day
    decreases |bs|
  {
    if |bs| == 0 then 0 else if bs[0].day == day then 0 else 1 + FindDay(bs[1..], day)
  }

  /** Index of an emotion's counter in a day's list, or `|cs|`. */
  function FindEmotion(cs: seq<EmotionCount>, e: Emotion): (k: nat)
    ensures k <= |cs|
    ensures k < |cs| ==> cs[k].emotion == e
    ensures forall j :: 0 <= j < k ==> cs[j].emotion != e
    decreases |cs|
  {
    if |cs| == 0 then 0 else if cs[0].emotion == e then 0 else 1 + FindEmotion(cs[1..], e)
  }

  /** `emotionMap.set(emotion, (emotionMap.get(emotion) || 0) + 1)`: an existing key
      keeps its position, a new key goes last. */
  function Bump(cs: seq<EmotionCount>, e: Emotion): seq<EmotionCount> {
    var k := FindEmotion(cs, e);
    if k == |cs| then cs + [EmotionCount(e, 1)] else cs[k := EmotionCount(e, cs[k].count + 1)]
  }

  /** One iteration of the aggregation loop for the per-day map. */
  function AddEntry(bs: seq<DayBucket>, x: Entry): seq<DayBucket> {
    var k := FindDay(bs, x.day);
    if k == |bs| then bs + [DayBucket(x.day, Bump([], x.emotion))]
    else bs[k := DayBucket(x.day, Bump(bs[k].counts, x.emotion))]
  }

  /** `dailyEmotionsMap` after the loop has seen `entries` in order. */
  function Group(entries: seq<Entry>): seq<DayBucket>
    decreases |entries|
  {
    if |entries| == 0 then [] else AddEntry(Group(entries[..|entries| - 1]), entries[|entries| - 1])
  }

  // ---------------------------------------------------------------------------
  // Reference description of the per-day map

  predicate NoDup<T(==)>(s: seq<T>) {
    forall i, j :: 0 <= i < j < |s| ==> s[i] != s[j]
  }

  /** Number of entries on `day` tagged `e`. */
  function CountOn(entries: seq<Entry>, day: int, e: Emotion): nat
    decreases |entries|
  {
    if |entries| == 0 then 0
    else
      var x := entries[|entries| - 1];
      CountOn(entries[..|entries| - 1], day, e) + (if x.day == day && x.emotion == e then 1 else 0)
  }

  /** The distinct days of `entries`, in order of first appearance. */
  function DayOrder(entries: seq<Entry>): (ds: seq<int>)
    ensures NoDup(ds)
    ensures forall d :: d in ds <==> d in DaysOf(entries)
    decreases |entries|
  {
    if |entries| == 0 then []
    else
      var n := |entries| - 1;
      assert DaysOf(entries) == DaysOf(entries[..n]) + [entries[n].day];
      var p := DayOrder(entries[..n]);
      if entries[n].day in p then p else p + [entries[n].day]
  }

  /** The distinct emotions seen on `day`, in order of first appearance that day. */
  function EmotionOrder(entries: seq<Entry>, day: int): (es: seq<Emotion>)
    ensures NoDup(es)
    ensures forall e :: e in es <==> CountOn(entries, day, e) > 0
    ensures day !in DaysOf(entries) ==> es == []
    decreases |entries|
  {
    if |entries| == 0 then []
    else
      var n := |entries| - 1;
      assert DaysOf(entries) == DaysOf(entries[..n]) + [entries[n].day];
      var p := EmotionOrder(entries[..n], day);
      var x := entries[n];
      if x.day == day && x.emotion !in p then p + [x.emotion] else p
  }

  /** What a day's counter list should hold: each emotion of the day, in first-seen
      order, with its number of entries that day. */
  function ExpectedCounts(entries: seq<Entry>, day: int): (cs: seq<EmotionCount>)
    ensures |cs| == |EmotionOrder(entries, day)|
    ensures forall j :: 0 <= j < |cs| ==> cs[j].emotion == EmotionOrder(entries, day)[j]
    ensures forall j :: 0 <= j < |cs| ==> cs[j].count == CountOn(entries, day, cs[j].emotion) > 0
  {
    var es := EmotionOrder(entries, day);
    seq(|es|, j requires 0 <= j < |es| => EmotionCount(es[j], CountOn(entries, day, es[j])))
  }

  /** What the whole per-day map should hold: one bucket per distinct day, in
      first-seen order. */
  function ExpectedGroup(entries: seq<Entry>): seq<DayBucket> {
    var ds := DayOrder(entries);
    seq(|ds|, k requires 0 <= k < |ds| => DayBucket(ds[k], ExpectedCounts(entries, ds[k])))
  }

  lemma BumpMatches(p: seq<Entry>, x: Entry)
    requires x.day in DaysOf(p)
    ensures Bump(ExpectedCounts(p, x.day), x.emotion) == ExpectedCounts(p + [x], x.day)
  {
    var cs := ExpectedCounts(p, x.day);
    if FindEmotion(cs, x.emotion) == |cs| {
      BumpNewEmotion(p, x);
    } else {
      BumpSeenEmotion(p, x);
    }
  }

  /** The day's first entry with this emotion appends a counter of one. */
  lemma BumpNewEmotion(p: seq<Entry>, x: Entry)
    requires FindEmotion(ExpectedCounts(p, x.day), x.emotion) == |ExpectedCounts(p, x.day)|
    ensures ExpectedCounts(p, x.day) + [EmotionCount(x.emotion, 1)] == ExpectedCounts(p + [x], x.day)
  {
    var q := p + [x];
    assert q[..|q| - 1] == p;
    var d, e := x.day, x.emotion;
    var cs := ExpectedCounts(p, d);
    var es := EmotionOrder(p, d);
    assert forall j :: 0 <= j < |es| ==> es[j] == cs[j].emotion != e;
    assert e !in es;
    assert EmotionOrder(q, d) == es + [e];
    var got, want := cs + [EmotionCount(e, 1)], ExpectedCounts(q, d);
    assert |got| == |want|;
    forall j | 0 <= j < |got|
      ensures got[j] == want[j]
    {
      if j < |cs| {
        assert es[j] != e;
        assert CountOn(q, d, es[j]) == CountOn(p, d, es[j]);
      } else {
        assert CountOn(q, d, e) == CountOn(p, d, e) + 1;
      }
    }
  }

  /** A repeated emotion on the day bumps its counter in place. */
  lemma BumpSeenEmotion(p: seq<Entry>, x: Entry)
    requires FindEmotion(ExpectedCounts(p, x.day), x.emotion) < |ExpectedCounts(p, x.day)|
    ensures var cs, k := ExpectedCounts(p, x.day), FindEmotion(ExpectedCounts(p, x.day), x.emotion);
      cs[k := EmotionCount(x.emotion, cs[k].count + 1)] == ExpectedCounts(p + [x], x.day)
  {
    var q := p + [x];
    assert q[..|q| - 1] == p;
    var d, e := x.day, x.emotion;
    var cs := ExpectedCounts(p, d);
    var es := EmotionOrder(p, d);
    var k := FindEmotion(cs, e);
    assert es[k] == e;
    assert EmotionOrder(q, d) == es;
    var got, want := cs[k := EmotionCount(e, cs[k].count + 1)], ExpectedCounts(q, d);
    assert |got| == |want|;
    forall j | 0 <= j < |got|
      ensures got[j] == want[j]
    {
      if j != k {
        assert es[j] != e;
        assert CountOn(q, d, es[j]) == CountOn(p, d, es[j]);
      } else {
        assert CountOn(q, d, e) == CountOn(p, d, e) + 1;
      }
    }
  }

  lemma OtherDayUnchanged(p: seq<Entry>, x: Entry, d: int)
    requires d != x.day
    ensures ExpectedCounts(p + [x], d) == ExpectedCounts(p, d)
  {
    var q := p + [x];
    assert q[..|q| - 1] == p;
    assert forall e' :: CountOn(q, d, e') == CountOn(p, d, e');
    assert EmotionOrder(q, d) == EmotionOrder(p, d);
  }

  lemma NewDayCounts(p: seq<Entry>, x: Entry)
    requires x.day !in DaysOf(p)
    ensures ExpectedCounts(p + [x], x.day) == Bump([], x.emotion)
  {
    var q := p + [x];
    assert q[..|q| - 1] == p;
    assert EmotionOrder(p, x.day) == [];
    assert x.emotion !in EmotionOrder(p, x.day);
    assert CountOn(p, x.day, x.emotion) == 0;
    assert EmotionOrder(q, x.day) == [x.emotion];
  }

  /** An entry on a day already in the map bumps that day's counters in place. */
  lemma AddEntryExistingDay(p: seq<Entry>, x: Entry)
    requires x.day in DayOrder(p)
    ensures AddEntry(ExpectedGroup(p), x) == ExpectedGroup(p + [x])
  {
    var q := p + [x];
    assert q[..|q| - 1] == p;
    assert DaysOf(q) == DaysOf(p) + [x.day];
    var bs := ExpectedGroup(p);
    var ds := DayOrder(p);
    assert DayOrder(q) == ds;
    var k := FindDay(bs, x.day);
    assert forall j :: 0 <= j < |ds| ==> bs[j].day == ds[j];
    assert k < |bs| && ds[k] == x.day;
    BumpMatches(p, x);
    var got, want := AddEntry(bs, x), ExpectedGroup(q);
    assert got == bs[k := DayBucket(x.day, Bump(bs[k].counts, x.emotion))];
    assert |got| == |want| == |ds|;
    forall j | 0 <= j < |ds| ensures got[j] == want[j] {
      assert want[j] == DayBucket(ds[j], ExpectedCounts(q, ds[j]));
      if j != k {
        assert got[j] == bs[j] == DayBucket(ds[j], ExpectedCounts(p, ds[j]));
        OtherDayUnchanged(p, x, ds[j]);
      } else {
        assert bs[k].counts == ExpectedCounts(p, x.day);
      }
    }
  }

  /** An entry on a new day appends a bucket holding that one entry. */
  lemma AddEntryNewDay(p: seq<Entry>, x: Entry)
    requires x.day !in DayOrder(p)
    ensures AddEntry(ExpectedGroup(p), x) == ExpectedGroup(p + [x])
  {
    var q := p + [x];
    assert q[..|q| - 1] == p;
    assert DaysOf(q) == DaysOf(p) + [x.day];
    var bs := ExpectedGroup(p);
    var ds := DayOrder(p);
    assert DayOrder(q) == ds + [x.day];
    assert forall j :: 0 <= j < |ds| ==> bs[j].day == ds[j];
    assert FindDay(bs, x.day) == |bs|;
    NewDayCounts(p, x);
    var got, want := AddEntry(bs, x), ExpectedGroup(q);
    assert got == bs + [DayBucket(x.day, Bump([], x.emotion))];
    assert |got| == |want| == |ds| + 1;
    assert got[|ds|] == want[|ds|];
    forall j | 0 <= j < |ds| ensures got[j] == want[j] {
      OtherDayUnchanged(p, x, ds[j]);
    }
  }

  lemma AddEntryMatches(p: seq<Entry>, x: Entry)
    ensures AddEntry(ExpectedGroup(p), x) == ExpectedGroup(p + [x])
  {
    if x.day in DayOrder(p) {
      AddEntryExistingDay(p, x);
    } else {
      AddEntryNewDay(p, x);
    }
  }

  /** The loop's per-day map is exactly the reference map: one bucket per distinct
      day in first-appearance order, each holding the day's emotions in first-seen
      order with their same-day counts. */
  lemma {:induction false} GroupIsExpected(entries: seq<Entry>)
    ensures Group(entries) == ExpectedGroup(entries)
    decreases |entries|
  {
    if |entries| > 0 {
      var n := |entries| - 1;
      GroupIsExpected(entries[..n]);
      AddEntryMatches(entries[..n], entries[n]);
      assert entries[..n] + [entries[n]] == entries;
    }
  }

  // ---------------------------------------------------------------------------
  // Dominant emotion per day

  /** The inner loop: start from `('neutral', 0)` and take a counter only when it is
      strictly larger than the best so far. */
  function Dominant(cs: seq<EmotionCount>): EmotionCount
    decreases |cs|
  {
    if |cs| == 0 then EmotionCount(Neutral, 0)
    else
      var best := Dominant(cs[..|cs| - 1]);
      if cs[|cs| - 1].count > best.count then cs[|cs| - 1] else best
  }

  /** `i` holds a largest count and every counter before it is strictly smaller. */
  ghost predicate IsFirstMax(cs: seq<EmotionCount>, i: int) {
    && 0 <= i < |cs|
    && (forall j :: 0 <= j < |cs| ==> cs[j].count <= cs[i].count)
    && (forall j :: 0 <= j < i ==> cs[j].count < cs[i].count)
  }

  /** On a nonempty list of positive counters the scan returns the first counter with
      the largest count: ties go to the earliest-inserted emotion. */
  lemma {:induction false} DominantIsFirstMax(cs: seq<EmotionCount>) returns (i: nat)
    requires |cs| > 0
    requires forall j :: 0 <= j < |cs| ==> cs[j].count > 0
    ensures IsFirstMax(cs, i) && Dominant(cs) == cs[i]
    decreases |cs|
  {
    var n := |cs| - 1;
    var p := cs[..n];
    assert Dominant(cs) == if cs[n].count > Dominant(p).count then cs[n] else Dominant(p);
    if n == 0 {
      assert Dominant(p) == EmotionCount(Neutral, 0);
      i := 0;
    } else {
      var k := DominantIsFirstMax(p);
      if cs[n].count > p[k].count {
        i := n;
      } else {
        i := k;
      }
    }
  }

  /** One item of `dailyEmotions`. */
  datatype DailyEmotion = DailyEmotion(date: int, emotion: Emotion, count: nat)

  function Series(bs: seq<DayBucket>): seq<DailyEmotion> {
    seq(|bs|, k requires 0 <= k < |bs| =>
      var best := Dominant(bs[k].counts);
      DailyEmotion(bs[k].day, best.emotion, best.count))
  }

  /** The `dailyEmotions` array for the entries of the window. */
  function DailyEmotions(entries: seq<Entry>): seq<DailyEmotion> {
    Series(Group(entries))
  }

  /** Index of the first occurrence of `e` (|es| when absent). */
  function Position(es: seq<Emotion>, e: Emotion): (k: nat)
    ensures k <= |es|
    ensures k < |es| ==> es[k] == e
    ensures forall j :: 0 <= j < k ==> es[j] != e
    decreases |es|
  {
    if |es| == 0 then 0 else if es[0] == e then 0 else 1 + Position(es[1..], e)
  }

  /** The dominant item of one day of the reference map: a positive count, the
      number of that day's entries with the chosen emotion, no emotion with more,
      and every emotion first seen earlier that day with strictly fewer. */
  lemma DayDominant(entries: seq<Entry>, d: int)
    requires d in DaysOf(entries)
    ensures var best := Dominant(ExpectedCounts(entries, d)); var es := EmotionOrder(entries, d);
      && best.count >= 1
      && best.count == CountOn(entries, d, best.emotion)
      && (forall e :: CountOn(entries, d, e) <= best.count)
      && best.emotion in es
      && (forall j :: 0 <= j < Position(es, best.emotion) ==> CountOn(entries, d, es[j]) < best.count)
  {
    var es := EmotionOrder(entries, d);
    var cs := ExpectedCounts(entries, d);
    var t :| 0 <= t < |entries| && entries[t].day == d by {
      assert d in DaysOf(entries);
    }
    EntryCounted(entries, t);
    assert |cs| > 0 by {
      assert entries[t].emotion in es;
    }
    var i := DominantIsFirstMax(cs);
    PositionOfDistinct(es, i);
    forall e
      ensures CountOn(entries, d, e) <= cs[i].count
    {
      if CountOn(entries, d, e) > 0 {
        var j :| 0 <= j < |es| && es[j] == e;
        assert cs[j].count == CountOn(entries, d, e);
      }
    }
  }

  lemma PositionOfDistinct(es: seq<Emotion>, i: nat)
    requires NoDup(es) && i < |es|
    ensures Position(es, es[i]) == i
  {
  }

  /** What the daily series means: exactly one item per distinct day, in order of
      first appearance; each item's count is at least 1, is the number of that day's
      entries with the item's emotion, and no emotion has more entries that day;
      every emotion first seen earlier that day has strictly fewer entries. */
  lemma DailyEmotionsSpec(entries: seq<Entry>)
    ensures var r := DailyEmotions(entries); var ds := DayOrder(entries);
      && |r| == |ds|
      && (forall k :: 0 <= k < |r| ==> r[k].date == ds[k])
      && (forall k :: 0 <= k < |r| ==> r[k].count >= 1)
      && (forall k :: 0 <= k < |r| ==> r[k].count == CountOn(entries, r[k].date, r[k].emotion))
      && (forall k, e :: 0 <= k < |r| ==> CountOn(entries, r[k].date, e) <= r[k].count)
      && (forall k :: 0 <= k < |r| ==>
            var es := EmotionOrder(entries, r[k].date);
            && r[k].emotion in es
            && forall j :: 0 <= j < Position(es, r[k].emotion) ==> CountOn(entries, r[k].date, es[j]) < r[k].count)
  {
    GroupIsExpected(entries);
    var r := DailyEmotions(entries);
    var ds := DayOrder(entries);
    forall k | 0 <= k < |r|
      ensures r[k].date == ds[k]
      ensures r[k] == DailyEmotion(ds[k], Dominant(ExpectedCounts(entries, ds[k])).emotion,
                                   Dominant(ExpectedCounts(entries, ds[k])).count)
    {
    }
    forall k | 0 <= k < |r|
      ensures var best := Dominant(ExpectedCounts(entries, ds[k])); var es := EmotionOrder(entries, ds[k]);
        && best.count >= 1
        && best.count == CountOn(entries, ds[k], best.emotion)
        && (forall e :: CountOn(entries, ds[k], e) <= best.count)
        && best.emotion in es
        && (forall j :: 0 <= j < Position(es, best.emotion) ==> CountOn(entries, ds[k], es[j]) < best.count)
    {
      assert ds[k] in ds;
      DayDominant(entries, ds[k]);
    }
  }

  /** Each entry is counted for its own day and emotion. */
  lemma {:induction false} EntryCounted(entries: seq<Entry>, t: nat)
    requires t < |entries|
    ensures CountOn(entries, entries[t].day, entries[t].emotion) > 0
    decreases |entries|
  {
    var n := |entries| - 1;
    if t < n {
      EntryCounted(entries[..n], t);
    }
  }

  /** With the query sorted by `created_at` ascending (so days never decrease), the
      daily series is in strictly ascending date order. */
  lemma {:induction false} DayOrderAscending(entries: seq<Entry>)
    requires forall i, j :: 0 <= i < j < |entries| ==> entries[i].day <= entries[j].day
    ensures var ds := DayOrder(entries);
      && (forall i, j :: 0 <= i < j < |ds| ==> ds[i] < ds[j])
      && (|entries| > 0 ==> |ds| > 0 && ds[|ds| - 1] == entries[|entries| - 1].day)
    decreases |entries|
  {
    if |entries| > 0 {
      var n := |entries| - 1;
      var p := entries[..n];
      DayOrderAscending(p);
      var ps := DayOrder(p);
      var x := entries[n].day;
      if n > 0 {
        assert ps[|ps| - 1] == p[n - 1].day == entries[n - 1].day <= x;
      }
      assert DayOrder(entries) == if x in ps then ps else ps + [x];
      AddLatestDay(ps, x);
    }
  }

  /** Recording a day no earlier than every recorded one keeps the list strictly
      ascending and makes it the last. */
  lemma AddLatestDay(ps: seq<int>, x: int)
    requires forall i, j :: 0 <= i < j < |ps| ==> ps[i] < ps[j]
    requires |ps| > 0 ==> ps[|ps| - 1] <= x
    ensures var ds := if x in ps then ps else ps + [x];
      && (forall i, j :: 0 <= i < j < |ds| ==> ds[i] < ds[j])
      && |ds| > 0 && ds[|ds| - 1] == x
  {
    if x in ps {
      var t :| 0 <= t < |ps| && ps[t] == x;
      assert ps[t] <= ps[|ps| - 1];
    } else {
      var ds := ps + [x];
      forall i, j | 0 <= i < j < |ds| ensures ds[i] < ds[j] {
        if j == |ps| {
          assert ds[i] == ps[i] != x;
          assert ps[i] <= ps[|ps| - 1];
        }
      }
    }
  }

  // ---------------------------------------------------------------------------
  // The handler

  datatype StatsResult = StatsResult(
    totalJournals: nat,
    streak: nat,
    emotionDistribution: Distribution,
    dailyEmotions: seq<DailyEmotion>)

  const StatsError: ApiError := ApiError(500, "STATS_ERROR")

  /** `windowQuery` stands for the datastore: given the window start it returns the
      user's entries from then on, oldest first. `streakJournals` is the entry days
      the streak query returns. */
  method Get(session: Option<string>, period: Option<string>, nowMs: int,
             windowQuery: int -> Result<seq<Entry>, DbError>,
             streakJournals: seq<int>, today: int) returns (resp: Result<StatsResult, ApiError>)
    ensures session.None? ==> resp == Err(Unauthorized)
    ensures session.Some? && windowQuery(WindowStart(nowMs, period)).Err? ==> resp == Err(StatsError)
    ensures session.Some? && windowQuery(WindowStart(nowMs, period)).Ok? ==> resp.Ok?
    ensures resp.Ok? ==> var entries := windowQuery(WindowStart(nowMs, period)).value;
      && windowQuery(WindowStart(nowMs, period)).Ok?
      && resp.value.totalJournals == |entries|
      && resp.value.totalJournals == resp.value.emotionDistribution.Total()
      && (forall e :: resp.value.emotionDistribution.Get(e) == multiset(EmotionsOf(entries))[e])
      && resp.value.dailyEmotions == DailyEmotions(entries)
      && resp.value.streak == Streak(DaySet(streakJournals), today)
  {
    if session.None? {
      return Err(Unauthorized);
    }
    var startDate := WindowStart(nowMs, period);
    var journals := windowQuery(startDate);
    if journals.Err? {
      return Err(StatsError);
    }
    var entries := journals.value;
    var emotionDistribution := Tally(entries);
    var dailyEmotions := DailyEmotions(entries);
    var streak := CalculateStreak(streakJournals, today);
    return Ok(StatsResult(|entries|, streak, emotionDistribution, dailyEmotions));
  }

  lemma GroupSnoc(s: seq<Entry>, x: Entry)
    ensures Group(s + [x]) == AddEntry(Group(s), x)
  {
    assert (s + [x])[..|s|] == s;
  }

  lemma ExampleGroupStep1(d: int)
    ensures Group([Entry(Joy, d), Entry(Joy, d)]) == [DayBucket(d, [EmotionCount(Joy, 2)])]
  {
    var x := Entry(Joy, d);
    GroupSnoc([], x);
    GroupSnoc([x], x);
    assert [] + [x] == [x] && [x] + [x] == [x, x];
    var g1 := [DayBucket(d, [EmotionCount(Joy, 1)])];
    assert Bump([], Joy) == [EmotionCount(Joy, 1)];
    assert Group([x]) == g1;
    assert FindDay(g1, d) == 0;
    assert FindEmotion([EmotionCount(Joy, 1)], Joy) == 0;
    assert Bump([EmotionCount(Joy, 1)], Joy) == [EmotionCount(Joy, 2)];
  }

  lemma ExampleGroup(d: int)
    ensures Group([Entry(Joy, d), Entry(Joy, d), Entry(Sadness, d + 1)])
         == [DayBucket(d, [EmotionCount(Joy, 2)]), DayBucket(d + 1, [EmotionCount(Sadness, 1)])]
  {
    var x, y := Entry(Joy, d), Entry(Sadness, d + 1);
    ExampleGroupStep1(d);
    GroupSnoc([x, x], y);
    assert [x, x] + [y] == [x, x, y];
    assert FindDay([DayBucket(d, [EmotionCount(Joy, 2)])], d + 1) == 1;
    assert Bump([], Sadness) == [EmotionCount(Sadness, 1)];
  }

  /** Worked example, first half: two joy entries on one day and
      a sadness entry on the next give joy 2, sadness 1 and the rest 0 ... */
  lemma ExampleTally(d: int)
    ensures Tally([Entry(Joy, d), Entry(Joy, d), Entry(Sadness, d + 1)]) == Distribution(2, 1, 0, 0, 0, 0)
  {
    var entries := [Entry(Joy, d), Entry(Joy, d), Entry(Sadness, d + 1)];
    assert entries[..2] == [Entry(Joy, d), Entry(Joy, d)];
    assert entries[..2][..1] == [Entry(Joy, d)];
    assert entries[..2][..1][..0] == [];
  }

  /** ... second half: two daily items, joy with 2 then sadness with 1. */
  lemma ExampleDaily(d: int)
    ensures DailyEmotions([Entry(Joy, d), Entry(Joy, d), Entry(Sadness, d + 1)])
         == [DailyEmotion(d, Joy, 2), DailyEmotion(d + 1, Sadness, 1)]
  {
    ExampleGroup(d);
    assert Dominant([EmotionCount(Joy, 2)]) == EmotionCount(Joy, 2) by {
      assert [EmotionCount(Joy, 2)][..0] == [];
    }
    assert Dominant([EmotionCount(Sadness, 1)]) == EmotionCount(Sadness, 1) by {
      assert [EmotionCount(Sadness, 1)][..0] == [];
    }
  }
}
