/** The home page loader (`load` in `src/routes/+page.server.ts`): it reads the
    user row, derives today's usage and shows the cached streak only while the
    cache is fresh. */
module HomePage {
  import opened Wrappers
  import opened Accounts
  import opened Streaks

  datatype HomeData = HomeData(
    nickname: Option<string>,
    notificationTime: Option<string>,
    usage: UsageInfo,
    streak: int)

  datatype LoadOutcome = Redirect(status: int, location: string) | Page(data: HomeData)

  /** `session` is the signed-in user id, `profile` the `users` row (null when the
      query found none or failed), `todayKey`/`yesterdayKey` the clock's day keys and
      `journals` the entry days the streak query would return. */
  method Load(session: Option<string>, profile: Option<UserRow>, todayKey: string, yesterdayKey: string,
              today: int, journals: seq<int>) returns (out: LoadOutcome)
    ensures session.None? ==> out == Redirect(303, "/login")
    ensures session.Some? && profile.None? ==> out == Redirect(303, "/onboarding")
    ensures session.Some? && profile.Some? ==> out.Page?
    ensures out.Page? ==> profile.Some?
    ensures out.Page? && profile.value.dailyUsageDate == Some(todayKey) ==>
      out.data.usage.used == profile.value.dailyUsageCount.GetOr(0)
    ensures out.Page? && profile.value.dailyUsageDate != Some(todayKey) ==> out.data.usage.used == 0
    ensures out.Page? ==> out.data.usage == DeriveUsage(profile.value.dailyUsageCount, profile.value.dailyUsageDate, todayKey)
    ensures out.Page? ==> out.data.streak == PageStreak(profile.value, todayKey, yesterdayKey, DaySet(journals), today)
    ensures out.Page? ==> out.data.nickname == profile.value.nickname
                          && out.data.notificationTime == profile.value.notificationTime
  {
    if session.None? {
      return Redirect(303, "/login");
    }
    if profile.None? {
      return Redirect(303, "/onboarding");
    }
    var row := profile.value;
    var usage := DeriveUsage(row.dailyUsageCount, row.dailyUsageDate, todayKey);
    var streak := row.streakCount.GetOr(0);
    var lastJournalDate := row.lastJournalDate;
    if lastJournalDate != Some(todayKey) && lastJournalDate != Some(yesterdayKey) {
      streak := CalculateStreak(journals, today);
    }
    return Page(HomeData(row.nickname, row.notificationTime, usage, streak));
  }
}
