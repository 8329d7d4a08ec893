/** `GET /api/usage` (`src/routes/api/usage/+server.ts`): today's usage and the streak. */
module UsageApi {
  import opened Wrappers
  import opened Api
  import opened Accounts
  import opened Streaks

  datatype UsageResponse = UsageResponse(usage: UsageInfo, streak: int)

  const UsageCheckError: ApiError := ApiError(500, "USAGE_CHECK_ERROR")

  /** `query` is the `users` read (its data may be null), `journals` the entry days
      the streak query would return. A read error is answered with 500. */
  method Get(session: Option<string>, query: Result<Option<UserRow>, DbError>, todayKey: string,
             today: int, journals: seq<int>) returns (resp: Result<UsageResponse, ApiError>)
    ensures session.None? ==> resp == Err(Unauthorized)
    ensures session.Some? && query.Err? ==> resp == Err(UsageCheckError)
    ensures session.Some? && query.Ok? ==> resp.Ok?
    ensures resp.Ok? ==> query.Ok? && var row := query.value;
      && resp.value.usage.used == (if row.Some? && row.value.dailyUsageDate == Some(todayKey)
                                   then row.value.dailyUsageCount.GetOr(0) else 0)
      && resp.value.usage == (if row.Some? then DeriveUsage(row.value.dailyUsageCount, row.value.dailyUsageDate, todayKey)
                              else DeriveUsage(None, None, todayKey))
      && resp.value.streak == UsageStreak(row, DaySet(journals), today)
  {
    if session.None? {
      return Err(Unauthorized);
    }
    if query.Err? {
      return Err(UsageCheckError);
    }
    var userData := query.value;
    var usage := if userData.Some? then DeriveUsage(userData.value.dailyUsageCount, userData.value.dailyUsageDate, todayKey)
                 else DeriveUsage(None, None, todayKey);
    var streak := if userData.Some? then userData.value.streakCount.GetOr(0) else 0;
    if !(userData.Some? && userData.value.streakCount.Some? && userData.value.streakCount.value != 0) {
      streak := CalculateStreak(journals, today);
    }
    return Ok(UsageResponse(usage, streak));
  }
}
