/** `/api/journal` (`src/routes/api/journal/+server.ts`): saving an entry (with the
    streak-cache refresh), deleting one, and reading one or a page of them. The
    datastore calls are inputs: the result each call would return. */
module JournalApi {
  import opened Wrappers
  import opened Api
  import opened Streaks
  import opened Accounts

  /** The JSON body of a save request; a missing field is `None`. */
  datatype PostBody = PostBody(
    transcript: Option<string>,
    summary: Option<string>,
    emotion: Option<string>,
    emotionScore: Option<int>,
    scene: Option<string>,
    characterMessage: Option<string>,
    imageUrl: Option<string>,
    audioDuration: Option<real>)

  /** The `journals` row the handler inserts. */
  datatype JournalInsert = JournalInsert(
    userId: string,
    transcript: string,
    summary: string,
    emotion: string,
    emotionScore: int,
    scene: Option<string>,
    characterMessage: Option<string>,
    imageUrl: string,
    audioDuration: real)

  const DbErrorSave: ApiError := ApiError(500, "DB_ERROR")
  const DbErrorNotFound: ApiError := ApiError(404, "DB_ERROR")

  /** `x || 0` on a number: absent or zero reads as zero. */
  function OrZero(x: Option<int>): int {
    if x.Some? && x.value != 0 then x.value else 0
  }

  function OrZeroReal(x: Option<real>): real {
    if x.Some? && x.value != 0.0 then x.value else 0.0
  }

  /** Field validation and defaults: transcript, summary, emotion and image URL must
      be non-empty strings, otherwise the request is rejected with 400; the other
      fields are copied, a falsy score or duration becoming 0. */
  function ValidatePost(userId: string, body: PostBody): (r: Result<JournalInsert, ApiError>)
    ensures r.Err? <==> !Truthy(body.transcript) || !Truthy(body.summary) || !Truthy(body.emotion) || !Truthy(body.imageUrl)
    ensures r.Err? ==> r.error == InvalidInput
    ensures r.Ok? ==> && Some(r.value.transcript) == body.transcript
                      && Some(r.value.summary) == body.summary
                      && Some(r.value.emotion) == body.emotion
                      && Some(r.value.imageUrl) == body.imageUrl
                      && r.value.userId == userId
                      && r.value.scene == body.scene
                      && r.value.characterMessage == body.characterMessage
    ensures r.Ok? ==> (r.value.emotionScore == 0 <==> body.emotionScore.None? || body.emotionScore.value == 0)
    ensures r.Ok? && body.emotionScore.Some? ==> r.value.emotionScore == body.emotionScore.value
    ensures r.Ok? ==> (r.value.audioDuration == 0.0 <==> body.audioDuration.None? || body.audioDuration.value == 0.0)
    ensures r.Ok? && body.audioDuration.Some? ==> r.value.audioDuration == body.audioDuration.value
  {
    if !Truthy(body.transcript) || !Truthy(body.summary) || !Truthy(body.emotion) || !Truthy(body.imageUrl) then
      Err(InvalidInput)
    else
      Ok(JournalInsert(userId, body.transcript.value, body.summary.value, body.emotion.value,
                       OrZero(body.emotionScore), body.scene, body.characterMessage,
                       body.imageUrl.value, OrZeroReal(body.audioDuration)))
  }

  /** What a save request did: its answer, the row it tried to insert (if any; the
      row is stored only when `insertResult` is `Ok`) and the `users` cache write
      (if any). `R` is the datastore's returned row. */
  datatype PostOutcome<R> = PostOutcome(
    response: Result<R, ApiError>,
    attempted: Option<JournalInsert>,
    cacheWrite: Option<CacheUpdate>)

  /** `body` is `None` when the request body is not JSON (the handler's catch-all
      answers 500); `insertResult` is the insert's result; `streakQuery` the entry
      days read by `updateStreakCache`, whose errors the handler swallows. */
  method Post<R>(session: Option<string>, body: Option<PostBody>, insertResult: Result<R, DbError>,
                 streakQuery: Result<seq<int>, DbError>, today: int) returns (out: PostOutcome<R>)
    ensures session.None? ==> out.response == Err(Unauthorized) && out.attempted.None?
    ensures session.Some? && body.None? ==> out.response == Err(InternalError) && out.attempted.None?
    ensures session.Some? && body.Some? && ValidatePost(session.value, body.value).Err? ==>
      out.response == Err(InvalidInput) && out.attempted.None? && out.cacheWrite.None?
    ensures out.attempted.Some? <==> session.Some? && body.Some? && ValidatePost(session.value, body.value).Ok?
    ensures out.attempted.Some? ==> out.attempted == Some(ValidatePost(session.value, body.value).value)
    ensures out.attempted.Some? && insertResult.Err? ==> out.response == Err(DbErrorSave) && out.cacheWrite.None?
    // the save's answer depends only on the insert: the cache refresh cannot fail it
    ensures out.attempted.Some? && insertResult.Ok? ==> out.response == Ok(insertResult.value)
    ensures out.cacheWrite.Some? ==> out.response.Ok? && streakQuery.Ok? && |streakQuery.value| > 0
    ensures out.cacheWrite.Some? ==> out.cacheWrite.value.streakCount == Streak(DaySet(streakQuery.value), today)
    ensures out.attempted.Some? && insertResult.Ok? && streakQuery.Ok? && |streakQuery.value| > 0 ==> out.cacheWrite.Some?
  {
    if session.None? {
      return PostOutcome(Err(Unauthorized), None, None);
    }
    if body.None? {
      return PostOutcome(Err(InternalError), None, None);
    }
    var row := ValidatePost(session.value, body.value);
    if row.Err? {
      return PostOutcome(Err(row.error), None, None);
    }
    if insertResult.Err? {
      return PostOutcome(Err(DbErrorSave), Some(row.value), None);
    }
    var write: Option<CacheUpdate> := None;
    if streakQuery.Ok? {
      write := UpdateStreakCache(streakQuery.value, today);
    }
    return PostOutcome(Ok(insertResult.value), Some(row.value), write);
  }

  /** What a delete request did: its answer and the `(id, user_id)` filter of the
      delete it issued, if any — only the caller's own entry can match. */
  datatype DeleteOutcome = DeleteOutcome(response: Result<(), ApiError>, deleted: Option<(string, string)>)

  function Delete(session: Option<string>, id: Option<string>, deleteResult: Result<(), DbError>): (out: DeleteOutcome)
    ensures session.None? ==> out == DeleteOutcome(Err(Unauthorized), None)
    ensures session.Some? && !Truthy(id) ==> out == DeleteOutcome(Err(InvalidInput), None)
    ensures out.deleted.Some? <==> session.Some? && Truthy(id)
    ensures out.deleted.Some? ==> out.deleted.value == (id.value, session.value)
    ensures out.deleted.Some? ==> (out.response.Ok? <==> deleteResult.Ok?)
    ensures out.deleted.Some? && deleteResult.Err? ==> out.response == Err(DbErrorSave)
  {
    if session.None? then DeleteOutcome(Err(Unauthorized), None)
    else if !Truthy(id) then DeleteOutcome(Err(InvalidInput), None)
    else
      var filter := (id.value, session.value);
      if deleteResult.Err? then DeleteOutcome(Err(DbErrorSave), Some(filter))
      else DeleteOutcome(Ok(()), Some(filter))
  }

  /** A delete leaves the cached streak alone, and the home page goes on trusting it.
      The only entry, on day 0, was saved with a streak of 1 and that day's key as
      last journal date; once it is deleted the page still shows 1 on day 0, while
      the streak of the entries left is 0. */
  lemma StaleCacheAfterDelete()
    ensures var row := UserRow(None, None, Some(Streak({0}, 0)), Some("1970-01-01"), None, None);
      && Streak({0}, 0) == 1
      && Delete(Some("u"), Some("j"), Ok(())).response == Ok(())
      && PageStreak(row, "1970-01-01", "1969-12-31", {}, 0) == 1
      && Streak({}, 0) == 0
  {
    StreakExamples(0);
  }

  /** A delete and the user row after it. */
  datatype RefreshedDelete = RefreshedDelete(outcome: DeleteOutcome, row: UserRow)

  /** The delete with the cache kept in step, as a save keeps it: after a successful
      delete the entries left are queried newest first and the cache columns are
      recomputed from them on day `today`. */
  function DeleteRefreshing(session: Option<string>, id: Option<string>, deleteResult: Result<(), DbError>,
                            row: UserRow, remaining: seq<int>, today: int, key: int -> string): (r: RefreshedDelete)
    ensures r.outcome == Delete(session, id, deleteResult)
    ensures r.outcome.response.Err? ==> r.row == row
    ensures r.outcome.response.Ok? ==> r.row.streakCount == Some(Streak(DaySet(remaining), today))
    ensures r.outcome.response.Ok? && |remaining| == 0 ==> r.row.lastJournalDate.None?
    ensures r.outcome.response.Ok? && |remaining| > 0 ==> r.row.lastJournalDate == Some(key(remaining[0]))
  {
    var outcome := Delete(session, id, deleteResult);
    if outcome.response.Ok? then RefreshedDelete(outcome, RefreshCache(row, remaining, today, key))
    else RefreshedDelete(outcome, row)
  }

  /** After the corrected delete the home page shows the streak of the entries left,
      on the day of the delete and on any later day. The counterexample above is
      thereby repaired: with no entry left the page recomputes and shows 0. */
  lemma DeleteRefreshingSound(session: Option<string>, id: Option<string>, row: UserRow,
                              remaining: seq<int>, written: int, today: int, key: int -> string)
    requires NewestFirst(remaining)
    requires forall i :: 0 <= i < |remaining| ==> remaining[i] <= written
    requires written <= today
    requires forall a, b :: key(a) == key(b) ==> a == b
    requires Delete(session, id, Ok(())).response.Ok?
    ensures var after := DeleteRefreshing(session, id, Ok(()), row, remaining, written, key).row;
      PageStreak(after, key(today), key(today - 1), DaySet(remaining), today) == Streak(DaySet(remaining), today)
  {
    RefreshedCacheSound(row, remaining, written, today, key);
  }

  // ---------------------------------------------------------------------------
  // Reading

  const DefaultLimit: int := 30
  const DefaultOffset: int := 0

  /** The `.range(from, to)` of a list request. `limit` and `offset` are the parsed
      query parameters, `None` when absent or empty. */
  function ListRange(limit: Option<int>, offset: Option<int>): (r: (int, int))
    ensures r.0 == offset.GetOr(DefaultOffset)
    ensures r.1 - r.0 + 1 == limit.GetOr(DefaultLimit)
  {
    var l := limit.GetOr(DefaultLimit);
    var o := offset.GetOr(DefaultOffset);
    (o, o + l - 1)
  }

  function Min(a: int, b: int): int {
    if a <= b then a else b
  }

  /** The datastore's inclusive `range(from, to)` over the ordered result: rows
      `from` to `to`, as many as exist. */
  function RangeRows<R>(rows: seq<R>, from: int, to: int): (page: seq<R>)
    requires 0 <= from
    ensures |page| == if from <= to && from < |rows| then Min(to + 1, |rows|) - from else 0
    ensures forall i :: 0 <= i < |page| ==> page[i] == rows[from + i]
  {
    if from <= to && from < |rows| then rows[from..Min(to + 1, |rows|)] else []
  }

  /** A list request returns the rows `offset .. offset + limit - 1`: exactly `limit`
      rows (30 by default) starting at `offset` (0 by default) when that many exist. */
  lemma ListPageIsWindow<R>(rows: seq<R>, limit: Option<int>, offset: Option<int>)
    requires offset.GetOr(DefaultOffset) >= 0 && limit.GetOr(DefaultLimit) >= 0
    ensures var (from, to) := ListRange(limit, offset);
      var page := RangeRows(rows, from, to);
      && from == offset.GetOr(0)
      && |page| == Min(limit.GetOr(30), if |rows| > from then |rows| - from else 0)
      && forall i :: 0 <= i < |page| ==> page[i] == rows[offset.GetOr(0) + i]
  {
  }

  /** A read request is either for one entry (`id` given) or for a page. */
  datatype ReadResult<R> = One(journal: R) | Page(journals: seq<R>)

  /** `fetchOne` and `fetchPage` stand for the two datastore reads, both already
      restricted to the caller's entries. A failed single read answers 404, a
      failed page read 500. */
  function Get<R>(session: Option<string>, id: Option<string>, limit: Option<int>, offset: Option<int>,
                  fetchOne: string -> Result<R, DbError>,
                  fetchPage: (int, int) -> Result<seq<R>, DbError>): (resp: Result<ReadResult<R>, ApiError>)
    ensures session.None? ==> resp == Err(Unauthorized)
    ensures session.Some? && Truthy(id) ==>
      resp == if fetchOne(id.value).Err? then Err(DbErrorNotFound) else Ok(One(fetchOne(id.value).value))
    ensures session.Some? && !Truthy(id) ==>
      var (from, to) := ListRange(limit, offset);
      resp == if fetchPage(from, to).Err? then Err(DbErrorSave) else Ok(Page(fetchPage(from, to).value))
  {
    if session.None? then Err(Unauthorized)
    else if Truthy(id) then
      match fetchOne(id.value)
      case Err(_) => Err(DbErrorNotFound)
      case Ok(row) => Ok(One(row))
    else
      var (from, to) := ListRange(limit, offset);
      match fetchPage(from, to)
      case Err(_) => Err(DbErrorSave)
      case Ok(rows) => Ok(Page(rows))
  }
}
