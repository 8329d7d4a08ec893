/** `/api/profile` (`src/routes/api/profile/+server.ts`): reading the caller's
    profile, and creating or updating it with a nickname and reminder time. */
module ProfileApi {
  import opened Wrappers
  import opened Api
  import opened Text

  const ProfileError: ApiError := ApiError(500, "PROFILE_ERROR")

  /** The error code the datastore gives when `.single()` finds no row. */
  const NoRowsCode: string := "PGRST116"

  /** A profile read answers `profile: null` when there is no row, and 500 for
      every other datastore error. */
  function Get<P>(session: Option<string>, query: Result<P, DbError>): (resp: Result<Option<P>, ApiError>)
    ensures session.None? ==> resp == Err(Unauthorized)
    ensures session.Some? && query.Ok? ==> resp == Ok(Some(query.value))
    ensures session.Some? && query.Err? ==>
      (resp == Ok(None) <==> query.error.code == NoRowsCode) &&
      (resp == Err(ProfileError) <==> query.error.code != NoRowsCode)
  {
    if session.None? then Err(Unauthorized)
    else match query
      case Ok(data) => Ok(Some(data))
      case Err(e) => if e.code == NoRowsCode then Ok(None) else Err(ProfileError)
  }

  /** The save request's JSON body. */
  datatype ProfileBody = ProfileBody(nickname: Option<string>, notificationTime: Option<string>)

  /** The row the handler upserts (`updated_at`, a clock reading, is left out). */
  datatype ProfileUpsert = ProfileUpsert(id: string, nickname: string, notificationTime: Option<string>)

  datatype PostOutcome<P> = PostOutcome(response: Result<P, ApiError>, upserted: Option<ProfileUpsert>)

  /** `body` is `None` when the request body is not JSON (the catch-all answers 500);
      `upsertResult` is what the upsert would return. A nickname that is missing or
      whitespace only is rejected; otherwise the trimmed nickname is stored and a
      falsy reminder time is stored as null. */
  function Post<P>(session: Option<string>, body: Option<ProfileBody>, upsertResult: Result<P, DbError>): (out: PostOutcome<P>)
    ensures session.None? ==> out == PostOutcome(Err(Unauthorized), None)
    ensures session.Some? && body.None? ==> out == PostOutcome(Err(ProfileError), None)
    ensures session.Some? && body.Some? && (body.value.nickname.None? || IsBlank(body.value.nickname.value)) ==>
      out == PostOutcome(Err(InvalidInput), None)
    ensures out.upserted.Some? <==>
      session.Some? && body.Some? && body.value.nickname.Some? && !IsBlank(body.value.nickname.value)
    ensures out.upserted.Some? ==> var u := out.upserted.value;
      && u.id == session.value
      && u.nickname == Trim(body.value.nickname.value)
      && |u.nickname| > 0 && !IsWhitespace(u.nickname[0]) && !IsWhitespace(u.nickname[|u.nickname| - 1])
      && (u.notificationTime.None? <==> !Truthy(body.value.notificationTime))
      && (u.notificationTime.Some? ==> u.notificationTime == body.value.notificationTime)
    ensures out.upserted.Some? ==>
      out.response == if upsertResult.Ok? then Ok(upsertResult.value) else Err(ProfileError)
  {
    if session.None? then PostOutcome(Err(Unauthorized), None)
    else if body.None? then PostOutcome(Err(ProfileError), None)
    else
      var nickname := body.value.nickname;
      if nickname.None? || |nickname.value| == 0 || |Trim(nickname.value)| == 0 then
        TrimEmptyIffBlank(if nickname.Some? then nickname.value else "");
        PostOutcome(Err(InvalidInput), None)
      else
        TrimEmptyIffBlank(nickname.value);
        var time := if Truthy(body.value.notificationTime) then body.value.notificationTime else None;
        var row := ProfileUpsert(session.value, Trim(nickname.value), time);
        match upsertResult
        case Err(_) => PostOutcome(Err(ProfileError), Some(row))
        case Ok(data) => PostOutcome(Ok(data), Some(row))
  }
}
