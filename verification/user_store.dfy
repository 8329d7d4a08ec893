/** The client-side user store (`src/lib/stores/user.svelte.ts`): an in-memory user
    record mirrored into `localStorage`, modelled as a string-to-string map. Outside
    the browser (server-side rendering) there is no storage and nothing happens. */
module UserStore {
  import opened Wrappers
  import opened Api
  import opened LocalStorage

  const NicknameKey: string := "nickname"
  const NotificationTimeKey: string := "notification_time"
  const OnboardingKey: string := "onboarding_completed"

  datatype UserInfo = UserInfo(nickname: string, notificationTime: Option<string>, onboardingCompleted: bool)

  const DefaultUser: UserInfo := UserInfo("", None, false)

  /** `String(b)` for a boolean. */
  function BoolToString(b: bool): string {
    if b then "true" else "false"
  }

  /** `loadUserFromStorage`: the flag is set only by the exact string `'true'`, a
      missing nickname reads as empty and a missing time as null. */
  function Load(browser: bool, storage: Storage): (u: UserInfo)
    ensures !browser ==> u == DefaultUser
    ensures browser ==> (u.onboardingCompleted <==> GetItem(storage, OnboardingKey) == Some("true"))
    ensures browser ==> u.nickname == GetItem(storage, NicknameKey).GetOr("")
    ensures browser ==> u.notificationTime == GetItem(storage, NotificationTimeKey)
  {
    if !browser then DefaultUser
    else
      var onboardingCompleted := GetItem(storage, OnboardingKey) == Some("true");
      var nickname := GetItem(storage, NicknameKey);
      var nick := if Truthy(nickname) then nickname.value else "";
      UserInfo(nick, GetItem(storage, NotificationTimeKey), onboardingCompleted)
  }

  /** `Partial<UserInfo>`: `None` is an `undefined` field; a present notification
      time may itself be null. */
  datatype UserUpdate = UserUpdate(
    nickname: Option<string>,
    notificationTime: Option<Option<string>>,
    onboardingCompleted: Option<bool>)

  datatype Stored = Stored(user: UserInfo, storage: Storage)

  /** Keys the store never touches keep their values. */
  ghost predicate OthersUnchanged(before: Storage, after: Storage) {
    forall k :: k != NicknameKey && k != NotificationTimeKey && k != OnboardingKey ==>
      GetItem(after, k) == GetItem(before, k)
  }

  /** `saveUser`: each field that is not `undefined` is written to memory and to
      storage; a falsy notification time removes its key instead. */
  function Save(browser: bool, user: UserInfo, storage: Storage, info: UserUpdate): (r: Stored)
    ensures !browser ==> r == Stored(user, storage)
    ensures OthersUnchanged(storage, r.storage)
    ensures browser && info.nickname.None? ==>
      r.user.nickname == user.nickname && GetItem(r.storage, NicknameKey) == GetItem(storage, NicknameKey)
    ensures browser && info.nickname.Some? ==>
      r.user.nickname == info.nickname.value && GetItem(r.storage, NicknameKey) == info.nickname
    ensures browser && info.notificationTime.None? ==>
      r.user.notificationTime == user.notificationTime
      && GetItem(r.storage, NotificationTimeKey) == GetItem(storage, NotificationTimeKey)
    ensures browser && info.notificationTime.Some? ==> r.user.notificationTime == info.notificationTime.value
    ensures browser && info.notificationTime.Some? && Truthy(info.notificationTime.value) ==>
      GetItem(r.storage, NotificationTimeKey) == info.notificationTime.value
    ensures browser && info.notificationTime.Some? && !Truthy(info.notificationTime.value) ==>
      NotificationTimeKey !in r.storage
    ensures browser && info.onboardingCompleted.None? ==>
      r.user.onboardingCompleted == user.onboardingCompleted
      && GetItem(r.storage, OnboardingKey) == GetItem(storage, OnboardingKey)
    ensures browser && info.onboardingCompleted.Some? ==>
      r.user.onboardingCompleted == info.onboardingCompleted.value
      && GetItem(r.storage, OnboardingKey) == Some(BoolToString(info.onboardingCompleted.value))
  {
    if !browser then Stored(user, storage)
    else
      var s1 := if info.nickname.Some?
        then Stored(user.(nickname := info.nickname.value), storage[NicknameKey := info.nickname.value])
        else Stored(user, storage);
      var s2 := if info.notificationTime.Some?
        then
          var t := info.notificationTime.value;
          Stored(s1.user.(notificationTime := t),
                 if Truthy(t) then s1.storage[NotificationTimeKey := t.value] else s1.storage - {NotificationTimeKey})
        else s1;
      if info.onboardingCompleted.Some?
        then
          var b := info.onboardingCompleted.value;
          Stored(s2.user.(onboardingCompleted := b), s2.storage[OnboardingKey := BoolToString(b)])
        else s2
  }

  /** `clearUser`: the defaults in memory and none of the three keys in storage. */
  function Clear(browser: bool, user: UserInfo, storage: Storage): (r: Stored)
    ensures !browser ==> r == Stored(user, storage)
    ensures browser ==> r.user == DefaultUser
    ensures browser ==> NicknameKey !in r.storage && NotificationTimeKey !in r.storage && OnboardingKey !in r.storage
    ensures OthersUnchanged(storage, r.storage)
  {
    if !browser then Stored(user, storage)
    else Stored(DefaultUser, storage - {NicknameKey} - {NotificationTimeKey} - {OnboardingKey})
  }

  /** A notification time as it survives storage: an empty one is not stored. */
  function Persisted(t: Option<string>): Option<string> {
    if Truthy(t) then t else None
  }

  /** Memory and storage agree, up to an empty notification time reading back as null. */
  ghost predicate InSync(user: UserInfo, storage: Storage) {
    var loaded := Load(true, storage);
    && loaded.nickname == user.nickname
    && loaded.onboardingCompleted == user.onboardingCompleted
    && Persisted(loaded.notificationTime) == Persisted(user.notificationTime)
  }

  /** Saving a full record and loading it back returns the nickname and the flag,
      and the notification time when it is truthy (null otherwise). */
  lemma SaveThenLoad(user: UserInfo, storage: Storage, nickname: string, time: Option<string>, done: bool)
    ensures Load(true, Save(true, user, storage, UserUpdate(Some(nickname), Some(time), Some(done))).storage)
         == UserInfo(nickname, Persisted(time), done)
  {
  }

  /** Every save keeps memory and storage in step, and so does a clear. */
  lemma SaveKeepsInSync(user: UserInfo, storage: Storage, info: UserUpdate)
    requires InSync(user, storage)
    ensures var r := Save(true, user, storage, info); InSync(r.user, r.storage)
    ensures var r := Clear(true, user, storage); InSync(r.user, r.storage) && Load(true, r.storage) == DefaultUser
  {
  }
}
