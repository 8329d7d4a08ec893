/** Recording-length validation (`validateDuration` in `src/lib/utils/audio.ts`). */
module Audio {
  import opened Wrappers
  import opened Constants

  datatype DurationCheck = DurationCheck(valid: bool, message: Option<string>)

  const TooShortMessage: string := "3초 이상 녹음해주세요"
  const TooLongMessage: string := "5분 이내로 녹음해주세요"

  /** A recording is accepted exactly when it lasts between 3 and 300 seconds,
      both bounds included; a rejection names which bound was missed and an
      acceptance carries no message. */
  function ValidateDuration(seconds: real): (r: DurationCheck)
    ensures r.valid <==> MIN_RECORDING_DURATION as real <= seconds <= MAX_RECORDING_DURATION as real
    ensures r.valid ==> r.message == None
    ensures seconds < MIN_RECORDING_DURATION as real ==> r.message == Some(TooShortMessage)
    ensures seconds > MAX_RECORDING_DURATION as real ==> r.message == Some(TooLongMessage)
  {
    if seconds < 3.0 then DurationCheck(false, Some(TooShortMessage))
    else if seconds > 300.0 then DurationCheck(false, Some(TooLongMessage))
    else DurationCheck(true, None)
  }
}
