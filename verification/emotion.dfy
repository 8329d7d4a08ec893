/** The six emotion categories a journal entry is tagged with (`src/lib/types.ts`). */
module Emotions {
  import opened Wrappers

  datatype Emotion = Joy | Sadness | Anger | Fear | Anxiety | Neutral

  /** The string the datastore and the API use for an emotion. */
  function Name(e: Emotion): string {
    match e
    case Joy => "joy"
    case Sadness => "sadness"
    case Anger => "anger"
    case Fear => "fear"
    case Anxiety => "anxiety"
    case Neutral => "neutral"
  }

  /** Reads an emotion back from its name; any other string is not an emotion. */
  function FromName(s: string): (r: Option<Emotion>)
    ensures r.Some? ==> Name(r.value) == s
  {
    if s == "joy" then Some(Joy)
    else if s == "sadness" then Some(Sadness)
    else if s == "anger" then Some(Anger)
    else if s == "fear" then Some(Fear)
    else if s == "anxiety" then Some(Anxiety)
    else if s == "neutral" then Some(Neutral)
    else None
  }

  /** Every emotion is recognised from its own name, so names are distinct. */
  lemma FromNameOfName(e: Emotion)
    ensures FromName(Name(e)) == Some(e)
  {
  }
}
