/** The image-generation prompt builder (`src/lib/prompts/image.ts`): a mood phrase
    chosen by emotion name and a fixed multi-line template around the scene text. */
module ImagePrompt {
  import opened Wrappers
  import opened Text
  import opened Emotions

  /** The `MOOD_STYLES` entries. */
  const JoyStyle: string := "bright cheerful colors, warm golden sunlight streaming through windows, happy uplifting atmosphere, vibrant spring colors, clear blue sky"
  const SadnessStyle: string := "soft blue and grey tones, gentle melancholy, rain falling softly, cozy indoor atmosphere, warm light contrasting cool exterior, comforting solitude"
  const AngerStyle: string := "dramatic warm orange and red tones, intense sunset or fiery sky, expressive clouds, dynamic energy, bold contrasts"
  const FearStyle: string := "deep purple and dark blue twilight, mysterious nighttime, gentle moonlight, comforting warm indoor lights, stars in sky"
  const AnxietyStyle: string := "muted pastel colors, soft diffused lighting, worried but hopeful mood, gentle shadows, foggy or hazy atmosphere"
  const NeutralStyle: string := "balanced warm natural colors, peaceful calm atmosphere, relaxed mood, soft daylight, gentle harmony"

  /** The `MOOD_STYLES` table. */
  function Style(e: Emotion): string {
    match e
    case Joy => JoyStyle
    case Sadness => SadnessStyle
    case Anger => AngerStyle
    case Fear => FearStyle
    case Anxiety => AnxietyStyle
    case Neutral => NeutralStyle
  }

  lemma StyleLengths()
    ensures |JoyStyle| == 137 && |SadnessStyle| == 147 && |AngerStyle| == 114
    ensures |FearStyle| == 119 && |AnxietyStyle| == 111 && |NeutralStyle| == 99
  {
  }

  /** Each emotion has its own mood phrase. */
  lemma StylesDistinct(e1: Emotion, e2: Emotion)
    requires e1 != e2
    ensures Style(e1) != Style(e2)
  {
    // The six phrases have six different lengths.
    StyleLengths();
  }

  // ---------------------------------------------------------------------------
  // The lookup as written: a plain object indexed by an arbitrary string

  /** What a template literal renders for `({})[name]` when `name` is not an own key
      of the object but a property every plain object inherits from
      `Object.prototype`: the native function's source text, or for `__proto__` the
      prototype object itself. */
  function InheritedProperty(name: string): Option<string> {
    if name == "__proto__" then Some("[object Object]")
    else if name == "constructor" then Some("function Object() { [native code] }")
    else if || name == "toString" || name == "toLocaleString" || name == "valueOf"
            || name == "hasOwnProperty" || name == "isPrototypeOf" || name == "propertyIsEnumerable"
            || name == "__defineGetter__" || name == "__defineSetter__"
            || name == "__lookupGetter__" || name == "__lookupSetter__"
    then Some("function " + name + "() { [native code] }")
    else None
  }

  /** `MOOD_STYLES[emotion] || MOOD_STYLES.neutral` as JavaScript evaluates it: an
      inherited property is found by the lookup and, being truthy, wins over the
      fallback. */
  function MoodAsWritten(emotion: string): (mood: string)
    ensures FromName(emotion).Some? ==> mood == Style(FromName(emotion).value)
    ensures FromName(emotion).None? && InheritedProperty(emotion).None? ==> mood == Style(Neutral)
  {
    match FromName(emotion)
    case Some(e) => Style(e)
    case None =>
      match InheritedProperty(emotion)
      case Some(inherited) => inherited
      case None => Style(Neutral)
  }

  /** `"toString"` is not one of the six emotions, yet its mood is none of the six
      phrases: the fallback to neutral does not happen. */
  lemma PrototypeNameEscapesFallback()
    ensures FromName("toString").None?
    ensures MoodAsWritten("toString") == "function toString() { [native code] }"
    ensures forall e :: MoodAsWritten("toString") != Style(e)
  {
    assert FromName("toString").None?;
    assert InheritedProperty("toString") == Some("function " + "toString" + "() { [native code] }");
    ToStringSourceText();
    ShorterThanEveryStyle(MoodAsWritten("toString"));
  }

  /** The native source text `InheritedProperty` assembles for `toString`. */
  lemma ToStringSourceText()
    ensures "function " + "toString" + "() { [native code] }" == "function toString() { [native code] }"
  {
  }

  /** No phrase shorter than the shortest mood phrase is a mood phrase. */
  lemma ShorterThanEveryStyle(m: string)
    requires |m| < 99
    ensures forall e :: m != Style(e)
  {
    StyleLengths();
  }

  // ---------------------------------------------------------------------------
  // The corrected lookup and the prompt

  /** The mood phrase with the evidently intended fallback: the six emotion names
      select their own phrase and every other string selects the neutral one. */
  function Mood(emotion: string): (mood: string)
    ensures FromName(emotion).Some? ==> mood == Style(FromName(emotion).value)
    ensures FromName(emotion).None? ==> mood == Style(Neutral)
    ensures exists e :: mood == Style(e)
  {
    match FromName(emotion)
    case Some(e) => Style(e)
    case None => Style(Neutral)
  }

  /** Every emotion's own name selects that emotion's phrase. */
  lemma MoodOfName(e: Emotion)
    ensures Mood(Name(e)) == Style(e)
  {
    FromNameOfName(e);
  }

  /** The corrected and the written lookup agree on every string except the names
      `Object.prototype` supplies. */
  lemma MoodAgreesAwayFromPrototype(emotion: string)
    requires InheritedProperty(emotion).None?
    ensures MoodAsWritten(emotion) == Mood(emotion)
  {
  }

  /** The words the prompt always starts with, and those it always ends with. */
  const Lead: string := "Studio Ghibli style illustration"
  const Tail: string := "environment and atmosphere."

  const Opening: string := Lead + OpeningRest
  const OpeningRest: string := ", like a movie still from a Hayao Miyazaki film. Scenic landscape or cozy interior scene with NO people, NO characters, NO animals."
  const SceneLabel: string := "Scene Description: "
  const MoodLabel: string := "Mood & Atmosphere: "
  const ArtStyle: string := "Art Style: Hand-painted anime aesthetic, masterful use of light and shadow, rich environmental details, dreamy nostalgic atmosphere, vibrant yet soothing color palette, cinematic composition, depth and perspective."
  const Technical: string := "Technical: High quality, detailed background art, painterly textures, soft gradients, atmospheric lighting effects."
  const Closing: string := ClosingHead + Tail
  const ClosingHead: string := "IMPORTANT: Absolutely NO text, NO words, NO people, NO characters, NO animals in the image. Focus purely on "

  /** The template's text between its leading newline and its trailing newline and
      indentation. */
  function Body(scene: string, mood: string): string {
    Opening + "\n\n" + SceneLabel + scene + "\n\n" + MoodLabel + mood + Remainder
  }

  /** The template's fixed paragraphs after the mood. */
  const Remainder: string := "\n\n" + ArtStyle + "\n\n" + Technical + "\n\n" + Closing

  /** The template literal before `.trim()`. */
  function Template(scene: string, mood: string): string {
    "\n" + Body(scene, mood) + "\n\t"
  }

  /** The layout of the template for any fixed texts: each piece sits at the
      offset the lengths of the pieces before it give. Stated over arbitrary
      strings so that the proof never looks inside the fixed texts. */
  lemma {:induction false} FilledLayout(opening: string, sceneLabel: string, scene: string,
                                        moodLabel: string, mood: string, remainder: string)
    ensures var body := opening + "\n\n" + sceneLabel + scene + "\n\n" + moodLabel + mood + remainder;
      && |body| == |opening| + 2 + |sceneLabel| + |scene| + 2 + |moodLabel| + |mood| + |remainder|
      && body[..|opening|] == opening
      && body[|opening| + 2..|opening| + 2 + |sceneLabel| + |scene|] == sceneLabel + scene
      && body[|opening| + 2 + |sceneLabel| + |scene| + 2..|body| - |remainder|] == moodLabel + mood
      && body[|body| - |remainder|..] == remainder
  {
    var body := opening + "\n\n" + sceneLabel + scene + "\n\n" + moodLabel + mood + remainder;
    var sceneAt := |opening| + 2;
    var moodAt := sceneAt + |sceneLabel| + |scene| + 2;
    assert forall k :: 0 <= k < |sceneLabel| + |scene| ==> body[sceneAt + k] == (sceneLabel + scene)[k];
    assert forall k :: 0 <= k < |moodLabel| + |mood| ==> body[moodAt + k] == (moodLabel + mood)[k];
  }

  /** Taking a prefix of a prefix. */
  lemma PrefixOfPrefix(s: string, t: string, u: string)
    requires |t| <= |s| && s[..|t|] == t
    requires |u| <= |t| && t[..|u|] == u
    ensures s[..|u|] == u
  {
    assert forall k :: 0 <= k < |u| ==> s[k] == t[k];
  }

  /** Taking a suffix of a suffix. */
  lemma SuffixOfSuffix(s: string, t: string, u: string)
    requires |t| <= |s| && s[|s| - |t|..] == t
    requires |u| <= |t| && t[|t| - |u|..] == u
    ensures s[|s| - |u|..] == u
  {
    assert forall k :: |s| - |u| <= k < |s| ==> s[k] == t[k - (|s| - |t|)];
  }

  /** The body starts with the lead words. */
  lemma BodyStart(scene: string, mood: string)
    ensures var body := Body(scene, mood); |body| >= |Lead| && body[..|Lead|] == Lead
  {
    FilledLayout(Opening, SceneLabel, scene, MoodLabel, mood, Remainder);
    FixedEnds();
    PrefixOfPrefix(Body(scene, mood), Opening, Lead);
  }

  /** The body ends with the tail words. */
  lemma BodyEnd(scene: string, mood: string)
    ensures var body := Body(scene, mood); |body| >= |Tail| && body[|body| - |Tail|..] == Tail
  {
    FilledLayout(Opening, SceneLabel, scene, MoodLabel, mood, Remainder);
    FixedEnds();
    SuffixOfSuffix(Body(scene, mood), Remainder, Tail);
  }

  /** The scene and the mood phrase sit right after their labels. */
  lemma BodySlots(scene: string, mood: string)
    ensures |Body(scene, mood)| == |Opening| + 2 + |SceneLabel| + |scene| + 2 + |MoodLabel| + |mood| + |Remainder|
    ensures var body, at := Body(scene, mood), |Opening| + 2;
      body[at..at + |SceneLabel| + |scene|] == SceneLabel + scene
    ensures var body, at := Body(scene, mood), |Opening| + 2 + |SceneLabel| + |scene| + 2;
      body[at..at + |MoodLabel| + |mood|] == MoodLabel + mood
  {
    FilledLayout(Opening, SceneLabel, scene, MoodLabel, mood, Remainder);
  }

  /** The opening paragraph starts with the lead words and the fixed text after
      the mood ends with the tail words. */
  lemma FixedEnds()
    ensures |Opening| >= |Lead| && Opening[..|Lead|] == Lead
    ensures |Remainder| >= |Tail| && Remainder[|Remainder| - |Tail|..] == Tail
  {
    var closingFront := "\n\n" + ArtStyle + "\n\n" + Technical + "\n\n" + ClosingHead;
    assert Remainder == closingFront + Tail;
  }

  /** Trimming the template removes exactly its leading newline and trailing
      newline and tab. */
  lemma TrimTemplate(scene: string, mood: string)
    ensures Trim(Template(scene, mood)) == Body(scene, mood)
  {
    var body := Body(scene, mood);
    BodyStart(scene, mood);
    BodyEnd(scene, mood);
    assert body[0] == Lead[0] == 'S';
    assert body[|body| - 1] == Tail[|Tail| - 1] == '.';
    TrimOfPadded("\n", body, "\n\t");
  }

  /** The template literal filled with a scene and a mood phrase, then trimmed.
      Trimming removes exactly the template's own outer whitespace, whatever the
      scene holds. */
  function Fill(scene: string, mood: string): (prompt: string)
    ensures prompt == Body(scene, mood)
  {
    TrimTemplate(scene, mood);
    Trim(Template(scene, mood))
  }

  /** Every prompt starts with the fixed opening words ... */
  lemma PromptStart(scene: string, mood: string)
    ensures var prompt := Fill(scene, mood);
      |prompt| >= |Lead| && prompt[..|Lead|] == Lead
  {
    BodyStart(scene, mood);
  }

  /** ... and ends with the fixed closing words. */
  lemma PromptEnd(scene: string, mood: string)
    ensures var prompt := Fill(scene, mood);
      |prompt| >= |Tail| && prompt[|prompt| - |Tail|..] == Tail
  {
    BodyEnd(scene, mood);
  }

  /** The scene appears verbatim after its label, right after the opening
      paragraph, and the mood phrase after its label, right after the scene
      paragraph. */
  lemma PromptSlots(scene: string, mood: string)
    ensures var prompt, at := Fill(scene, mood), |Opening| + 2;
      && |prompt| >= at + |SceneLabel| + |scene|
      && prompt[at..at + |SceneLabel| + |scene|] == SceneLabel + scene
    ensures var prompt, at := Fill(scene, mood), |Opening| + 2 + |SceneLabel| + |scene| + 2;
      && |prompt| >= at + |MoodLabel| + |mood|
      && prompt[at..at + |MoodLabel| + |mood|] == MoodLabel + mood
  {
    BodySlots(scene, mood);
  }

  /** The layout every prompt has: it starts with the lead words and ends with the
      tail words, the scene follows its label right after the opening paragraph, and
      the mood phrase follows its label right after the scene paragraph. */
  predicate Laid(prompt: string, scene: string, mood: string) {
    var sceneAt := |Opening| + 2;
    var moodAt := sceneAt + |SceneLabel| + |scene| + 2;
    && |prompt| >= |Lead| && prompt[..|Lead|] == Lead
    && |prompt| >= |Tail| && prompt[|prompt| - |Tail|..] == Tail
    && |prompt| >= sceneAt + |SceneLabel| + |scene|
    && prompt[sceneAt..sceneAt + |SceneLabel| + |scene|] == SceneLabel + scene
    && |prompt| >= moodAt + |MoodLabel| + |mood|
    && prompt[moodAt..moodAt + |MoodLabel| + |mood|] == MoodLabel + mood
  }

  /** Every filled template has the prompt layout. */
  lemma FillLaid(scene: string, mood: string)
    ensures Laid(Fill(scene, mood), scene, mood)
  {
    PromptStart(scene, mood);
    PromptEnd(scene, mood);
    PromptSlots(scene, mood);
  }

  /** `buildImagePrompt(scene, emotion)` as written: the mood paragraph is filled
      by the lookup as JavaScript evaluates it. */
  function BuildImagePromptAsWritten(scene: string, emotion: string): (prompt: string)
    ensures Laid(prompt, scene, MoodAsWritten(emotion))
  {
    FillLaid(scene, MoodAsWritten(emotion));
    Fill(scene, MoodAsWritten(emotion))
  }

  /** `buildImagePrompt(scene, emotion)` with the corrected lookup. */
  function BuildImagePromptCorrected(scene: string, emotion: string): (prompt: string)
    ensures Laid(prompt, scene, Mood(emotion))
  {
    FillLaid(scene, Mood(emotion));
    Fill(scene, Mood(emotion))
  }

  /** The mood paragraph of `buildImagePrompt` as written holds whatever the
      written lookup gives for the emotion: the emotion's own phrase for one of the
      six names, the inherited property's text for a name `Object.prototype`
      supplies, and the neutral phrase for any other string. */
  lemma PromptMood(scene: string, emotion: string)
    ensures var prompt, mood := BuildImagePromptAsWritten(scene, emotion), MoodAsWritten(emotion);
      var at := |Opening| + 2 + |SceneLabel| + |scene| + 2;
      && |prompt| >= at + |MoodLabel| + |mood|
      && prompt[at..at + |MoodLabel| + |mood|] == MoodLabel + mood
  {
    PromptSlots(scene, MoodAsWritten(emotion));
  }

  /** The mood paragraph of the corrected builder holds the phrase `Mood` picks for
      the emotion: its own phrase for one of the six names, the neutral phrase for
      any other string. */
  lemma PromptMoodCorrected(scene: string, emotion: string)
    ensures var prompt, mood := BuildImagePromptCorrected(scene, emotion), Mood(emotion);
      var at := |Opening| + 2 + |SceneLabel| + |scene| + 2;
      && |prompt| >= at + |MoodLabel| + |mood|
      && prompt[at..at + |MoodLabel| + |mood|] == MoodLabel + mood
  {
    PromptSlots(scene, Mood(emotion));
  }

  /** Every mood phrase is at least as long as the neutral one. */
  lemma StyleAtLeastNeutral(e: Emotion)
    ensures |Style(e)| >= 99
  {
    StyleLengths();
  }

  /** The prompt built as written for `"toString"` is no prompt the corrected
      builder produces for the same scene, whatever emotion string it is given: the
      mood paragraph is shorter than every mood phrase. */
  lemma PrototypePromptDiffers(scene: string, other: string)
    ensures BuildImagePromptAsWritten(scene, "toString") != BuildImagePromptCorrected(scene, other)
  {
    var written, corrected := MoodAsWritten("toString"), Mood(other);
    PrototypeNameEscapesFallback();
    assert |written| == 37;
    var e :| corrected == Style(e);
    StyleAtLeastNeutral(e);
    BodySlots(scene, written);
    BodySlots(scene, corrected);
  }

  /** Away from the names `Object.prototype` supplies, the builder as written and
      the corrected builder give the same prompt. */
  lemma BuildersAgreeAwayFromPrototype(scene: string, emotion: string)
    requires InheritedProperty(emotion).None?
    ensures BuildImagePromptAsWritten(scene, emotion) == BuildImagePromptCorrected(scene, emotion)
  {
    MoodAgreesAwayFromPrototype(emotion);
  }
}
