/** The journal-creation progress store (`journalCreationStore` in
    `src/lib/stores/journalCreation.svelte.ts`). Each operation is a pure update of
    the store's record; the store itself is the sequence of records. */
module JournalCreation {
  import opened Wrappers
  import opened Emotions

  datatype PageStatus = Idle | Transcribing | Analyzing | Generating | Preview | Saving | Completed | Error

  /** The steps an error can be attributed to (`null` is `None`). */
  datatype ErrorStep = StepTranscribing | StepAnalyzing | StepGenerating | StepSaving

  /** `AnalysisResult` from the analysis endpoint. */
  datatype AnalysisResult = AnalysisResult(scene: string, emotion: Emotion, emotionScore: int,
                                           summary: string, characterMessage: string)

  /** The last recording's bytes (a browser `Blob`). */
  type Blob = seq<bv8>

  datatype State = State(
    pageStatus: PageStatus,
    errorStep: Option<ErrorStep>,
    errorMessage: string,
    transcript: string,
    audioDuration: real,
    analysisResult: Option<AnalysisResult>,
    imageUrl: string,
    savedJournalId: Option<string>,
    lastRecordingBlob: Option<Blob>)

  const InitialState: State := State(Idle, None, "", "", 0.0, None, "", None, None)

  /** A step of the pipeline is running. */
  predicate IsProcessing(s: State) {
    s.pageStatus != Idle && s.pageStatus != Preview && s.pageStatus != Completed && s.pageStatus != Error
  }

  lemma IsProcessingIff(s: State)
    ensures IsProcessing(s) <==> s.pageStatus in {Transcribing, Analyzing, Generating, Saving}
  {
  }

  /** The record's fields other than the status, the error fields and the saved id. */
  predicate SameWork(a: State, b: State) {
    && a.transcript == b.transcript
    && a.audioDuration == b.audioDuration
    && a.analysisResult == b.analysisResult
    && a.imageUrl == b.imageUrl
    && a.lastRecordingBlob == b.lastRecordingBlob
  }

  function SetStatus(s: State, status: PageStatus): (r: State)
    ensures r.pageStatus == status
    ensures SameWork(r, s) && r.errorStep == s.errorStep && r.errorMessage == s.errorMessage
    ensures r.savedJournalId == s.savedJournalId
  {
    s.(pageStatus := status)
  }

  /** Enters the error state for a step; the work done so far is kept. */
  function SetError(s: State, step: Option<ErrorStep>, message: string): (r: State)
    ensures r.pageStatus == Error && !IsProcessing(r)
    ensures r.errorStep == step && r.errorMessage == message
    ensures SameWork(r, s) && r.savedJournalId == s.savedJournalId
  {
    s.(pageStatus := Error, errorStep := step, errorMessage := message)
  }

  function SetTranscript(s: State, transcript: string, duration: real): (r: State)
    ensures r.transcript == transcript && r.audioDuration == duration
    ensures r == s.(transcript := r.transcript, audioDuration := r.audioDuration)
  {
    s.(transcript := transcript, audioDuration := duration)
  }

  function SetAnalysis(s: State, result: AnalysisResult): (r: State)
    ensures r.analysisResult == Some(result)
    ensures r == s.(analysisResult := r.analysisResult)
  {
    s.(analysisResult := Some(result))
  }

  function SetImage(s: State, url: string): (r: State)
    ensures r.imageUrl == url
    ensures r == s.(imageUrl := r.imageUrl)
  {
    s.(imageUrl := url)
  }

  function SetPreview(s: State): (r: State)
    ensures r.pageStatus == Preview && !IsProcessing(r)
    ensures r == s.(pageStatus := r.pageStatus)
  {
    s.(pageStatus := Preview)
  }

  /** Records the saved entry's id and leaves no error behind. */
  function SetCompleted(s: State, journalId: string): (r: State)
    ensures r.pageStatus == Completed && !IsProcessing(r)
    ensures r.savedJournalId == Some(journalId)
    ensures r.errorStep == None && r.errorMessage == ""
    ensures SameWork(r, s)
  {
    s.(pageStatus := Completed, savedJournalId := Some(journalId), errorStep := None, errorMessage := "")
  }

  function SetRecordingBlob(s: State, blob: Option<Blob>): (r: State)
    ensures r.lastRecordingBlob == blob
    ensures r == s.(lastRecordingBlob := r.lastRecordingBlob)
  {
    s.(lastRecordingBlob := blob)
  }

  function Reset(s: State): (r: State)
    ensures r == InitialState
    ensures r.pageStatus == Idle && !IsProcessing(r)
  {
    InitialState
  }

  /** Clears the message only: the status and the failed step stay for a retry. */
  function ClearError(s: State): (r: State)
    ensures r.errorMessage == ""
    ensures r.pageStatus == s.pageStatus && r.errorStep == s.errorStep
    ensures r == s.(errorMessage := "")
  {
    s.(errorMessage := "")
  }

  /** After a failure and a `clearError`, the store still says which step failed
      and is not processing; a reset then forgets everything. */
  lemma ErrorThenClear(s: State, step: ErrorStep, message: string)
    ensures var t := ClearError(SetError(s, Some(step), message));
      && t.pageStatus == Error && t.errorStep == Some(step) && t.errorMessage == ""
      && !IsProcessing(t)
      && SameWork(t, s)
      && Reset(t) == InitialState
  {
  }

  /** Completing after an error clears both error fields, whatever they held. */
  lemma CompletedAfterError(s: State, step: ErrorStep, message: string, id: string)
    ensures var t := SetCompleted(SetError(s, Some(step), message), id);
      t.errorStep == None && t.errorMessage == "" && t.savedJournalId == Some(id)
  {
  }
}
