/**
  The status projections the dashboard shows for a recording: its display
  title, whether it is still being processed, whether it failed, and the
  status line under it.
*/
module RecordingHelpers {

  import opened Js
  import opened RecordingStatus

  const TitleWorking := "Transcribing & Summarizing..."
  const TitleFailed := "Processing Failed"
  const TitleUntitled := "Untitled Recording"

  /**
    `getRecordingDisplayTitle`: work in progress outranks failure, failure
    outranks the recording's own title, and a blank title is replaced.
  */
  function DisplayTitle(transcription: Status, summary: Status, title: Option<string>): (r: string)
    ensures transcription == Processing || summary == Processing ==> r == TitleWorking
    ensures transcription != Processing && summary != Processing && (transcription == Failed || summary == Failed) ==>
      r == TitleFailed
    ensures transcription !in {Processing, Failed} && summary !in {Processing, Failed} ==>
      (title.Some? && Trim(title.value) != "" ==> r == title.value)
      && (title.None? || Trim(title.value) == "" ==> r == TitleUntitled)
  {
    if transcription == Processing || summary == Processing then TitleWorking
    else if transcription == Failed || summary == Failed then TitleFailed
    else if title.Some? && Trim(title.value) != "" then title.value
    else TitleUntitled
  }

  /** The displayed title is never blank. */
  lemma DisplayTitleNonBlank(transcription: Status, summary: Status, title: Option<string>)
    ensures Trim(DisplayTitle(transcription, summary, title)) != ""
  {
    if transcription == Processing || summary == Processing {
      NonBlankFromFirst(TitleWorking);
    } else if transcription == Failed || summary == Failed {
      NonBlankFromFirst(TitleFailed);
    } else if title.None? || Trim(title.value) == "" {
      NonBlankFromFirst(TitleUntitled);
    }
  }

  lemma NonBlankFromFirst(s: string)
    requires |s| > 0 && !IsJsWhiteSpace(s[0])
    ensures Trim(s) != ""
  {
  }

  /** A string with a non-white-space character keeps one after trimming. */
  lemma TrimNonEmpty(s: string)
    requires Trim(s) != ""
    ensures Trim(s) != "" && exists i :: 0 <= i < |s| && !IsJsWhiteSpace(s[i])
  {
  }

  /** `isRecordingProcessing`: a pending or running transcription, or a running summary. */
  predicate IsProcessing(transcription: Status, summary: Status) {
    transcription == Processing || transcription == Pending || summary == Processing
  }

  /** `hasRecordingFailed`. */
  predicate HasFailed(transcription: Status, summary: Status) {
    transcription == Failed || summary == Failed
  }

  /** A summary waiting on a finished transcription is not "processing". */
  lemma SummaryPendingAloneIsIdle()
    ensures !IsProcessing(Completed, Pending)
    ensures IsProcessing(Pending, Pending) && IsProcessing(Completed, Processing)
  {
  }

  /** The title and the two flags agree: a working title means processing, and a settled failure shows as failed. */
  lemma TitleAgreesWithFlags(transcription: Status, summary: Status, title: Option<string>)
    ensures transcription == Processing || summary == Processing ==>
      IsProcessing(transcription, summary) && DisplayTitle(transcription, summary, title) == TitleWorking
    ensures HasFailed(transcription, summary) && !IsProcessing(transcription, summary) ==>
      DisplayTitle(transcription, summary, title) == TitleFailed
    ensures !HasFailed(transcription, summary) && !IsProcessing(transcription, summary) && title.Some? && Trim(title.value) != "" ==>
      DisplayTitle(transcription, summary, title) == title.value
  {
  }

  /**
    A pending transcription counts as processing, yet the title only reacts
    to a running one: the recording's own title is shown meanwhile.
  */
  lemma PendingShowsOwnTitle()
    ensures IsProcessing(Pending, Pending)
    ensures DisplayTitle(Pending, Pending, Some("Standup")) == "Standup"
  {
    assert !IsJsWhiteSpace("Standup"[0]);
  }

  const MessageTranscribing := "Transcribing audio..."
  const MessageSummarizing := "Generating summary..."
  const MessageTranscriptionFailed := "Transcription failed. Try regenerating."
  const MessageSummaryFailed := "Summary generation failed. Try regenerating."
  const MessageProcessing := "Processing..."

  /**
    `getRecordingStatusMessage`: a running transcription, then a running
    summary, then a failed transcription, then a failed summary; no message
    once both are complete, and a generic one otherwise.
  */
  function StatusMessage(transcription: Status, summary: Status): (r: Option<string>)
    ensures r.None? <==> transcription == Completed && summary == Completed
    ensures transcription == Processing ==> r == Some(MessageTranscribing)
    ensures transcription != Processing && summary == Processing ==> r == Some(MessageSummarizing)
    ensures transcription == Failed && summary != Processing ==> r == Some(MessageTranscriptionFailed)
    ensures transcription !in {Processing, Failed} && summary == Failed ==> r == Some(MessageSummaryFailed)
    ensures r == Some(MessageProcessing) <==>
      transcription !in {Processing, Failed} && summary !in {Processing, Failed}
      && !(transcription == Completed && summary == Completed)
  {
    if transcription == Processing then Some(MessageTranscribing)
    else if summary == Processing then Some(MessageSummarizing)
    else if transcription == Failed then Some(MessageTranscriptionFailed)
    else if summary == Failed then Some(MessageSummaryFailed)
    else if transcription == Completed && summary == Completed then None
    else Some(MessageProcessing)
  }

  /** While a recording is processing and nothing failed, the status line is a progress message. */
  lemma MessageWhileProcessing(transcription: Status, summary: Status)
    requires IsProcessing(transcription, summary) && !HasFailed(transcription, summary)
    ensures StatusMessage(transcription, summary).Some?
    ensures StatusMessage(transcription, summary).value in {MessageTranscribing, MessageSummarizing, MessageProcessing}
  {
  }

  /** Once nothing is running, a failure is what the status line reports. */
  lemma MessageOnFailure(transcription: Status, summary: Status)
    requires HasFailed(transcription, summary) && transcription != Processing && summary != Processing
    ensures StatusMessage(transcription, summary).Some?
    ensures StatusMessage(transcription, summary).value in {MessageTranscriptionFailed, MessageSummaryFailed}
  {
  }

  /** The states the backend writes: a new upload reads as working, a failed one as failed, a finished one as quiet. */
  lemma LifecycleViews(title: Option<string>)
    ensures DisplayTitle(Processing, Pending, title) == TitleWorking && StatusMessage(Processing, Pending) == Some(MessageTranscribing)
    ensures DisplayTitle(Failed, Failed, title) == TitleFailed && StatusMessage(Failed, Failed) == Some(MessageTranscriptionFailed)
    ensures StatusMessage(Completed, Completed).None? && !IsProcessing(Completed, Completed) && !HasFailed(Completed, Completed)
  {
  }
}
