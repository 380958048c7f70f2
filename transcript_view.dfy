/**
  The plain transcript view: the transcript (or a placeholder), its word count
  from splitting on single spaces, and a collapsed preview of the first fifty
  words when the transcript is longer than that.
*/
module TranscriptView {

  import opened Js

  const Placeholder: string := "Transcript not available yet."
  const PreviewWords: nat := 50

  /** `transcript || "Transcript not available yet."`: a missing or empty transcript shows the placeholder. */
  function DisplayTranscript(transcript: Option<string>): (r: string)
    ensures Truthy(transcript) ==> r == transcript.value
    ensures !Truthy(transcript) ==> r == Placeholder
    ensures r != ""
  {
    if Truthy(transcript) then transcript.value else Placeholder
  }

  /** `displayTranscript.split(" ")`. */
  function Words(transcript: Option<string>): (words: seq<string>)
    ensures |words| >= 1
  {
    Split(DisplayTranscript(transcript), ' ')
  }

  /** The word count is one more than the number of spaces, so runs of spaces count empty words. */
  lemma WordCount(transcript: Option<string>)
    ensures |Words(transcript)| == CountChar(DisplayTranscript(transcript), ' ') + 1
  {
    SplitLength(DisplayTranscript(transcript), ' ');
  }

  predicate IsLongTranscript(transcript: Option<string>) {
    |Words(transcript)| > PreviewWords
  }

  /** Long means at least fifty spaces. */
  lemma IsLongIffSpaces(transcript: Option<string>)
    ensures IsLongTranscript(transcript) <==> CountChar(DisplayTranscript(transcript), ' ') >= PreviewWords
  {
    WordCount(transcript);
  }

  /** `words.slice(0, 50).join(" ") + "..."`. */
  function Preview(transcript: Option<string>): string
    requires IsLongTranscript(transcript)
  {
    Join(Words(transcript)[..PreviewWords], " ") + "..."
  }

  /** The preview is the start of the transcript, up to its fiftieth word, followed by `"..."`, and holds exactly fifty words. */
  lemma PreviewIsPrefix(transcript: Option<string>)
    requires IsLongTranscript(transcript)
    ensures EndsWith(Preview(transcript), "...")
    ensures StartsWith(DisplayTranscript(transcript), Preview(transcript)[..|Preview(transcript)| - 3])
    ensures Split(Preview(transcript)[..|Preview(transcript)| - 3], ' ') == Words(transcript)[..PreviewWords]
  {
    var words := Words(transcript);
    var shown := Join(words[..PreviewWords], " ");
    assert Preview(transcript)[..|Preview(transcript)| - 3] == shown;
    JoinSplit(DisplayTranscript(transcript), ' ');
    JoinPrefix(words, PreviewWords, " ");
    SplitPiecesAvoidSeparator(DisplayTranscript(transcript), ' ');
    SplitJoin(words[..PreviewWords], ' ');
  }

  /** `getDisplayText`: the full text unless the transcript is long and collapsed. */
  function DisplayText(transcript: Option<string>, isExpanded: bool): (r: string)
    ensures !IsLongTranscript(transcript) || isExpanded ==> r == DisplayTranscript(transcript)
    ensures IsLongTranscript(transcript) && !isExpanded ==> r == Preview(transcript)
  {
    if !IsLongTranscript(transcript) || isExpanded then DisplayTranscript(transcript)
    else Preview(transcript)
  }

  /** "Show More": the words beyond the preview, always at least one when the button is shown. */
  function RemainingWords(transcript: Option<string>): (n: int)
    ensures IsLongTranscript(transcript) ==> n >= 1
    ensures n == CountChar(DisplayTranscript(transcript), ' ') + 1 - PreviewWords
  {
    WordCount(transcript);
    |Words(transcript)| - PreviewWords
  }

  lemma PlaceholderView()
    ensures DisplayText(None, false) == Placeholder && DisplayText(Some(""), false) == Placeholder
  {
    PlaceholderShort();
    IsLongIffSpaces(None);
    IsLongIffSpaces(Some(""));
  }

  lemma PlaceholderShort()
    ensures CountChar(Placeholder, ' ') < PreviewWords
  {
    CountCharBound(Placeholder, ' ');
  }
}
