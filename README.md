# Meeting recordings: a verified model of the decision logic

This project models the rules that decide what happens to a meeting recording.
A recording is uploaded with optional meeting metadata. It is then transcribed
and summarised, and for Google Meet meetings it is reconciled with the
participants and transcript entries that the Google Meet API reports. In the
browser it is shown with bold and bullet formatting, speaker filters, previews,
cached queries with optimistic updates, and an upload dialog that drives an
`idle / uploading / success / error` status.

The model follows the program's structure, one module per source file:

| module | models |
|---|---|
| `MeetReconciler` | `backend/helpers/googleMeetHelpers.ts`: the tiered conference matcher, the participant rows, the full transcript, the three-way outcome of processing a recording |
| `RecordingRoutes` | `backend/routes/recordings.js`: the upload filter, metadata parsing, the file-URL pick, and the branches of the fetch, summary, regenerate and delete endpoints |
| `UploadComplete` | `backend/uploadthing.ts`: the upload middleware, the initial row, the failure transition, the Meet-fetch guard |
| `RecordingHelpers` | `frontend/src/utils/recordingHelpers.ts`: the title, the processing and failed flags, the status message |
| `FormatText` | `frontend/src/utils/formatText.tsx`: the `**bold**` split, lines and bullets, the spacing pass |
| `TranscriptSpeakers` | `TranscriptWithSpeakers.tsx`: the speaker map and list, the filters, the preview, initials, the colour hash |
| `TranscriptView` | `Transcript.tsx`: the placeholder, the word count, the fifty-word preview |
| `RecordingsCache` | `frontend/src/hooks/useRecordings.ts`: polling intervals, enabled rules, cache updaters, snapshot and rollback |
| `QueryClient` | `frontend/src/lib/queryClient.ts`: the capped exponential retry delay |
| `ActionItems` | `ActionItems.tsx`: the completed-set toggle, the priority colours, the empty state |
| `UploadDialog` | `upload-recording-dialog.tsx`: the form, the status machine, participant parsing, the file-URL pick |

Shared modules: `Js` holds the JavaScript semantics the code relies on:
truthiness, `startsWith`, `includes`, ASCII case mapping, `trim`, `split`
on one character and `join`. `Seqs` holds filtering and a stable sort by key.
`RecordingStatus` holds the four statuses. `Database` holds the stored rows as
the fields of a `Db` class. The endpoint and callback methods of the other
modules write those fields; `Db` itself only reads rows back (`ParticipantsOf`,
`EntriesOf`).

The network, the database driver, the speech and summary services and the file
storage service are not executed. What they return is a parameter:

- `MeetApi` bundles the Google Meet listings, including whether each listing failed;
- `BackendReply` is the backend's answer to the upload dialog;
- `Result` parameters stand for a transcription or a summary generation that succeeded or failed.

Timers are methods that run when the timer fires. JavaScript truthiness is
modelled with `Option`: both `None` and `Some("")` are falsy.

## Model

| member | source | states |
|---|---|---|
| MeetReconciler.PartialMatchIgnoresCase | backend/helpers/googleMeetHelpers.ts:209-225 | The partial predicate holds exactly when one of three holds: the lower-cased space or name contains the lower-cased code, or the space contains the code with its hyphens removed. The case-sensitive tests add nothing. |
| MeetReconciler.Candidates | backend/helpers/googleMeetHelpers.ts:136-194 | The records searched: the general listing when it is non-empty, else the non-empty listing for the resolved space, else none. A definition; FindConference states what is found in it. |
| MeetReconciler.ExactMatch | backend/helpers/googleMeetHelpers.ts:196-206 | The first tier: a resolved space exists and the record took place in it. A definition; ExactTierWins is its property. |
| MeetReconciler.PartialMatch | backend/helpers/googleMeetHelpers.ts:209-225 | The second tier: the code, as given, lower-cased or without hyphens, occurs in the record's space, or as given or lower-cased in its name. A definition; PartialMatchIgnoresCase and PartialTierFirst are its properties. |
| MeetReconciler.FindConference | backend/helpers/googleMeetHelpers.ts:103-253 | A listing failure propagates. A returned record is one of the candidates and matches either the exact tier or the partial tier. `null` is returned iff no candidate matches either tier. An empty listing with no records for the resolved space gives `null`. |
| MeetReconciler.ExactTierWins | backend/helpers/googleMeetHelpers.ts:196-206 | The first record whose space equals the resolved space is returned, before any partial match is tried. |
| MeetReconciler.PartialTierFirst | backend/helpers/googleMeetHelpers.ts:209-230 | Suppose no record matches exactly. Then the first record in list order that satisfies the partial predicate is returned. |
| MeetReconciler.ParticipantRowOf | backend/helpers/googleMeetHelpers.ts:371-396 | The kind is signed-in if present, else anonymous if present, else phone. The display name is the signed-in name if non-empty, else the anonymous name if non-empty, else the phone name if non-empty, and "Unknown" exactly when none of the three has a name. The Google user id is taken only from a signed-in user. |
| MeetReconciler.ParticipantRows | backend/helpers/googleMeetHelpers.ts:371-396 | One row per fetched participant. |
| MeetReconciler.EntryRows | backend/helpers/googleMeetHelpers.ts:398-415 | One row per fetched entry. |
| MeetReconciler.EntryRowOf | backend/helpers/googleMeetHelpers.ts:401-413 | The stored row of one fetched entry: its speaker name, participant, text, language and times under the recording id. A definition; EntryRows applies it per entry. |
| MeetReconciler.FetchedEntries | backend/helpers/googleMeetHelpers.ts:452-471 | The entries of the first transcript when the transcript listing succeeded and is non-empty and its entry listing succeeded; otherwise none. A definition that Reconcile uses. |
| Seqs.SortBy | backend/helpers/googleMeetHelpers.ts:465-470 | The entries in start-time order, ties kept in input order; ordered by the key and a permutation of the input. |
| Seqs.SortByStable | backend/helpers/googleMeetHelpers.ts:465-470 | For every key value, the elements carrying it come out in their input order: the sort is stable, as `Array.prototype.sort` must be. |
| MeetReconciler.FullTranscript | backend/helpers/googleMeetHelpers.ts:465-470 | No entries give the empty transcript. One entry gives its text. |
| MeetReconciler.FullTranscriptOfOrdered | backend/helpers/googleMeetHelpers.ts:465-470 | If the entries are already in start-time order, the transcript is their texts joined by single spaces. |
| MeetReconciler.FullTranscriptExample | backend/helpers/googleMeetHelpers.ts:465-470 | Entries fetched out of order are joined in start-time order. |
| MeetReconciler.Reconcile | backend/helpers/googleMeetHelpers.ts:428-552 | The result is a failure iff the conference lookup fails or the participant listing fails. Only the first transcript's entries are used, sorted by start time as a permutation of the fetched ones. The full transcript is their texts joined by spaces. Without a conference, the result is the space alone iff the space can be reached, and `null` iff it cannot. |
| MeetReconciler.NoEntriesNoTranscript | backend/helpers/googleMeetHelpers.ts:453-479 | A failed or empty transcript listing is absorbed: the result has no entries and an empty transcript. |
| MeetReconciler.SaveGoogleMeetData | backend/helpers/googleMeetHelpers.ts:351-423 | An unknown recording changes nothing. Otherwise the conference name and space are set on the recording, and exactly the participant and entry rows are appended. |
| MeetReconciler.ProcessGoogleMeetRecording | backend/helpers/googleMeetHelpers.ts:428-552 | The stored state and the returned value follow each of the four outcomes of `Reconcile`. |
| RecordingRoutes.FileFilter | backend/routes/recordings.js:37-44 | An upload is accepted iff its mimetype starts with "audio/" or "video/" (case-sensitive). |
| RecordingRoutes.FileFilterExamples | backend/routes/recordings.js:37-44 | "image/png", "audio", "Audio/webm" and "" are refused. |
| RecordingRoutes.ParseMetadataAsWritten | backend/routes/recordings.js:116-129 | The code as written: reading the fields fails exactly when the metadata text is the JSON `null`. |
| RecordingRoutes.NullMetadataThrows | backend/routes/recordings.js:116-129 | The text "null" makes the code as written fail, while the corrected reading gives both fields `null`. |
| RecordingRoutes.ParseMetadata | backend/routes/recordings.js:116-129 | Missing or unparseable metadata gives both fields `null`. A parsed object keeps a field iff it is truthy. Kept fields are never empty. |
| RecordingRoutes.ParseMetadataAgrees | backend/routes/recordings.js:116-129 | The corrected reading agrees with the code as written wherever the latter does not fail. |
| RecordingRoutes.ProcessUploadedFile | backend/routes/recordings.js:104-148 | The corrected upload check (see Findings): no file gives 400, no session gives 403, otherwise the caller's id and the metadata under the corrected reading are returned. |
| RecordingRoutes.ProcessUploadedFileAsWritten | backend/routes/recordings.js:104-148 | The upload check as written: with a file, the metadata text `null` throws before the session check (both callers answer 500, recordings.js:367-370 and 442-445); on every other input the answer is the corrected check's. |
| RecordingRoutes.NullMetadataUploadFails | backend/routes/recordings.js:116-139 | A signed-in upload with metadata `null` throws as written, while the corrected check accepts it with both meeting fields `null`. |
| RecordingRoutes.PickFileUrl | backend/routes/recordings.js:193-199 | `data.ufsUrl` when truthy, else `url` when truthy, else `null`. |
| RecordingRoutes.Gate | backend/routes/recordings.js:750-761 | An endpoint proceeds iff the caller is signed in and owns an existing recording. Otherwise the reply is 401, 404 or 403. |
| RecordingRoutes.FetchedReply | backend/routes/recordings.js:858-878 | `hasParticipants` and `hasTranscriptEntries` equal the non-emptiness of the stored lists. The "participants fetched" message is chosen iff there are participants but no entries. |
| RecordingRoutes.FillTranscript | backend/routes/recordings.js:840-845 | The Meet transcript is written only when it is non-empty and the stored transcript is empty. |
| RecordingRoutes.OverwriteTranscript | backend/routes/recordings.js:1001-1033 | A non-empty Meet transcript replaces the stored one unconditionally. |
| RecordingRoutes.FillVersusOverwrite | backend/routes/recordings.js:840-845 | The fetch endpoint and the regenerate endpoints differ exactly when a stored transcript exists and the Meet transcript is a different non-empty text. |
| Database.Db.ParticipantsOf | backend/routes/recordings.js:848-850 | Exactly the stored participant rows of the recording: every row returned is the recording's, and every row of the recording is returned. |
| Database.Db.EntriesOf | backend/routes/recordings.js:852-855 | The recording's transcript entry rows, every one of them and no other (as a multiset), ordered by start time. |
| RecordingRoutes.ParticipantsAfterSave | backend/routes/recordings.js:850-852 | After a save into a recording that had no participant rows, reading its participants back gives exactly the saved rows. |
| RecordingRoutes.FetchGoogleMeetData | backend/routes/recordings.js:746-886 | Gives 400 when the recording is not from Google Meet or has no meeting id. Gives "already exists" with the stored rows and no processing when participants exist. Otherwise the reply and the whole new store follow the four outcomes of `Reconcile` (see `FetchMeetRows`). |
| RecordingRoutes.MeetFetchAnswered | backend/routes/recordings.js:797-878 | The reply and the whole new store per Meet outcome: failure gives 500 and not-found the "not available" reply, both writing nothing; space only writes the space; found appends the rows, writes the ids and fills an empty transcript, and answers with the rows read back. |
| RecordingRoutes.FetchMeetRows | backend/routes/recordings.js:797-878 | Failure: 500 and nothing written. Not found: unavailable and nothing written. Space only: the space is set on the recording and no row is added. Found: the conference name and space are set, the transcript is filled only if empty, exactly the participant and entry rows are appended, every other recording stays, and the reply reports the rows read back. |
| RecordingRoutes.TriesMeet | backend/routes/recordings.js:1001-1003 | The regenerate endpoints try Meet only for a "google-meet" recording with a meeting id and no participant rows yet. A definition used by both endpoints' contracts. |
| RecordingRoutes.MeetAttemptWritten | backend/routes/recordings.js:1003-1030 | The whole new store after the regenerate endpoints' Meet attempt: found writes the ids, overwrites the transcript when Meet text exists and appends the rows; space only writes the space; otherwise nothing changes. |
| RecordingRoutes.AttemptMeetTranscript | backend/routes/recordings.js:1003-1030 | For each outcome of `Reconcile` the whole new store: a found conference is saved (name, space, rows) and its non-empty transcript overwrites the stored one; a space alone is set on the recording; a failure or nothing found writes nothing. The returned transcript is present iff a conference with a non-empty transcript was found. |
| RecordingRoutes.RegenerateTranscript | backend/routes/recordings.js:977-1047 | Meet is tried only for a "google-meet" recording with a meeting id and no participants, and then the store is exactly what the Meet attempt writes; otherwise the endpoint's own code writes nothing (what the external regenerator writes is not modelled). A non-empty Meet transcript is returned. Otherwise the fallback's text, or 500, is returned. |
| RecordingRoutes.RegenerateSummary | backend/routes/recordings.js:1050-1113 | Under the same condition the store is exactly what the Meet attempt writes; otherwise the endpoint's own code writes nothing (what the external regenerator writes is not modelled). The reply is the regenerated summary or 500. |
| RecordingRoutes.GetSummaryAsWritten | backend/routes/recordings.js:549-592 | The route as written, where `generateSummary` is not in scope: gate errors as before, a stored summary is answered, no transcript gives 400, and with a transcript the answer is an error that is not 400 (the catch's 500); a summary is never generated. |
| RecordingRoutes.SummaryNeverGenerated | backend/routes/recordings.js:572-590 | The owner asking for the summary of a recording with a transcript and none stored gets 500 as written. |
| RecordingRoutes.GetSummary | backend/routes/recordings.js:549-592 | The corrected route, with a summary generator in scope (see Findings). An existing summary is returned unchanged. No transcript gives 400. Otherwise a generated summary is stored and returned, or 500 is returned. |
| RecordingRoutes.DeleteRecording | backend/routes/recordings.js:1116-1165 | The recording, its participants and its entries are removed. The rows of every other recording stay. |
| UploadComplete.UploadMiddleware | backend/uploadthing.ts:31-45 | An upload passes iff its user id is a known user. |
| UploadComplete.NewRecording | backend/uploadthing.ts:53-66 | The new row has transcription "processing" and summary "pending". An empty meeting id, platform or title is stored as `null`. `createdAt` is the supplied meeting date, else the current time. |
| UploadComplete.MarkFailed | backend/uploadthing.ts:76-84 | Both statuses become "failed" and nothing else changes. |
| UploadComplete.StartsMeetFetch | backend/uploadthing.ts:88 | The Meet fetch starts iff the meeting id is non-empty and the platform is exactly "google-meet". A definition; StartsMeetFetchExamples checks it and OnUploadComplete uses it. |
| UploadComplete.StartsMeetFetchExamples | backend/uploadthing.ts:88 | Meet reconciliation needs a non-empty meeting id and a platform of exactly "google-meet". |
| UploadComplete.OnTranscriptionFailed | backend/uploadthing.ts:75-85 | The failure transition applies to the new row only. |
| UploadComplete.OnUploadComplete | backend/uploadthing.ts:46-114 | The result is always `{recordingId, success: true}`, and existing rows are untouched. The new row is `NewRecording` of the upload, marked failed iff transcription failed, then given the conference name and space (conference found) or the space (space only) when the Meet guard holds. Meet rows are appended only when the guard holds and a conference is found; otherwise none are. |
| RecordingHelpers.DisplayTitle | frontend/src/utils/recordingHelpers.ts:6-30 | "Transcribing & Summarizing..." when either status is processing; this takes priority over failed. Otherwise "Processing Failed" when either status failed. Otherwise a non-blank title verbatim, else "Untitled Recording". |
| RecordingHelpers.DisplayTitleNonBlank | frontend/src/utils/recordingHelpers.ts:6-30 | The displayed title is never blank: every branch yields a non-empty trimmed string. |
| RecordingHelpers.IsProcessing | frontend/src/utils/recordingHelpers.ts:35-41 | A recording is processing iff its transcription is pending or processing, or its summary is processing. A definition; SummaryPendingAloneIsIdle and MessageWhileProcessing state its consequences. |
| RecordingHelpers.HasFailed | frontend/src/utils/recordingHelpers.ts:46-51 | A recording has failed iff either status is "failed". A definition; MessageOnFailure states its consequence. |
| RecordingHelpers.TitleAgreesWithFlags | frontend/src/utils/recordingHelpers.ts:6-51 | The title agrees with the processing and failed flags. |
| RecordingHelpers.SummaryPendingAloneIsIdle | frontend/src/utils/recordingHelpers.ts:35-41 | A pending summary alone does not count as processing; a pending transcription does. |
| RecordingHelpers.PendingShowsOwnTitle | frontend/src/utils/recordingHelpers.ts:6-41 | A pending recording counts as processing but shows its own title. |
| RecordingHelpers.StatusMessage | frontend/src/utils/recordingHelpers.ts:56-81 | Priority: transcription processing, summary processing, transcription failed, summary failed. `null` iff both statuses are completed, else "Processing...". |
| RecordingHelpers.MessageWhileProcessing | frontend/src/utils/recordingHelpers.ts:35-81 | While processing there is always a progress message. |
| RecordingHelpers.MessageOnFailure | frontend/src/utils/recordingHelpers.ts:46-81 | When failed and not processing there is always a failure message. |
| RecordingHelpers.LifecycleViews | frontend/src/utils/recordingHelpers.ts:6-81 | The title and message for a new, a failed and a completed recording. |
| QueryClient.RetryDelay | frontend/src/lib/queryClient.ts:13 | The delay is between 1000 and 30000. |
| QueryClient.RetryDelayStart | frontend/src/lib/queryClient.ts:13 | The first retry waits 1000 ms. |
| QueryClient.RetryDelayDoubles | frontend/src/lib/queryClient.ts:13 | Each delay doubles the previous one up to the cap. |
| QueryClient.RetryDelayMonotone | frontend/src/lib/queryClient.ts:13 | The delay never decreases. |
| QueryClient.RetryDelayCapped | frontend/src/lib/queryClient.ts:13 | From attempt 5 on the delay is 30000. |
| QueryClient.RetrySchedule | frontend/src/lib/queryClient.ts:11-13 | The five retries wait 1, 2, 4, 8 and 16 seconds. |
| FormatText.ReplaceCrLf | frontend/src/utils/formatText.tsx:12 | The first replace: the result is never longer, holds only characters of the input, and is the input itself when there is no carriage return. NormalizeIsLineEndings states the whole effect. |
| FormatText.ReplaceCr | frontend/src/utils/formatText.tsx:12 | Every lone carriage return becomes a newline, and no carriage return remains. |
| FormatText.Normalize | frontend/src/utils/formatText.tsx:12 | The result has no carriage return and is never longer. A text without carriage returns is unchanged. |
| FormatText.NormalizeIsLineEndings | frontend/src/utils/formatText.tsx:12 | On every input the two replacements equal the one-pass reading `NormalizeRef`: each CR LF pair and each lone CR becomes one LF, and every other character stays. |
| FormatText.NormalizeCrLfExample | frontend/src/utils/formatText.tsx:12 | A CRLF pair becomes one LF. |
| FormatText.NormalizeCrExample | frontend/src/utils/formatText.tsx:12 | A lone CR becomes LF. |
| FormatText.NormalizeCrCrLfExample | frontend/src/utils/formatText.tsx:12 | A CR before a CRLF pair ends a line of its own: `"\r\r\n"` becomes two LFs. |
| FormatText.MatchAt | frontend/src/utils/formatText.tsx:15 | The length of the pattern's match at a position, or 0; a match spans at least five characters and stays inside the text. MatchAtSound and MatchAtComplete tie it to the pattern. |
| FormatText.SplitFrom | frontend/src/utils/formatText.tsx:15 | The split of the rest of the text from a position: always an odd number of pieces. SplitFromAlternates and SplitFromTextPieces state what the pieces are. |
| FormatText.SplitBold | frontend/src/utils/formatText.tsx:15 | `split` with the capturing pattern, from the start of the text. A definition; SplitBoldAlternates, SplitBoldConcat and SplitBoldOfBoldToken are its properties. |
| FormatText.MatchAtSound | frontend/src/utils/formatText.tsx:15 | A match at a position is a bold token: two asterisks, one or more non-asterisks, two asterisks. |
| FormatText.MatchAtComplete | frontend/src/utils/formatText.tsx:15 | A bold token at a position is found there. |
| FormatText.SplitFromAlternates | frontend/src/utils/formatText.tsx:15 | Every odd-indexed part of the split is a bold token (the split also always has an odd number of parts). |
| FormatText.TextPieceHasNoBoldRun | frontend/src/utils/formatText.tsx:15 | A stretch where the pattern matches at no position contains no bold token anywhere inside it. |
| FormatText.SplitFromTextPieces | frontend/src/utils/formatText.tsx:15 | Every even-indexed part of the split contains no bold token: the split misses no match. |
| FormatText.SplitBoldAlternates | frontend/src/utils/formatText.tsx:15 | The parts of a text alternate between text holding no bold token and a bold token. |
| FormatText.SplitBoldConcat | frontend/src/utils/formatText.tsx:15 | The split loses nothing: its parts concatenate back to the text. |
| FormatText.SplitBoldOfBoldToken | frontend/src/utils/formatText.tsx:15 | A text that is exactly one bold token splits into "", the token, "". |
| FormatText.IsBoldMarked | frontend/src/utils/formatText.tsx:20 | A part is treated as bold iff it starts with `**` and ends with `**` (overlapping markers included). A definition; BoldTokenIsStrong uses it. |
| FormatText.BoldText | frontend/src/utils/formatText.tsx:22 | `slice(2, -2)`: the text without its outer two characters on each side, empty for parts shorter than four. |
| FormatText.LineNodes | frontend/src/utils/formatText.tsx:28-55 | A blank line emits nothing. A trimmed line starting "* " emits a bullet of the text after the marker, with no break. Any other line emits its trimmed text, followed by a line break iff it is not the last line, and nothing else. |
| FormatText.LinesNodes | frontend/src/utils/formatText.tsx:26-56 | The nodes of the lines so far never start with a break, and a break only ever follows a text span. |
| FormatText.PartNodes | frontend/src/utils/formatText.tsx:19-57 | A part starting and ending with "**" becomes one bold node. A blank part emits nothing. No other part produces a bold node. |
| FormatText.BoldTokenIsStrong | frontend/src/utils/formatText.tsx:20-23 | A bold token from the split becomes a bold node of its inner text. |
| FormatText.Elements | frontend/src/utils/formatText.tsx:17-58 | The collected nodes keep the well-formedness rules: breaks only after text spans, and spans are trimmed and non-empty. |
| FormatText.ElementsAppend | frontend/src/utils/formatText.tsx:19-58 | Nodes are emitted part after part, in order. |
| FormatText.BoldOnlyElements | frontend/src/utils/formatText.tsx:19-23 | A bold token between two empty parts, as the split of a bold-only text gives, yields exactly one bold node holding the text inside the markers. |
| FormatText.GapAfter | frontend/src/utils/formatText.tsx:63-79 | A bullet list ends at an element iff it is a bullet and a next element exists that is not a bullet. A definition; SpacedLayout states where the gaps go. |
| FormatText.Spacing | frontend/src/utils/formatText.tsx:79-82 | Two line breaks after an element where a bullet list ends there, nothing otherwise. A definition; SpacedLayout states its effect on the whole list. |
| FormatText.SpacedLayout | frontend/src/utils/formatText.tsx:61-83 | Element k of the input sits at k plus two for every list end before it; a list end is followed by exactly two line breaks; the length is the input's plus two per list end, so nothing else is added. |
| FormatText.Spaced | frontend/src/utils/formatText.tsx:63-83 | The spacing pass never drops a node and keeps the last node last. |
| FormatText.SpacedKeepsContent | frontend/src/utils/formatText.tsx:63-83 | Apart from the inserted breaks, the output is the input. |
| FormatText.SpacedNoBullets | frontend/src/utils/formatText.tsx:63-83 | Without bullets the pass changes nothing. |
| FormatText.SpacedExamples | frontend/src/utils/formatText.tsx:79-82 | Two breaks follow a bullet whose successor is not a bullet. None follow a bullet before another bullet or a final bullet. |
| FormatText.Format | frontend/src/utils/formatText.tsx:8-86 | The empty text is returned unchanged, and only it. Otherwise the non-break content is that of the parts' nodes. |
| FormatText.SpacedSingle | frontend/src/utils/formatText.tsx:63-83 | One element that is not a bullet gets no list gap. |
| FormatText.FormatBoldOnly | frontend/src/utils/formatText.tsx:8-86 | A text that is one bold token (no CR) renders as a single bold node holding the text inside the markers. |
| FormatText.AddLine | frontend/src/utils/formatText.tsx:28-55 | One line's loop step appends that line's nodes. |
| FormatText.LineElements | frontend/src/utils/formatText.tsx:26-56 | The line loop emits the nodes of the lines in order. |
| FormatText.AddPart | frontend/src/utils/formatText.tsx:19-57 | One part's loop step appends that part's nodes. |
| FormatText.CollectElements | frontend/src/utils/formatText.tsx:17-58 | The part loop computes the element list. |
| FormatText.AddListGaps | frontend/src/utils/formatText.tsx:61-83 | The post-processing loop computes the spaced list. |
| FormatText.FormatTextWithBold | frontend/src/utils/formatText.tsx:8-86 | The whole function computes `Format`. |
| TranscriptSpeakers.SpeakerMapOf | frontend/src/components/dashboard/TranscriptWithSpeakers.tsx:29-37 | Every participant id is a key. Each key maps to a participant with that id. |
| TranscriptSpeakers.SpeakerMapLastWins | frontend/src/components/dashboard/TranscriptWithSpeakers.tsx:33-35 | A later participant with the same id overwrites an earlier one. |
| TranscriptSpeakers.BuildSpeakerMap | frontend/src/components/dashboard/TranscriptWithSpeakers.tsx:29-37 | No participants give the empty map. Otherwise the loop builds `SpeakerMapOf`. |
| TranscriptSpeakers.UniqueIdsPrefix | frontend/src/components/dashboard/TranscriptWithSpeakers.tsx:43-48 | The collected ids are distinct, non-empty, and taken from the entries. Every truthy entry id is collected. |
| TranscriptSpeakers.UniqueIds | frontend/src/components/dashboard/TranscriptWithSpeakers.tsx:43-48 | The set of speaker ids in insertion order, as `Array.from` of the `Set` gives. A definition; UniqueIdsPrefix and UniqueIdsGrow are its properties. |
| TranscriptSpeakers.UniqueIdsGrow | frontend/src/components/dashboard/TranscriptWithSpeakers.tsx:43-50 | Ids stay in first-appearance order: a longer prefix extends the list. |
| TranscriptSpeakers.KnownSpeakers | frontend/src/components/dashboard/TranscriptWithSpeakers.tsx:50-52 | Looking ids up drops the unknown ones and keeps every known one. |
| TranscriptSpeakers.KnownSpeakersDistinct | frontend/src/components/dashboard/TranscriptWithSpeakers.tsx:50-52 | Distinct ids give distinct speakers. |
| TranscriptSpeakers.Speakers | frontend/src/components/dashboard/TranscriptWithSpeakers.tsx:40-53 | Nothing without entries or participants; otherwise the known speakers in order of first appearance. A definition; SpeakersSound, SpeakersComplete and KnownSpeakersDistinct are its properties. |
| TranscriptSpeakers.SpeakersSound | frontend/src/components/dashboard/TranscriptWithSpeakers.tsx:40-53 | The list is empty without entries or participants. Its ids are distinct. Each speaker is a participant who spoke. |
| TranscriptSpeakers.SpeakersComplete | frontend/src/components/dashboard/TranscriptWithSpeakers.tsx:40-53 | Every participant who spoke is listed, in the version the map keeps. |
| TranscriptSpeakers.SpeakersOf | frontend/src/components/dashboard/TranscriptWithSpeakers.tsx:40-53 | The loop computes `Speakers`. |
| TranscriptSpeakers.FilterEntries | frontend/src/components/dashboard/TranscriptWithSpeakers.tsx:56-75 | The result is the entries, in order, that have the selected speaker (when one is selected). When the trimmed term is non-empty, they must also have a lower-cased text that contains the untrimmed lower-cased term. |
| TranscriptSpeakers.DisplayEntries | frontend/src/components/dashboard/TranscriptWithSpeakers.tsx:77-81 | A prefix of the filtered entries: all when expanded or at most five, else the first five. |
| TranscriptSpeakers.Initials | frontend/src/components/dashboard/TranscriptWithSpeakers.tsx:88-95 | "?" without a display name. Otherwise at most two characters, the first being the upper-cased first letter. |
| TranscriptSpeakers.InitialsOneWord | frontend/src/components/dashboard/TranscriptWithSpeakers.tsx:88-95 | A name without a space gives one initial, its upper-cased first letter. |
| TranscriptSpeakers.InitialsTwoWords | frontend/src/components/dashboard/TranscriptWithSpeakers.tsx:88-95 | With the first space at `j`, the initials are the upper-cased first letter of the name and then the upper-cased letter after that space, each present only when a word (not a space) starts there. |
| TranscriptSpeakers.InitialsExamples | frontend/src/components/dashboard/TranscriptWithSpeakers.tsx:88-95 | "al b" gives "AB"; a missing or empty name gives "?". |
| TranscriptSpeakers.ToInt32 | frontend/src/components/dashboard/TranscriptWithSpeakers.tsx:104-105 | The 32-bit wrap: the result is in the signed range and congruent mod 2^32. It is the identity in range. |
| TranscriptSpeakers.Hash | frontend/src/components/dashboard/TranscriptWithSpeakers.tsx:103-106 | The `reduce` over the id's characters from 0; its value is a signed 32-bit integer. HashIsPolynomial states its value. |
| TranscriptSpeakers.HashIsPolynomial | frontend/src/components/dashboard/TranscriptWithSpeakers.tsx:103-106 | The folded hash equals the wrapped polynomial: the sum of code·31^k. |
| TranscriptSpeakers.ColorIndex | frontend/src/components/dashboard/TranscriptWithSpeakers.tsx:107 | The index is |hash| mod 8, always one of the eight colours. |
| TranscriptSpeakers.SpeakerColor | frontend/src/components/dashboard/TranscriptWithSpeakers.tsx:97-108 | The colour is always one of the eight classes. |
| TranscriptSpeakers.SpeakerColorExamples | frontend/src/components/dashboard/TranscriptWithSpeakers.tsx:97-108 | The hashes of "a" and "ab". A hash of -2^31 stays non-negative after `Math.abs` and selects index 0. |
| TranscriptView.DisplayTranscript | frontend/src/components/dashboard/Transcript.tsx:16 | A missing or empty transcript shows "Transcript not available yet." |
| TranscriptView.Words | frontend/src/components/dashboard/Transcript.tsx:17 | `split(" ")` of the shown text: never empty. WordCount states how many words there are. |
| TranscriptView.WordCount | frontend/src/components/dashboard/Transcript.tsx:17 | The word count is the number of spaces plus one. |
| TranscriptView.IsLongTranscript | frontend/src/components/dashboard/Transcript.tsx:18-19 | A transcript is long iff it has more than fifty words. A definition; IsLongIffSpaces characterises it. |
| TranscriptView.IsLongIffSpaces | frontend/src/components/dashboard/Transcript.tsx:18-19 | Long (more than 50 words) iff at least 50 spaces. |
| TranscriptView.Preview | frontend/src/components/dashboard/Transcript.tsx:54 | The first fifty words joined by spaces, then "...". A definition; PreviewIsPrefix states what it is. |
| TranscriptView.PreviewIsPrefix | frontend/src/components/dashboard/Transcript.tsx:54 | The preview ends in "...". Before that it is a prefix of the transcript holding exactly its first 50 words. |
| TranscriptView.DisplayText | frontend/src/components/dashboard/Transcript.tsx:50-55 | The full text unless long and collapsed, then the preview. |
| TranscriptView.RemainingWords | frontend/src/components/dashboard/Transcript.tsx:129 | The remaining count is words minus 50, at least one whenever the button shows. |
| TranscriptView.PlaceholderView | frontend/src/components/dashboard/Transcript.tsx:16-19 | The placeholder is short and shown in full. |
| RecordingsCache.GoogleSttInterval | frontend/src/hooks/useRecordings.ts:50-56 | Polling stops iff the status is done, else it repeats every 3000 ms. |
| RecordingsCache.AssemblyAiInterval | frontend/src/hooks/useRecordings.ts:69-76 | Polling stops iff the status is exactly "completed" or "error", else it repeats every 5000 ms. |
| RecordingsCache.PollingExamples | frontend/src/hooks/useRecordings.ts:50-76 | Missing data keeps polling, and the status comparison is case-sensitive. |
| RecordingsCache.EnabledRules | frontend/src/hooks/useRecordings.ts:37-68 | A query runs only with a non-empty id, and the status queries also need their flag. |
| RecordingsCache.MarkRegenerating | frontend/src/hooks/useRecordings.ts:128-139 | A cached recording gets its regenerating flag set and nothing else changes. No cached recording means no change. |
| RecordingsCache.ApplyRegenerated | frontend/src/hooks/useRecordings.ts:146-158 | A cached recording gets the new field and a cleared flag. No cached recording means no change. |
| RecordingsCache.MapField | frontend/src/hooks/useRecordings.ts:165-169 | Length and order are kept. Only records with the id get the new field. |
| RecordingsCache.UpdateList | frontend/src/hooks/useRecordings.ts:161-171 | No list means no change; otherwise the list is mapped. |
| RecordingsCache.UpdateListAbsent | frontend/src/hooks/useRecordings.ts:161-171 | An id not in the list leaves the list unchanged. |
| RecordingsCache.RemoveFromList | frontend/src/hooks/useRecordings.ts:282-288 | Exactly the records with the id are removed; the others keep their order. |
| RecordingsCache.RemoveTwice | frontend/src/hooks/useRecordings.ts:282-288 | Removing again changes nothing. |
| RecordingsCache.QueryCache.Get | frontend/src/hooks/useRecordings.ts:125 | The cached entry for an id, if there is one. |
| RecordingsCache.QueryCache.OnMutateRegenerate | frontend/src/hooks/useRecordings.ts:120-142 | Returns the snapshot and marks the recording as regenerating. |
| RecordingsCache.QueryCache.OnSuccessRegenerate | frontend/src/hooks/useRecordings.ts:144-171 | Applies the new field to the single entry and to the list. |
| RecordingsCache.QueryCache.OnErrorRegenerate | frontend/src/hooks/useRecordings.ts:176-180 | Restores the snapshot when there is one. |
| RecordingsCache.QueryCache.RegenerateFails | frontend/src/hooks/useRecordings.ts:120-180 | A failed regeneration of a cached recording leaves the cache as it was. |
| RecordingsCache.QueryCache.OnMutateDelete | frontend/src/hooks/useRecordings.ts:272-291 | Returns the list snapshot and removes the recording from the list. |
| RecordingsCache.QueryCache.OnSuccessDelete | frontend/src/hooks/useRecordings.ts:293-296 | Drops the single-recording entry. |
| RecordingsCache.QueryCache.OnErrorDelete | frontend/src/hooks/useRecordings.ts:300-304 | Restores the list snapshot when there is one. |
| RecordingsCache.QueryCache.DeleteFails | frontend/src/hooks/useRecordings.ts:272-304 | A failed delete leaves the cache as it was. |
| ActionItems.Toggled | frontend/src/components/dashboard/ActionItems.tsx:14-22 | The index's membership flips; every other index keeps its membership. |
| ActionItems.ToggleTwice | frontend/src/components/dashboard/ActionItems.tsx:14-22 | Toggling twice restores the set. |
| ActionItems.ToggleCommutes | frontend/src/components/dashboard/ActionItems.tsx:14-22 | Toggles of two indices commute. |
| ActionItems.CompletedItems.ToggleComplete | frontend/src/components/dashboard/ActionItems.tsx:14-22 | The state is replaced by a toggled copy. |
| ActionItems.PriorityColor | frontend/src/components/dashboard/ActionItems.tsx:24-35 | Gray iff the priority is not exactly "high", "medium" or "low". |
| ActionItems.PriorityColorsDistinct | frontend/src/components/dashboard/ActionItems.tsx:24-35 | The three known priorities get distinct colours, and "High" gets gray. |
| ActionItems.Render | frontend/src/components/dashboard/ActionItems.tsx:37-117 | The empty state iff the list is missing or empty. Otherwise one row per item, ticked iff its index is in the set, with its task and a deadline iff truthy. |
| ActionItems.ToggleChangesOneRow | frontend/src/components/dashboard/ActionItems.tsx:14-117 | Toggling changes the ticked state of that row only. |
| UploadDialog.OrUndefined | frontend/src/components/upload-recording-dialog.tsx:79-82 | An empty field is not sent, and any other field is sent as typed. |
| UploadDialog.ParseParticipants | frontend/src/components/upload-recording-dialog.tsx:83-85 | An empty field gives undefined. Otherwise the result is a subsequence of the lines, in their order; every kept line is non-blank and one line, and every non-blank line is kept. |
| UploadDialog.ParseParticipantsKeepsLines | frontend/src/components/upload-recording-dialog.tsx:171-173 | Non-blank lines joined by newlines come back exactly. |
| UploadDialog.ParseParticipantsExamples | frontend/src/components/upload-recording-dialog.tsx:83-85 | An empty field gives undefined; a blank line gives an empty list. |
| UploadDialog.PickFileUrl | frontend/src/components/upload-recording-dialog.tsx:54 | The first file's `ufsUrl` when truthy, else its `url` when truthy, else none. |
| UploadDialog.Next | frontend/src/components/upload-recording-dialog.tsx:54-132 | The status each event sets: began gives uploading, an upload error gives error, the error timer gives idle, a completed upload gives success iff it has a file URL and an OK reply, and a reset gives idle. SuccessOnlyFromOkReply and ErrorCauses characterise it. |
| UploadDialog.SuccessOnlyFromOkReply | frontend/src/components/upload-recording-dialog.tsx:89-110 | Success iff the upload completed with a file URL and an OK backend reply. |
| UploadDialog.ErrorCauses | frontend/src/components/upload-recording-dialog.tsx:54-126 | Error iff the upload failed, the URL is missing, or the backend failed. |
| UploadDialog.Dialog.FormProcessRequest | frontend/src/components/upload-recording-dialog.tsx:76-85 | The processing request carries the uploaded file URL and the participants parsed from the form. |
| UploadDialog.Dialog.FormRequest | frontend/src/components/upload-recording-dialog.tsx:165-174 | The upload carries the files, the user id and the parsed participants. |
| UploadDialog.Dialog.HandleUpload | frontend/src/components/upload-recording-dialog.tsx:148-178 | No upload starts without files or without a session user id. Otherwise exactly one starts, with the form. Nothing else changes. |
| UploadDialog.Dialog.OnUploadBegin | frontend/src/components/upload-recording-dialog.tsx:127-132 | The status becomes uploading. The form fields, files, open flag and call logs stay. |
| UploadDialog.Dialog.OnUploadError | frontend/src/components/upload-recording-dialog.tsx:115-121 | The status becomes error. The form fields, files, open flag and call logs stay. |
| UploadDialog.Dialog.OnErrorTimer | frontend/src/components/upload-recording-dialog.tsx:122-125 | The status returns to idle. The form fields, files, open flag and call logs stay. |
| UploadDialog.Dialog.OnClientUploadComplete | frontend/src/components/upload-recording-dialog.tsx:50-114 | Without a file URL the status is error and the backend is not called. Otherwise the form is posted once, and the reply decides between success and error. The form fields, files and open flag stay. |
| UploadDialog.Dialog.HandleReset | frontend/src/components/upload-recording-dialog.tsx:180-188 | Every field is empty, there are no files, and the status is idle. |
| UploadDialog.Dialog.OnSuccessTimer | frontend/src/components/upload-recording-dialog.tsx:103-106 | The form is reset and the dialog closes. |

## Left out

- Google OAuth token refresh (`getGoogleAccessToken`) is left out. It depends on the wall clock and an HTTP refresh.
- Media conversion, temporary files and the multer disk storage are left out. They are file-system and ffmpeg work.
- The HTTP calls to Google Meet, Speech, AssemblyAI and the file storage service are parameters, and so are the database reads they feed.
- The external summary and transcription generators appear only as their success or failure; their output parsing is not visible in the modelled files.
- The asynchronous `.then/.catch` chains run one after another in the model. Interleavings are not modelled.
- Database constraints beyond the row shapes, and the JSON shape of a summary, are left out. A summary is a string.
- Dates are integers or the supplied text, and date parsing and locale formatting are not modelled.
- The "most recent" sort in the conference matcher is left out. Its result is never returned, so only its absence from the outcome is modelled.
- Toasts, console logging, clipboard copy, file download and search-term highlighting are left out. They are display effects.
- The empty-state participant cards of the speaker view are left out: colours computed in floating point and initials from the first character.
- Case mapping is ASCII only.
- A Dafny `char` is a Unicode scalar value, while a JavaScript string is a sequence of UTF-16 code units. The two agree on text inside the Basic Multilingual Plane. A character outside it is one character in the model but two code units (a surrogate pair) in JavaScript; the members below differ on such text.
- `TranscriptSpeakers.Hash`: a character outside the Basic Multilingual Plane is one step of the hash with its code point, where JavaScript takes two steps, one per surrogate.
- `TranscriptSpeakers.ColorIndex`: follows `Hash`, so the colour of an id holding such a character can differ from the program's.
- `TranscriptSpeakers.InitialsOneWord` and `TranscriptSpeakers.InitialsTwoWords`: for a word starting with such a character the initial is the whole character, where JavaScript gives only its high surrogate.
- `RecordingRoutes.FetchedReply`: with no participants the details say "No participants or transcript data" even when entries exist. The model keeps that wording rule as written.
- `UploadDialog.Dialog.OnClientUploadComplete`: a backend reply whose JSON body cannot be read counts as a failure, like `NetworkError`. The text of the error toast is not modelled.
- `UploadDialog.Dialog.OnErrorTimer`: the timer fires unconditionally, as written. A second upload begun within the three seconds is reset to idle as well.
- `RecordingsCache.QueryCache`: query cancellation and refetch are left out. The updaters are applied to the cache directly.
- `TranscriptSpeakers.Initials`: the upper-casing of characters outside ASCII is not modelled.
- `Database.Db.ParticipantsOf`: rows come back in insertion order. The query has no `orderBy`, so the database promises no order; the model fixes one.
- `Database.Db.EntriesOf`: entries with equal start times come back in insertion order. The database does not promise this either.
- `RecordingRoutes.RegenerateTranscript` and `RecordingRoutes.RegenerateSummary`: the external `regenerateTranscript(recordingId)` and `regenerateSummary(recordingId)` take only the id and may write the row themselves. Those writes are not modelled, so "nothing else changes" covers only the endpoint's own code.

## Findings

| source | as written | input that shows it | evidently intended | confidence | as-written member | corrected member |
|---|---|---|---|---|---|---|
| backend/routes/recordings.js:116-129 | The metadata string goes to `JSON.parse` and then `metadata.meetingId` is read. `JSON.parse("null")` returns `null`, so that read throws and the upload fails with a 500. | a `metadata` form field holding the text `null` | Treat a non-object as no metadata, so both fields become `null`, as for unparseable text | not executed | RecordingRoutes.NullMetadataUploadFails | RecordingRoutes.ParseMetadata |
| backend/routes/recordings.js:572-590 | The summary route calls `generateSummary`, but the module neither imports nor defines it (lines 1-18 import only `regenerateTranscript` and `regenerateSummary`). Reaching the call throws a `ReferenceError`, and the catch answers 500, so no summary is ever generated here. | the owner of a recording with a transcript and no summary requests its summary | Import the generator, so the summary is generated, stored and answered | not executed | RecordingRoutes.SummaryNeverGenerated | RecordingRoutes.GetSummary |
