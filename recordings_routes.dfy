/**
  The decisions of the recordings HTTP endpoints: which uploads are accepted,
  how the upload metadata and the stored file's URL are read, and what the
  Google Meet, summary, regeneration and delete endpoints write and answer.

  The session, the Meet API and the summary/transcript generators are inputs:
  `session` is the signed-in user's id (or none), `api` what the Meet API
  answered, and a generator's outcome is a `Result`. Replies are values of
  `Reply`; every reply except `ErrorReply` has HTTP status 200.
*/
module RecordingRoutes {

  import opened Js
  import opened Seqs
  import opened Database
  import opened MeetReconciler

  // ---------------------------------------------------------------- upload intake

  /** The upload filter: only audio and video media types are let through (case-sensitive). */
  function FileFilter(mimetype: string): (accepted: bool)
    ensures accepted ==> |mimetype| >= 6 && mimetype[5] == '/' && (mimetype[..5] == "audio" || mimetype[..5] == "video")
    ensures StartsWith(mimetype, "audio/") ==> accepted
    ensures StartsWith(mimetype, "video/") ==> accepted
  {
    StartsWith(mimetype, "audio/") || StartsWith(mimetype, "video/")
  }

  lemma FileFilterExamples()
    ensures FileFilter("audio/webm") && FileFilter("video/mp4")
    ensures !FileFilter("image/png") && !FileFilter("audio") && !FileFilter("Audio/webm") && !FileFilter("")
  {
    assert "Audio/webm"[0] != "audio/"[0];
  }

  /** What `JSON.parse` made of a string `metadata` field; only the two fields read matter. */
  datatype JsonValue =
    | JsonNull
    | JsonObject(meetingId: Option<string>, meetingPlatform: Option<string>)
    | JsonOtherValue  // a number, string, boolean or array: both fields read as `undefined`

  /**
    The `metadata` form field: missing (or another falsy value), a string
    (with its parse, `None` when `JSON.parse` throws), or an object.
  */
  datatype MetadataField =
    | NoMetadata
    | MetadataText(parsed: Option<JsonValue>)
    | MetadataObject(meetingId: Option<string>, meetingPlatform: Option<string>)

  /** The two meeting fields an upload carries on; falsy values are stored as `null`. */
  datatype MeetingRef = MeetingRef(meetingId: Option<string>, meetingPlatform: Option<string>)

  predicate NoBlank(m: MeetingRef) {
    (m.meetingId.Some? ==> m.meetingId.value != "") && (m.meetingPlatform.Some? ==> m.meetingPlatform.value != "")
  }

  /**
    The metadata reading as written: the string `"null"` parses to `null`, and
    reading `meetingId` from it throws, so the upload fails with a 500.
  */
  function ParseMetadataAsWritten(field: MetadataField): (r: Result<MeetingRef>)
    ensures r.Err? <==> field == MetadataText(Some(JsonNull))
    ensures r.Ok? ==> NoBlank(r.value)
  {
    match field
    case NoMetadata => Ok(MeetingRef(None, None))
    case MetadataObject(id, platform) => Ok(MeetingRef(OrNull(id), OrNull(platform)))
    case MetadataText(None) => Ok(MeetingRef(None, None))
    case MetadataText(Some(JsonNull)) => Err("Cannot read properties of null (reading 'meetingId')")
    case MetadataText(Some(JsonObject(id, platform))) => Ok(MeetingRef(OrNull(id), OrNull(platform)))
    case MetadataText(Some(JsonOtherValue)) => Ok(MeetingRef(None, None))
  }

  /**
    The metadata reading with a `null` parse treated like unparseable text:
    anything that is not an object gives no meeting fields, and the fields
    that are read are the truthy ones.
  */
  function ParseMetadata(field: MetadataField): (r: MeetingRef)
    ensures NoBlank(r)
    ensures field.NoMetadata? ==> r == MeetingRef(None, None)
    ensures field.MetadataText? && !(field.parsed.Some? && field.parsed.value.JsonObject?) ==> r == MeetingRef(None, None)
    ensures field.MetadataText? && field.parsed.Some? && field.parsed.value.JsonObject? ==>
      (r.meetingId.Some? <==> Truthy(field.parsed.value.meetingId))
      && (r.meetingPlatform.Some? <==> Truthy(field.parsed.value.meetingPlatform))
      && (r.meetingId.Some? ==> r.meetingId == field.parsed.value.meetingId)
      && (r.meetingPlatform.Some? ==> r.meetingPlatform == field.parsed.value.meetingPlatform)
  {
    match field
    case NoMetadata => MeetingRef(None, None)
    case MetadataObject(id, platform) => MeetingRef(OrNull(id), OrNull(platform))
    case MetadataText(Some(JsonObject(id, platform))) => MeetingRef(OrNull(id), OrNull(platform))
    case MetadataText(_) => MeetingRef(None, None)
  }

  /** The two readings agree wherever the one as written does not throw. */
  lemma ParseMetadataAgrees(field: MetadataField)
    ensures ParseMetadataAsWritten(field).Ok? ==> ParseMetadataAsWritten(field).value == ParseMetadata(field)
    ensures ParseMetadataAsWritten(field).Err? ==> ParseMetadata(field) == MeetingRef(None, None)
  {
  }

  /** The input that shows the difference: metadata text `null`. */
  lemma NullMetadataThrows()
    ensures ParseMetadataAsWritten(MetadataText(Some(JsonNull))).Err?
    ensures ParseMetadata(MetadataText(Some(JsonNull))) == MeetingRef(None, None)
  {
  }

  datatype UploadCheck = Rejected(status: int, error: string) | Accepted(userId: string, meeting: MeetingRef)

  /**
    `processUploadedFile`: a missing file is a 400, a missing session a 403
    (checked after the metadata is read); otherwise the user and the meeting
    fields go on.
  */
  function ProcessUploadedFile(hasFile: bool, metadata: MetadataField, session: Option<string>): (r: UploadCheck)
    ensures !hasFile ==> r == Rejected(400, "No recording file provided")
    ensures hasFile && session.None? ==> r == Rejected(403, "User not logged in")
    ensures r.Accepted? <==> hasFile && session.Some?
    ensures r.Accepted? ==> r.userId == session.value && r.meeting == ParseMetadata(metadata) && NoBlank(r.meeting)
  {
    if !hasFile then Rejected(400, "No recording file provided")
    else
      var meeting := ParseMetadata(metadata);
      if session.None? then Rejected(403, "User not logged in")
      else Accepted(session.value, meeting)
  }

  /**
    `processUploadedFile` as written: the metadata text `null` makes the field
    read throw before the session is checked, and both upload endpoints catch
    that and answer 500. Every other input gets the corrected reading's answer.
  */
  function ProcessUploadedFileAsWritten(hasFile: bool, metadata: MetadataField, session: Option<string>)
    : (r: Result<UploadCheck>)
    ensures r.Err? <==> hasFile && ParseMetadataAsWritten(metadata).Err?
    ensures r.Ok? ==> r.value == ProcessUploadedFile(hasFile, metadata, session)
  {
    if !hasFile then Ok(Rejected(400, "No recording file provided"))
    else
      match ParseMetadataAsWritten(metadata)
      case Err(e) => Err(e)
      case Ok(meeting) =>
        ParseMetadataAgrees(metadata);
        if session.None? then Ok(Rejected(403, "User not logged in"))
        else Ok(Accepted(session.value, meeting))
  }

  /** The input that shows it at the endpoint: a signed-in upload with metadata `null` fails instead of being accepted. */
  lemma NullMetadataUploadFails(userId: string)
    ensures ProcessUploadedFileAsWritten(true, MetadataText(Some(JsonNull)), Some(userId)).Err?
    ensures ProcessUploadedFile(true, MetadataText(Some(JsonNull)), Some(userId)) == Accepted(userId, MeetingRef(None, None))
  {
  }

  /** One element of the storage service's upload response. */
  datatype UploadedFile = UploadedFile(data: Option<UploadedData>, url: Option<string>)
  datatype UploadedData = UploadedData(ufsUrl: Option<string>)

  /**
    The stored file's URL: the first file's `data.ufsUrl` when truthy, else its
    `url` when truthy, else `null` (which the save endpoints turn into an error).
  */
  function PickFileUrl(resp: seq<UploadedFile>): (r: Option<string>)
    ensures r.Some? ==> r.value != ""
    ensures r.None? <==>
      resp == [] || ((resp[0].data.None? || !Truthy(resp[0].data.value.ufsUrl)) && !Truthy(resp[0].url))
    ensures resp != [] && resp[0].data.Some? && Truthy(resp[0].data.value.ufsUrl) ==> r == resp[0].data.value.ufsUrl
    ensures r.Some? && !(resp[0].data.Some? && Truthy(resp[0].data.value.ufsUrl)) ==> r == resp[0].url
  {
    if resp != [] && resp[0].data.Some? && Truthy(resp[0].data.value.ufsUrl) then resp[0].data.value.ufsUrl
    else if resp != [] then OrNull(resp[0].url)
    else None
  }

  // ---------------------------------------------------------------- replies

  /** The `details` line of a successful Meet fetch. */
  datatype FetchDetails =
    | ParticipantsAndEntries(participants: nat, entries: nat)
    | ParticipantsWithoutEntries(participants: nat)
    | NoParticipants

  datatype Reply =
    | ErrorReply(status: int, message: string)
    | MeetAlreadyExists(participants: seq<ParticipantRow>, entries: seq<EntryRow>)
    | MeetUnavailable(meetingId: string)
    | MeetSpaceFound
    | MeetFetched(message: string, details: FetchDetails, participants: seq<ParticipantRow>, entries: seq<EntryRow>,
                  hasParticipants: bool, hasTranscriptEntries: bool)
    | TranscriptRegenerated(message: string, transcript: string, hasParticipantData: bool)
    | SummaryRegenerated(summary: string, hasParticipantData: bool)
    | SummaryFound(summary: string, generated: bool)
    | Deleted

  function StatusCode(r: Reply): int {
    if r.ErrorReply? then r.status else 200
  }

  /** The prelude of every per-recording endpoint: signed in (401), recording exists (404), owned by the caller (403). */
  function Gate(recordings: map<string, RecordingRow>, session: Option<string>, recordingId: string): (r: Option<Reply>)
    ensures r.None? <==> session.Some? && recordingId in recordings && recordings[recordingId].userId == session.value
    ensures r.Some? ==> r.value.ErrorReply? && r.value.status in {401, 403, 404}
    ensures session.None? ==> r == Some(ErrorReply(401, "User not logged in"))
    ensures session.Some? && recordingId !in recordings ==> r == Some(ErrorReply(404, "Recording not found"))
  {
    if session.None? then Some(ErrorReply(401, "User not logged in"))
    else if recordingId !in recordings then Some(ErrorReply(404, "Recording not found"))
    else if recordings[recordingId].userId != session.value then Some(ErrorReply(403, "Access denied"))
    else None
  }

  const DataFetched := "Google Meet data fetched successfully"
  const ParticipantsFetched := "Google Meet participants fetched successfully"

  /** The answer after a Meet fetch stored rows, from the rows read back. */
  function FetchedReply(ps: seq<ParticipantRow>, es: seq<EntryRow>): (r: Reply)
    ensures r.MeetFetched? && r.participants == ps && r.entries == es
    ensures r.hasParticipants <==> |ps| > 0
    ensures r.hasTranscriptEntries <==> |es| > 0
    ensures r.message == ParticipantsFetched <==> |ps| > 0 && |es| == 0
    ensures r.message == DataFetched <==> !(|ps| > 0 && |es| == 0)
    ensures r.details == NoParticipants <==> |ps| == 0
    ensures r.details.ParticipantsAndEntries? ==> r.details == ParticipantsAndEntries(|ps|, |es|) && |es| > 0
    ensures r.details.ParticipantsWithoutEntries? ==> r.details == ParticipantsWithoutEntries(|ps|) && |es| == 0
  {
    var message := if |ps| > 0 && |es| == 0 then ParticipantsFetched else DataFetched;
    var details :=
      if |ps| > 0 && |es| > 0 then ParticipantsAndEntries(|ps|, |es|)
      else if |ps| > 0 then ParticipantsWithoutEntries(|ps|)
      else NoParticipants;
    MeetFetched(message, details, ps, es, |ps| > 0, |es| > 0)
  }

  // ---------------------------------------------------------------- transcript writes

  /** The fetch endpoint's rule: a non-empty Meet transcript fills an empty stored one, and nothing else changes it. */
  function FillTranscript(stored: Option<string>, meetTranscript: string): (r: Option<string>)
    ensures Truthy(stored) ==> r == stored
    ensures meetTranscript == "" ==> r == stored
    ensures !Truthy(stored) && meetTranscript != "" ==> r == Some(meetTranscript)
  {
    if meetTranscript != "" && !Truthy(stored) then Some(meetTranscript) else stored
  }

  /** The regenerate endpoints' rule: a non-empty Meet transcript replaces whatever was stored. */
  function OverwriteTranscript(stored: Option<string>, meetTranscript: string): (r: Option<string>)
    ensures meetTranscript != "" ==> r == Some(meetTranscript)
    ensures meetTranscript == "" ==> r == stored
  {
    if meetTranscript != "" then Some(meetTranscript) else stored
  }

  /** The two rules part only where a transcript is already stored. */
  lemma FillVersusOverwrite(stored: Option<string>, meetTranscript: string)
    ensures FillTranscript(stored, meetTranscript) == OverwriteTranscript(stored, meetTranscript)
      <==> !Truthy(stored) || meetTranscript == "" || stored == Some(meetTranscript)
  {
  }

  /** A Meet fetch is attempted by the regenerate endpoints only for a Meet recording with a code and no participants yet. */
  predicate TriesMeet(rec: RecordingRow, participantCount: nat) {
    rec.meetingPlatform == Some("google-meet") && Truthy(rec.meetingId) && participantCount == 0
  }

  /** The Meet attempt produced a non-empty transcript. */
  predicate MeetTranscriptFound(rec: RecordingRow, participantCount: nat, api: MeetApi) {
    TriesMeet(rec, participantCount)
    && Reconcile(rec.meetingId.value, api).Found?
    && Reconcile(rec.meetingId.value, api).data.fullTranscript != ""
  }

  // ---------------------------------------------------------------- row bookkeeping

  /** After a save into a recording that had no participant rows, the rows read back are exactly the saved ones. */
  lemma {:induction false} ParticipantsAfterSave(before: seq<ParticipantRow>, recordingId: string, ps: seq<MeetParticipant>)
    requires Filter(before, ParticipantOf(recordingId)) == []
    ensures Filter(before + ParticipantRows(recordingId, ps), ParticipantOf(recordingId)) == ParticipantRows(recordingId, ps)
  {
    var rows := ParticipantRows(recordingId, ps);
    var mine := ParticipantOf(recordingId);
    RowsOfRecording(recordingId, ps);
    FilterAppend(before, rows, mine);
    FilterAll(rows, mine);
    assert Filter(before, mine) + Filter(rows, mine) == rows;
  }

  /** Every row made for a recording's participants belongs to that recording. */
  lemma RowsOfRecording(recordingId: string, ps: seq<MeetParticipant>)
    ensures forall i :: 0 <= i < |ps| ==> ParticipantOf(recordingId)(ParticipantRows(recordingId, ps)[i])
  {
    forall i | 0 <= i < |ps| ensures ParticipantRows(recordingId, ps)[i].recordingId == recordingId {
      assert ParticipantRows(recordingId, ps)[i] == ParticipantRowOf(recordingId, ps[i]);
    }
  }

  /** Keeping a superset of another recording's rows and then selecting that recording selects the same rows. */
  lemma RemoveKeepsOthers<T>(rows: seq<T>, keep: T -> bool, other: T -> bool)
    requires forall i :: 0 <= i < |rows| ==> other(rows[i]) ==> keep(rows[i])
    ensures Filter(Filter(rows, keep), other) == Filter(rows, other)
  {
    FilterFilter(rows, keep, other, other);
  }

  /** After removing a recording's rows, selecting that recording selects nothing. */
  lemma RemoveLeavesNone<T>(rows: seq<T>, keep: T -> bool, mine: T -> bool)
    requires forall i :: 0 <= i < |rows| ==> keep(rows[i]) ==> !mine(rows[i])
    ensures Filter(Filter(rows, keep), mine) == []
  {
    var kept := Filter(rows, keep);
    FilterMembers(rows, keep);
    forall i | 0 <= i < |kept| ensures !mine(kept[i]) {
      var j :| 0 <= j < |rows| && rows[j] == kept[i];
    }
    FilterNone(kept, mine);
  }

  // ---------------------------------------------------------------- endpoints

  /**
    `POST /fetch-google-meet-data/:recordingId`: refuse non-Meet recordings and
    recordings without a code; answer stored rows when participants exist;
    otherwise reconcile, fill an empty transcript, and classify the outcome.
  */
  method FetchGoogleMeetData(db: Db, session: Option<string>, recordingId: string, api: MeetApi)
    returns (reply: Reply)
    requires db.Valid()
    modifies db
    ensures db.Valid()
    ensures Gate(old(db.recordings), session, recordingId).Some? ==>
      reply == Gate(old(db.recordings), session, recordingId).value && unchanged(db)
    ensures Gate(old(db.recordings), session, recordingId).None? ==>
      var rec := old(db.recordings)[recordingId];
      (rec.meetingPlatform != Some("google-meet") ==>
        reply == ErrorReply(400, "Recording is not from Google Meet") && unchanged(db))
      && (rec.meetingPlatform == Some("google-meet") && !Truthy(rec.meetingId) ==>
        reply == ErrorReply(400, "No meeting ID available for this recording") && unchanged(db))
      && (rec.meetingPlatform == Some("google-meet") && Truthy(rec.meetingId) && |old(db.ParticipantsOf(recordingId))| > 0 ==>
        reply == MeetAlreadyExists(old(db.ParticipantsOf(recordingId)), old(db.EntriesOf(recordingId))) && unchanged(db))
      && (rec.meetingPlatform == Some("google-meet") && Truthy(rec.meetingId) && |old(db.ParticipantsOf(recordingId))| == 0 ==>
        MeetFetchAnswered(db, recordingId, rec, api, reply))
  {
    var gate := Gate(db.recordings, session, recordingId);
    if gate.Some? {
      return gate.value;
    }
    var rec := db.recordings[recordingId];
    if rec.meetingPlatform != Some("google-meet") {
      return ErrorReply(400, "Recording is not from Google Meet");
    }
    if !Truthy(rec.meetingId) {
      return ErrorReply(400, "No meeting ID available for this recording");
    }
    var existing := db.ParticipantsOf(recordingId);
    if |existing| > 0 {
      return MeetAlreadyExists(existing, db.EntriesOf(recordingId));
    }

    reply := FetchMeetRows(db, recordingId, rec, api);
  }

  /**
    The reply and the store after the fetch endpoint reconciled a Meet
    recording that had no participant rows, for each outcome of `Reconcile`.
  */
  twostate predicate MeetFetchAnswered(db: Db, recordingId: string, rec: RecordingRow, api: MeetApi, reply: Reply)
    requires rec.meetingId.Some?
    reads db
  {
    match Reconcile(rec.meetingId.value, api)
    case Failure(_) => reply.ErrorReply? && reply.status == 500 && unchanged(db)
    case NotFound => reply == MeetUnavailable(rec.meetingId.value) && unchanged(db)
    case SpaceOnly(space) =>
      reply == MeetSpaceFound
      && db.recordings == old(db.recordings)[recordingId := rec.(googleMeetSpace := Some(space))]
      && db.participants == old(db.participants) && db.entries == old(db.entries)
    case Found(conference, data) =>
      var saved := rec.(googleMeetConferenceId := Some(conference.name), googleMeetSpace := Some(conference.space));
      db.participants == old(db.participants) + ParticipantRows(recordingId, data.participants)
      && db.entries == old(db.entries) + EntryRows(recordingId, data.transcriptEntries)
      && (data.participants == [] && data.transcriptEntries == [] ==>
            reply == MeetSpaceFound && db.recordings == old(db.recordings)[recordingId := saved])
      && (data.participants != [] || data.transcriptEntries != [] ==>
            db.recordings == old(db.recordings)[recordingId :=
              saved.(transcript := FillTranscript(rec.transcript, data.fullTranscript))]
            && reply == FetchedReply(ParticipantRows(recordingId, data.participants), db.EntriesOf(recordingId)))
  }

  /**
    The Meet part of the fetch endpoint: reconcile, answer a failure, nothing
    found or a bare space, else fill an empty transcript and answer the rows
    read back.
  */
  method FetchMeetRows(db: Db, recordingId: string, rec: RecordingRow, api: MeetApi) returns (reply: Reply)
    requires db.Valid() && recordingId in db.recordings && db.recordings[recordingId] == rec && rec.meetingId.Some?
    requires db.ParticipantsOf(recordingId) == []
    modifies db
    ensures db.Valid()
    ensures MeetFetchAnswered(db, recordingId, rec, api, reply)
  {
    ghost var participantsBefore := db.participants;
    ghost var outcome := Reconcile(rec.meetingId.value, api);
    var meet := ProcessGoogleMeetRecording(db, recordingId, rec.meetingId.value, api);
    if meet.Err? {
      assert outcome.Failure?;
      return ErrorReply(500, "Failed to fetch Google Meet data");
    }
    if meet.value.None? {
      assert outcome.NotFound?;
      return MeetUnavailable(rec.meetingId.value);
    }
    var data := meet.value.value;
    if |data.participants| == 0 && |data.transcriptEntries| == 0 {
      return MeetSpaceFound;
    }
    assert outcome.Found? && outcome.data == data;
    ghost var saved := rec.(googleMeetConferenceId := Some(outcome.conference.name),
                            googleMeetSpace := Some(outcome.conference.space));
    assert db.recordings == old(db.recordings)[recordingId := saved];
    if data.fullTranscript != "" && !Truthy(rec.transcript) {
      db.recordings := db.recordings[recordingId := db.recordings[recordingId].(transcript := Some(data.fullTranscript))];
    }
    assert db.recordings == old(db.recordings)[recordingId := saved.(transcript := FillTranscript(rec.transcript, data.fullTranscript))];
    ParticipantsAfterSave(participantsBefore, recordingId, data.participants);
    reply := FetchedReply(db.ParticipantsOf(recordingId), db.EntriesOf(recordingId));
  }

  /**
    What the regenerate endpoints' Meet attempt leaves in the store, for each
    outcome of `Reconcile`: a found conference is saved and its non-empty
    transcript overwrites the stored one, a space alone is recorded on the
    recording, and otherwise nothing is written.
  */
  twostate predicate MeetAttemptWritten(db: Db, recordingId: string, rec: RecordingRow, api: MeetApi)
    requires rec.meetingId.Some?
    reads db
  {
    match Reconcile(rec.meetingId.value, api)
    case Found(conference, data) =>
      db.recordings == old(db.recordings)[recordingId := rec.(
        googleMeetConferenceId := Some(conference.name), googleMeetSpace := Some(conference.space),
        transcript := OverwriteTranscript(rec.transcript, data.fullTranscript))]
      && db.participants == old(db.participants) + ParticipantRows(recordingId, data.participants)
      && db.entries == old(db.entries) + EntryRows(recordingId, data.transcriptEntries)
    case SpaceOnly(space) =>
      db.recordings == old(db.recordings)[recordingId := rec.(googleMeetSpace := Some(space))]
      && db.participants == old(db.participants) && db.entries == old(db.entries)
    case _ =>
      db.recordings == old(db.recordings) && db.participants == old(db.participants) && db.entries == old(db.entries)
  }

  /**
    The Meet attempt shared by the two regenerate endpoints: reconcile, and
    when that yields a non-empty transcript, store it over the old one. A
    failure of the attempt is caught and leaves the store as it was.
  */
  method AttemptMeetTranscript(db: Db, recordingId: string, rec: RecordingRow, api: MeetApi)
    returns (full: Option<string>)
    requires db.Valid() && recordingId in db.recordings && db.recordings[recordingId] == rec && rec.meetingId.Some?
    modifies db
    ensures db.Valid()
    ensures MeetAttemptWritten(db, recordingId, rec, api)
    ensures full.Some? <==>
      Reconcile(rec.meetingId.value, api).Found? && Reconcile(rec.meetingId.value, api).data.fullTranscript != ""
    ensures full.Some? ==> full.value == Reconcile(rec.meetingId.value, api).data.fullTranscript
  {
    var meet := ProcessGoogleMeetRecording(db, recordingId, rec.meetingId.value, api);
    if meet.Ok? && meet.value.Some? && meet.value.value.fullTranscript != "" {
      full := Some(meet.value.value.fullTranscript);
      db.recordings := db.recordings[recordingId := db.recordings[recordingId].(transcript := full)];
    } else {
      full := None;
    }
  }

  /**
    `POST /regenerate-transcript/:recordingId`: for a Meet recording without
    participants, a non-empty Meet transcript overwrites the stored one and is
    the answer; otherwise (including a failed Meet fetch) the answer is the
    fallback regeneration's text. The fallback is the external
    `regenerateTranscript`, seen only through its result; whatever it writes
    itself is not part of the store here.
  */
  method RegenerateTranscript(db: Db, session: Option<string>, recordingId: string, api: MeetApi, fallback: Result<string>)
    returns (reply: Reply)
    requires db.Valid()
    modifies db
    ensures db.Valid()
    ensures Gate(old(db.recordings), session, recordingId).Some? ==>
      reply == Gate(old(db.recordings), session, recordingId).value && unchanged(db)
    ensures Gate(old(db.recordings), session, recordingId).None? ==>
      var rec := old(db.recordings)[recordingId];
      var before := |old(db.ParticipantsOf(recordingId))|;
      (!TriesMeet(rec, before) ==> unchanged(db))
      && (TriesMeet(rec, before) ==> MeetAttemptWritten(db, recordingId, rec, api))
      && (MeetTranscriptFound(rec, before, api) ==>
          var full := Reconcile(rec.meetingId.value, api).data.fullTranscript;
          reply == TranscriptRegenerated("Transcript regenerated using Google Meet data", full, true))
      && (!MeetTranscriptFound(rec, before, api) ==>
          (fallback.Ok? ==> reply == TranscriptRegenerated("Transcript regenerated successfully", fallback.value, before > 0))
          && (fallback.Err? ==> reply == ErrorReply(500, "Failed to regenerate transcript")))
  {
    var gate := Gate(db.recordings, session, recordingId);
    if gate.Some? {
      return gate.value;
    }
    var rec := db.recordings[recordingId];
    var before := |db.ParticipantsOf(recordingId)|;
    if TriesMeet(rec, before) {
      var full := AttemptMeetTranscript(db, recordingId, rec, api);
      if full.Some? {
        return TranscriptRegenerated("Transcript regenerated using Google Meet data", full.value, true);
      }
    }
    if fallback.Err? {
      return ErrorReply(500, "Failed to regenerate transcript");
    }
    reply := TranscriptRegenerated("Transcript regenerated successfully", fallback.value, before > 0);
  }

  /**
    `POST /regenerate-summary/:recordingId`: the same Meet attempt, whose
    non-empty transcript overwrites the stored one, then the answer is the
    regenerated summary. The external `regenerateSummary` is seen only through
    its result; whatever it writes itself is not part of the store here.
  */
  method RegenerateSummary(db: Db, session: Option<string>, recordingId: string, api: MeetApi, regenerated: Result<string>)
    returns (reply: Reply)
    requires db.Valid()
    modifies db
    ensures db.Valid()
    ensures Gate(old(db.recordings), session, recordingId).Some? ==>
      reply == Gate(old(db.recordings), session, recordingId).value && unchanged(db)
    ensures Gate(old(db.recordings), session, recordingId).None? ==>
      var rec := old(db.recordings)[recordingId];
      var before := |old(db.ParticipantsOf(recordingId))|;
      (!TriesMeet(rec, before) ==> unchanged(db))
      && (TriesMeet(rec, before) ==> MeetAttemptWritten(db, recordingId, rec, api))
      && (regenerated.Ok? ==> reply == SummaryRegenerated(regenerated.value, before > 0))
      && (regenerated.Err? ==> reply == ErrorReply(500, "Failed to regenerate summary"))
  {
    var gate := Gate(db.recordings, session, recordingId);
    if gate.Some? {
      return gate.value;
    }
    var rec := db.recordings[recordingId];
    var before := |db.ParticipantsOf(recordingId)|;
    if TriesMeet(rec, before) {
      var _ := AttemptMeetTranscript(db, recordingId, rec, api);
    }
    if regenerated.Err? {
      return ErrorReply(500, "Failed to regenerate summary");
    }
    reply := SummaryRegenerated(regenerated.value, before > 0);
  }

  /**
    `GET /summary/:recordingId` as written. The route calls `generateSummary`,
    which the module neither imports nor defines, so reaching that call throws
    a `ReferenceError` and the catch answers 500. Nothing is written on any path.
  */
  function GetSummaryAsWritten(recordings: map<string, RecordingRow>, session: Option<string>, recordingId: string)
    : (reply: Reply)
    ensures Gate(recordings, session, recordingId).Some? ==> reply == Gate(recordings, session, recordingId).value
    ensures reply.SummaryFound? ==> !reply.generated
    ensures Gate(recordings, session, recordingId).None? && !Truthy(recordings[recordingId].summary)
      ==> reply.ErrorReply? && (reply.status == 400 <==> !Truthy(recordings[recordingId].transcript))
  {
    var gate := Gate(recordings, session, recordingId);
    if gate.Some? then gate.value
    else
      var rec := recordings[recordingId];
      if Truthy(rec.summary) then SummaryFound(rec.summary.value, false)
      else if !Truthy(rec.transcript) then ErrorReply(400, "No transcript available to generate summary")
      else ErrorReply(500, "Failed to generate summary")
  }

  /**
    The owner of a recording with a transcript and no summary: as written the
    request fails with 500, where the corrected `GetSummary` stores and answers
    the generated summary.
  */
  lemma SummaryNeverGenerated(rec: RecordingRow)
    requires !Truthy(rec.summary) && Truthy(rec.transcript)
    ensures GetSummaryAsWritten(map[rec.id := rec], Some(rec.userId), rec.id) == ErrorReply(500, "Failed to generate summary")
  {
  }

  /**
    `GET /summary/:recordingId`, with the summary generator in scope: a stored
    summary is answered unchanged; with no transcript the answer is a 400;
    otherwise the generated summary is stored and answered.
  */
  method GetSummary(db: Db, session: Option<string>, recordingId: string, generated: Result<string>)
    returns (reply: Reply)
    requires db.Valid()
    modifies db
    ensures db.Valid()
    ensures Gate(old(db.recordings), session, recordingId).Some? ==>
      reply == Gate(old(db.recordings), session, recordingId).value && unchanged(db)
    ensures Gate(old(db.recordings), session, recordingId).None? ==>
      var rec := old(db.recordings)[recordingId];
      (Truthy(rec.summary) ==> reply == SummaryFound(rec.summary.value, false) && unchanged(db))
      && (!Truthy(rec.summary) && !Truthy(rec.transcript) ==>
            reply == ErrorReply(400, "No transcript available to generate summary") && unchanged(db))
      && (!Truthy(rec.summary) && Truthy(rec.transcript) && generated.Err? ==>
            reply == ErrorReply(500, "Failed to generate summary") && unchanged(db))
      && (!Truthy(rec.summary) && Truthy(rec.transcript) && generated.Ok? ==>
            reply == SummaryFound(generated.value, true)
            && db.recordings == old(db.recordings)[recordingId := rec.(summary := Some(generated.value))]
            && db.participants == old(db.participants) && db.entries == old(db.entries))
  {
    var gate := Gate(db.recordings, session, recordingId);
    if gate.Some? {
      return gate.value;
    }
    var rec := db.recordings[recordingId];
    if Truthy(rec.summary) {
      return SummaryFound(rec.summary.value, false);
    }
    if !Truthy(rec.transcript) {
      return ErrorReply(400, "No transcript available to generate summary");
    }
    if generated.Err? {
      return ErrorReply(500, "Failed to generate summary");
    }
    db.recordings := db.recordings[recordingId := rec.(summary := Some(generated.value))];
    reply := SummaryFound(generated.value, true);
  }

  /**
    `DELETE /:recordingId`: the recording's transcript entries, then its
    participants, then the recording itself; every other recording's rows stay.
  */
  method DeleteRecording(db: Db, session: Option<string>, recordingId: string) returns (reply: Reply)
    requires db.Valid()
    modifies db
    ensures db.Valid()
    ensures Gate(old(db.recordings), session, recordingId).Some? ==>
      reply == Gate(old(db.recordings), session, recordingId).value && unchanged(db)
    ensures Gate(old(db.recordings), session, recordingId).None? ==>
      reply == Deleted
      && db.recordings == old(db.recordings) - {recordingId}
      && db.ParticipantsOf(recordingId) == [] && db.EntriesOf(recordingId) == []
      && (forall other | other != recordingId ::
            db.ParticipantsOf(other) == old(db.ParticipantsOf(other)) && db.EntriesOf(other) == old(db.EntriesOf(other)))
  {
    var gate := Gate(db.recordings, session, recordingId);
    if gate.Some? {
      return gate.value;
    }
    ghost var participants0, entries0 := db.participants, db.entries;
    var keepEntry := (e: EntryRow) => e.recordingId != recordingId;
    var keepParticipant := (p: ParticipantRow) => p.recordingId != recordingId;
    db.entries := Filter(db.entries, keepEntry);
    db.participants := Filter(db.participants, keepParticipant);
    db.recordings := db.recordings - {recordingId};
    reply := Deleted;

    RemoveLeavesNone(participants0, keepParticipant, ParticipantOf(recordingId));
    RemoveLeavesNone(entries0, keepEntry, EntryOf(recordingId));
    forall other | other != recordingId
      ensures db.ParticipantsOf(other) == Filter(participants0, ParticipantOf(other))
      ensures db.EntriesOf(other) == SortBy(Filter(entries0, EntryOf(other)), EntryStart)
    {
      RemoveKeepsOthers(participants0, keepParticipant, ParticipantOf(other));
      RemoveKeepsOthers(entries0, keepEntry, EntryOf(other));
    }
  }
}
