/**
  The storage service's upload callback: once a browser upload finishes, a
  recording row is created with its initial statuses, transcription is started
  (a failure marks both statuses failed), and for a Google Meet recording the
  Meet data is reconciled in the background (a failure there is only logged).

  The transcription job and the Meet reconciliation run concurrently with each
  other; here their effects are applied one after the other, transcription
  first. The row id the database generates is an input.
*/
module UploadComplete {

  import opened Js
  import opened RecordingStatus
  import opened Database
  import opened MeetReconciler

  /** The validated input of the upload route. */
  datatype UploadInput = UploadInput(
    userId: string,
    meetingTitle: Option<string>,
    meetingDate: Option<string>,
    meetingId: Option<string>,
    meetingPlatform: Option<string>,
    participants: Option<seq<string>>)

  /** The upload middleware: only a known user may upload. */
  function UploadMiddleware(knownUsers: set<string>, input: UploadInput): (r: Result<string>)
    ensures r.Ok? <==> input.userId in knownUsers
    ensures r.Ok? ==> r.value == input.userId
  {
    if input.userId in knownUsers then Ok(input.userId) else Err("User not found")
  }

  /**
    The row created for a finished upload: transcription processing, summary
    pending, falsy meeting fields and title stored as `null`, and the meeting
    date as creation time when one was given.
  */
  function NewRecording(id: string, fileUrl: string, input: UploadInput, now: int): (r: RecordingRow)
    ensures r.id == id && r.userId == input.userId && r.recordingUrl == fileUrl
    ensures r.transcriptionStatus == Processing && r.summaryStatus == Pending
    ensures r.meetingId.Some? <==> Truthy(input.meetingId)
    ensures r.meetingPlatform.Some? <==> Truthy(input.meetingPlatform)
    ensures r.title.Some? <==> Truthy(input.meetingTitle)
    ensures r.meetingId.Some? ==> r.meetingId == input.meetingId
    ensures r.meetingPlatform.Some? ==> r.meetingPlatform == input.meetingPlatform
    ensures r.title.Some? ==> r.title == input.meetingTitle
    ensures Truthy(input.meetingDate) ==> r.createdAt == MeetingDate(input.meetingDate.value)
    ensures !Truthy(input.meetingDate) ==> r.createdAt == InsertedAt(now)
    ensures r.transcript.None? && r.summary.None? && r.googleMeetConferenceId.None? && r.googleMeetSpace.None?
  {
    RecordingRow(
      id, input.userId, fileUrl,
      OrNull(input.meetingTitle), OrNull(input.meetingId), OrNull(input.meetingPlatform),
      Processing, Pending,
      if Truthy(input.meetingDate) then MeetingDate(input.meetingDate.value) else InsertedAt(now),
      None, None, None, None)
  }

  /** The failure transition: both statuses become failed, from any state. */
  function MarkFailed(r: RecordingRow): (f: RecordingRow)
    ensures f.transcriptionStatus == Failed && f.summaryStatus == Failed
    ensures f.(transcriptionStatus := r.transcriptionStatus, summaryStatus := r.summaryStatus) == r
  {
    r.(transcriptionStatus := Failed, summaryStatus := Failed)
  }

  /** Meet data is fetched only for a recording with a meeting code from exactly the "google-meet" platform. */
  predicate StartsMeetFetch(input: UploadInput) {
    Truthy(input.meetingId) && input.meetingPlatform == Some("google-meet")
  }

  lemma StartsMeetFetchExamples()
    ensures StartsMeetFetch(UploadInput("u", None, None, Some("abc-defg-hij"), Some("google-meet"), None))
    ensures !StartsMeetFetch(UploadInput("u", None, None, Some(""), Some("google-meet"), None))
    ensures !StartsMeetFetch(UploadInput("u", None, None, Some("abc-defg-hij"), Some("Google-Meet"), None))
    ensures !StartsMeetFetch(UploadInput("u", None, None, Some("abc-defg-hij"), None, None))
  {
  }

  /** The transcription job's failure handler; the status update fails silently when the recording is gone. */
  method OnTranscriptionFailed(db: Db, recordingId: string)
    requires db.Valid()
    modifies db
    ensures db.Valid()
    ensures recordingId in old(db.recordings) ==>
      db.recordings == old(db.recordings)[recordingId := MarkFailed(old(db.recordings)[recordingId])]
    ensures recordingId !in old(db.recordings) ==> db.recordings == old(db.recordings)
    ensures db.participants == old(db.participants) && db.entries == old(db.entries)
  {
    if recordingId in db.recordings {
      db.recordings := db.recordings[recordingId := MarkFailed(db.recordings[recordingId])];
    }
  }

  datatype UploadResult = UploadResult(recordingId: string, success: bool)

  /**
    `onUploadComplete`: create the row, then apply the transcription outcome and
    (for Google Meet) the reconciliation. The answer is always the new id with
    `success: true`, and the statuses depend on the transcription outcome only.
  */
  method OnUploadComplete(db: Db, newId: string, fileUrl: string, input: UploadInput, now: int,
                          transcription: Result<()>, api: MeetApi)
    returns (result: UploadResult)
    requires db.Valid()
    requires newId !in db.recordings  // the database generates a fresh id
    modifies db
    ensures db.Valid()
    ensures result == UploadResult(newId, true)
    ensures newId in db.recordings
    ensures
      var created := NewRecording(newId, fileUrl, input, now);
      var row := if transcription.Err? then MarkFailed(created) else created;
      db.recordings[newId] ==
        if !StartsMeetFetch(input) then row
        else match Reconcile(input.meetingId.value, api)
          case Found(conference, _) =>
            row.(googleMeetConferenceId := Some(conference.name), googleMeetSpace := Some(conference.space))
          case SpaceOnly(space) => row.(googleMeetSpace := Some(space))
          case _ => row
    ensures transcription.Ok? ==>
      db.recordings[newId].transcriptionStatus == Processing && db.recordings[newId].summaryStatus == Pending
    ensures transcription.Err? ==>
      db.recordings[newId].transcriptionStatus == Failed && db.recordings[newId].summaryStatus == Failed
    ensures forall id | id in old(db.recordings) :: id in db.recordings && db.recordings[id] == old(db.recordings)[id]
    ensures !StartsMeetFetch(input) ==>
      db.recordings == old(db.recordings)[newId := db.recordings[newId]]
      && db.participants == old(db.participants) && db.entries == old(db.entries)
    ensures StartsMeetFetch(input) && Reconcile(input.meetingId.value, api).Found? ==>
      db.participants == old(db.participants) + ParticipantRows(newId, Reconcile(input.meetingId.value, api).data.participants)
      && db.entries == old(db.entries) + EntryRows(newId, Reconcile(input.meetingId.value, api).data.transcriptEntries)
    ensures StartsMeetFetch(input) && !Reconcile(input.meetingId.value, api).Found? ==>
      db.participants == old(db.participants) && db.entries == old(db.entries)
  {
    db.recordings := db.recordings[newId := NewRecording(newId, fileUrl, input, now)];
    if transcription.Err? {
      OnTranscriptionFailed(db, newId);
    }
    if StartsMeetFetch(input) {
      var _ := ProcessGoogleMeetRecording(db, newId, input.meetingId.value, api);
    }
    result := UploadResult(newId, true);
  }
}
