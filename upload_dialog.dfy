/**
  The upload dialog: the meeting form, the chosen files, and the
  `idle → uploading → success | error` status the storage-service callbacks
  drive. An upload is started only with a file and a signed-in user; when the
  storage service reports the finished upload, the file URL is sent to the
  backend, whose answer decides between success and error.

  The storage service and the backend are outside the model: the calls the
  dialog makes are recorded in `started` and `processRequests`, and what comes
  back is a parameter of the callback that receives it. Timers are methods
  called when they fire.
*/
module UploadDialog {

  import opened Js
  import opened Seqs

  datatype UploadStatus = Idle | Uploading | Success | Error

  /** The files and the input passed to `startUpload`. */
  datatype UploadRequest = UploadRequest(
    files: seq<string>,
    userId: string,
    meetingTitle: Option<string>,
    meetingDate: Option<string>,
    meetingId: Option<string>,
    meetingPlatform: Option<string>,
    participants: Option<seq<string>>)

  /** The body posted to the backend's process-upload endpoint. */
  datatype ProcessRequest = ProcessRequest(
    fileUrl: string,
    meetingTitle: Option<string>,
    meetingDate: Option<string>,
    meetingId: Option<string>,
    meetingPlatform: Option<string>,
    participants: Option<seq<string>>)

  /** One entry of the storage service's completion response. */
  datatype UploadedFileInfo = UploadedFileInfo(ufsUrl: Option<string>, url: Option<string>)

  /** What the backend call produced: an OK response, a non-OK one, or a thrown fetch. */
  datatype BackendReply = ReplyOk | ReplyNotOk | NetworkError

  // ---------------------------------------------------------------- form values

  /** `value || undefined`: an empty field is not sent. */
  function OrUndefined(s: string): (r: Option<string>)
    ensures r.None? <==> s == ""
    ensures r.Some? ==> r.value == s
  {
    if s == "" then None else Some(s)
  }

  function IsNonBlank(line: string): bool {
    Trim(line) != ""
  }

  /** `participants ? participants.split("\n").filter(p => p.trim()) : undefined`. */
  function ParseParticipants(text: string): (r: Option<seq<string>>)
    ensures r.None? <==> text == ""
    ensures r.Some? ==> forall i :: 0 <= i < |r.value| ==> IsNonBlank(r.value[i]) && '\n' !in r.value[i]
    ensures r.Some? ==> forall i :: 0 <= i < |Split(text, '\n')| && IsNonBlank(Split(text, '\n')[i]) ==>
      Split(text, '\n')[i] in r.value
    ensures r.Some? ==> IsSubsequence(r.value, Split(text, '\n'))
  {
    if text == "" then None
    else
      SplitPiecesAvoidSeparator(text, '\n');
      FilterMembers(Split(text, '\n'), IsNonBlank);
      FilterSubsequence(Split(text, '\n'), IsNonBlank);
      Some(Filter(Split(text, '\n'), IsNonBlank))
  }

  /** A text without blank lines comes back line for line. */
  lemma ParseParticipantsKeepsLines(lines: seq<string>)
    requires |lines| >= 1 && Join(lines, "\n") != ""
    requires forall i :: 0 <= i < |lines| ==> IsNonBlank(lines[i]) && '\n' !in lines[i]
    ensures ParseParticipants(Join(lines, "\n")) == Some(lines)
  {
    SplitJoin(lines, '\n');
    FilterAll(lines, IsNonBlank);
  }

  lemma ParseParticipantsExamples()
    ensures ParseParticipants("") == None
    ensures ParseParticipants("\n") == Some([])
  {
    assert Split("\n", '\n') == ["", ""] by {
      assert "\n"[1..] == "";
    }
    assert Trim("") == "";
    FilterNone(["", ""], IsNonBlank);
  }

  /** `res?.[0]?.ufsUrl || res?.[0]?.url`: the first file's storage URL, else its legacy URL, else nothing. */
  function PickFileUrl(res: seq<UploadedFileInfo>): (r: Option<string>)
    ensures r.Some? ==> r.value != ""
    ensures |res| > 0 && Truthy(res[0].ufsUrl) ==> r == res[0].ufsUrl
    ensures |res| > 0 && !Truthy(res[0].ufsUrl) ==> r == OrNull(res[0].url)
    ensures |res| == 0 ==> r.None?
  {
    if |res| == 0 then None
    else if Truthy(res[0].ufsUrl) then res[0].ufsUrl
    else OrNull(res[0].url)
  }

  // ---------------------------------------------------------------- status machine

  /** What happened to the dialog. */
  datatype Event =
    | UploadBegan
    | UploadFailed
    | ErrorTimerFired
    | UploadCompleted(hasUrl: bool, reply: BackendReply)
    | Reset

  /** The status after an event; every event sets the status outright. */
  function Next(event: Event): UploadStatus {
    match event
    case UploadBegan => Uploading
    case UploadFailed => Error
    case ErrorTimerFired => Idle
    case UploadCompleted(hasUrl, reply) => if hasUrl && reply == ReplyOk then Success else Error
    case Reset => Idle
  }

  /** Success comes only from a completed upload with a file URL and an OK backend reply. */
  lemma SuccessOnlyFromOkReply(event: Event)
    ensures Next(event) == Success <==> event == UploadCompleted(true, ReplyOk)
  {
  }

  /** An error comes from a failed upload, a missing file URL, or a backend failure. */
  lemma ErrorCauses(event: Event)
    ensures Next(event) == Error <==>
      event == UploadFailed || (event.UploadCompleted? && (!event.hasUrl || event.reply != ReplyOk))
  {
  }

  // ---------------------------------------------------------------- the dialog

  class Dialog {
    var meetingTitle: string
    var meetingDate: string
    var meetingPlatform: string
    var meetingId: string
    var participants: string
    var files: seq<string>
    var uploadStatus: UploadStatus
    var open: bool
    /** Calls made to `startUpload`, in order. */
    var started: seq<UploadRequest>
    /** Bodies posted to the backend, in order. */
    var processRequests: seq<ProcessRequest>

    constructor (isOpen: bool)
      ensures meetingTitle == "" && meetingDate == "" && meetingPlatform == "" && meetingId == "" && participants == ""
      ensures files == [] && uploadStatus == Idle && open == isOpen && started == [] && processRequests == []
    {
      meetingTitle, meetingDate, meetingPlatform, meetingId, participants := "", "", "", "", "";
      files := [];
      uploadStatus := Idle;
      open := isOpen;
      started := [];
      processRequests := [];
    }

    /** The upload input the form currently describes. */
    function FormRequest(userId: string): (r: UploadRequest)
      reads this
      ensures r.files == files && r.userId == userId && r.participants == ParseParticipants(participants)
      ensures r.meetingId.Some? <==> meetingId != ""
    {
      UploadRequest(files, userId, OrUndefined(meetingTitle), OrUndefined(meetingDate), OrUndefined(meetingId),
                    OrUndefined(meetingPlatform), ParseParticipants(participants))
    }

    function FormProcessRequest(fileUrl: string): (r: ProcessRequest)
      reads this
      ensures r.fileUrl == fileUrl && r.participants == ParseParticipants(participants)
    {
      ProcessRequest(fileUrl, OrUndefined(meetingTitle), OrUndefined(meetingDate), OrUndefined(meetingId),
                     OrUndefined(meetingPlatform), ParseParticipants(participants))
    }

    /** The five form fields are as they were. */
    twostate predicate FormKept()
      reads this
    {
      meetingTitle == old(meetingTitle) && meetingDate == old(meetingDate) && meetingPlatform == old(meetingPlatform)
      && meetingId == old(meetingId) && participants == old(participants)
    }

    /** `handleUpload`: no files or no signed-in user id means no upload; otherwise the form goes with the files. */
    method HandleUpload(sessionUserId: Option<string>)
      modifies this
      ensures |files| == 0 || !Truthy(sessionUserId) ==> started == old(started)
      ensures |files| > 0 && Truthy(sessionUserId) ==> started == old(started) + [old(FormRequest(sessionUserId.value))]
      ensures uploadStatus == old(uploadStatus) && processRequests == old(processRequests) && open == old(open)
      ensures files == old(files) && FormKept()
    {
      if |files| == 0 {
        return;
      }
      if !Truthy(sessionUserId) {
        return;
      }
      started := started + [FormRequest(sessionUserId.value)];
    }

    /** `onUploadBegin`. */
    method OnUploadBegin()
      modifies this
      ensures uploadStatus == Next(UploadBegan)
      ensures started == old(started) && processRequests == old(processRequests) && files == old(files) && open == old(open)
      ensures FormKept()
    {
      uploadStatus := Uploading;
    }

    /** `onUploadError`; the three-second timer is `OnErrorTimer`. */
    method OnUploadError()
      modifies this
      ensures uploadStatus == Next(UploadFailed)
      ensures started == old(started) && processRequests == old(processRequests) && files == old(files) && open == old(open)
      ensures FormKept()
    {
      uploadStatus := Error;
    }

    /** The timer set by `onUploadError`: back to idle, whatever the status is by then. */
    method OnErrorTimer()
      modifies this
      ensures uploadStatus == Next(ErrorTimerFired)
      ensures started == old(started) && processRequests == old(processRequests) && files == old(files) && open == old(open)
      ensures FormKept()
    {
      uploadStatus := Idle;
    }

    /**
      `onClientUploadComplete`: without a file URL the status is an error and
      the backend is not called; otherwise the form is posted with the URL and
      the reply decides the status.
    */
    method OnClientUploadComplete(res: seq<UploadedFileInfo>, reply: BackendReply)
      modifies this
      ensures PickFileUrl(res).None? ==> processRequests == old(processRequests)
      ensures PickFileUrl(res).Some? ==>
        processRequests == old(processRequests) + [old(FormProcessRequest(PickFileUrl(res).value))]
      ensures uploadStatus == Next(UploadCompleted(PickFileUrl(res).Some?, reply))
      ensures started == old(started) && files == old(files) && open == old(open)
      ensures FormKept()
    {
      var fileUrl := PickFileUrl(res);
      if fileUrl.None? {
        uploadStatus := Error;
        return;
      }
      processRequests := processRequests + [FormProcessRequest(fileUrl.value)];
      if reply == ReplyOk {
        uploadStatus := Success;
      } else {
        uploadStatus := Error;
      }
    }

    /** `handleReset`: every field empty, no files, idle. */
    method HandleReset()
      modifies this
      ensures meetingTitle == "" && meetingDate == "" && meetingPlatform == "" && meetingId == "" && participants == ""
      ensures files == [] && uploadStatus == Next(Reset)
      ensures started == old(started) && processRequests == old(processRequests) && open == old(open)
    {
      meetingTitle := "";
      meetingDate := "";
      meetingPlatform := "";
      meetingId := "";
      participants := "";
      files := [];
      uploadStatus := Idle;
    }

    /** The timer set after a successful upload: `handleClose` resets the form and closes the dialog. */
    method OnSuccessTimer()
      modifies this
      ensures meetingTitle == "" && meetingDate == "" && meetingPlatform == "" && meetingId == "" && participants == ""
      ensures files == [] && uploadStatus == Idle && !open
      ensures started == old(started) && processRequests == old(processRequests)
    {
      HandleReset();
      open := false;
    }
  }
}
