/**
  The three stored entities of a meeting recording and the store that holds
  them. A `Db` object stands for the database: its fields are the rows, and
  every endpoint and callback that writes rows is a method that reassigns them.
  Rows are values; reading rows back (`findMany` with a `recordingId` filter,
  ordered by start time where the source asks for it) is `ParticipantsOf` and
  `EntriesOf`.
*/
module Database {

  import opened Js
  import opened Seqs
  import opened RecordingStatus

  /** `createdAt`: the meeting date the uploader supplied, or the time of insertion. */
  datatype CreatedAt = MeetingDate(date: string) | InsertedAt(now: int)

  /** A Recording row. `summary` is the structured summary, kept here as its JSON text. */
  datatype RecordingRow = RecordingRow(
    id: string,
    userId: string,
    recordingUrl: string,
    title: Option<string>,
    meetingId: Option<string>,
    meetingPlatform: Option<string>,
    transcriptionStatus: Status,
    summaryStatus: Status,
    createdAt: CreatedAt,
    transcript: Option<string>,
    summary: Option<string>,
    googleMeetConferenceId: Option<string>,
    googleMeetSpace: Option<string>)

  /** `participantType`: "signedinUser", "anonymousUser" or "phoneUser". */
  datatype ParticipantKind = SignedIn | Anonymous | Phone

  datatype ParticipantRow = ParticipantRow(
    recordingId: string,
    googleParticipantId: string,
    googleUserId: Option<string>,
    displayName: string,
    participantType: ParticipantKind,
    earliestStartTime: Option<string>,
    latestEndTime: Option<string>)

  /** A TranscriptEntry row; the times are milliseconds since the epoch. */
  datatype EntryRow = EntryRow(
    recordingId: string,
    googleEntryId: string,
    googleParticipantId: string,
    text: string,
    languageCode: string,
    startTime: int,
    endTime: int)

  /** The `where: { recordingId }` filters. */
  function ParticipantOf(recordingId: string): ParticipantRow -> bool {
    (p: ParticipantRow) => p.recordingId == recordingId
  }

  function EntryOf(recordingId: string): EntryRow -> bool {
    (e: EntryRow) => e.recordingId == recordingId
  }

  function EntryStart(e: EntryRow): int {
    e.startTime
  }

  class Db {
    var recordings: map<string, RecordingRow>
    var participants: seq<ParticipantRow>
    var entries: seq<EntryRow>

    /** Recording rows are stored under their own id. */
    ghost predicate Valid()
      reads this
    {
      forall id | id in recordings :: recordings[id].id == id
    }

    constructor ()
      ensures recordings == map[] && participants == [] && entries == []
      ensures Valid()
    {
      recordings := map[];
      participants := [];
      entries := [];
    }

    /** `participant.findMany({ where: { recordingId } })`, in insertion order. */
    function ParticipantsOf(recordingId: string): (r: seq<ParticipantRow>)
      reads this
      ensures forall i :: 0 <= i < |r| ==> r[i].recordingId == recordingId
      ensures forall i :: 0 <= i < |participants| && participants[i].recordingId == recordingId ==> participants[i] in r
    {
      FilterMembers(participants, ParticipantOf(recordingId));
      Filter(participants, ParticipantOf(recordingId))
    }

    /**
      `transcriptEntry.findMany({ where: { recordingId }, orderBy: { startTime: "asc" } })`;
      entries with equal start times come back in insertion order.
    */
    function EntriesOf(recordingId: string): (r: seq<EntryRow>)
      reads this
      ensures forall i :: 0 <= i < |r| ==> r[i].recordingId == recordingId
      ensures multiset(r) == multiset(Filter(entries, EntryOf(recordingId)))
      ensures SortedBy(r, EntryStart)
    {
      var mine := Filter(entries, EntryOf(recordingId));
      FilterMembers(entries, EntryOf(recordingId));
      SortBySorted(mine, EntryStart);
      var r := SortBy(mine, EntryStart);
      assert forall i :: 0 <= i < |r| ==> r[i] in multiset(mine);
      r
    }
  }
}
