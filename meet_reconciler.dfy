/**
  The Google Meet data reconciler: given a meeting code, find the Meet
  conference record it belongs to, fetch its participants and the entries of
  its first transcript, assemble the full transcript, and store all of it
  against a recording.

  Every Meet REST call is an input here: a `MeetApi` value holds what each
  call returned (or that it failed). `FindConference` and `Reconcile` are the
  pure decisions; `SaveGoogleMeetData` and `ProcessGoogleMeetRecording` are the
  store writes, proved against them.
*/
module MeetReconciler {

  import opened Js
  import opened Seqs
  import opened Database

  /** A conference record: `name` is `conferenceRecords/…`, `space` the `spaces/…` it took place in. */
  datatype Conference = Conference(name: string, space: string)

  datatype SignedinUser = SignedinUser(user: string, displayName: string)
  /** The payload of an `anonymousUser` or a `phoneUser`. */
  datatype GuestUser = GuestUser(displayName: string)

  datatype MeetParticipant = MeetParticipant(
    name: string,
    earliestStartTime: Option<string>,
    latestEndTime: Option<string>,
    signedinUser: Option<SignedinUser>,
    anonymousUser: Option<GuestUser>,
    phoneUser: Option<GuestUser>)

  datatype MeetTranscript = MeetTranscript(name: string)

  /** A transcript entry; the times are milliseconds since the epoch. */
  datatype MeetEntry = MeetEntry(
    name: string,
    participant: string,
    text: string,
    languageCode: string,
    startTime: int,
    endTime: int)

  /** The second `GET spaces/{code}`, made once no conference record was found. */
  datatype SpaceProbe = SpaceReachable(spaceName: string) | SpaceUnreachable

  /**
    What the Meet API answered for one meeting code.
    - `resolvedSpace`: `name` of `GET spaces/{code}` in the lookup, `""` when that call failed;
    - `conferenceRecords`: `GET conferenceRecords` (an error when the token or the listing failed);
    - `spaceConferenceRecords`: the listing filtered by the resolved space, `None` when it failed;
    - `participants`, `transcripts`: the listings under the found conference;
    - `firstTranscriptEntries`: the entries of the first transcript;
    - `spaceProbe`: the space lookup made when no conference was found.
  */
  datatype MeetApi = MeetApi(
    resolvedSpace: string,
    conferenceRecords: Result<seq<Conference>>,
    spaceConferenceRecords: Option<seq<Conference>>,
    participants: Result<seq<MeetParticipant>>,
    transcripts: Result<seq<MeetTranscript>>,
    firstTranscriptEntries: Result<seq<MeetEntry>>,
    spaceProbe: SpaceProbe)

  /** What `processGoogleMeetRecording` hands back when it does not answer `null`. */
  datatype MeetData = MeetData(
    participants: seq<MeetParticipant>,
    transcriptEntries: seq<MeetEntry>,
    fullTranscript: string)

  // ---------------------------------------------------------------- lookup

  /**
    The records searched: the general listing, or, when it is empty and a space
    was resolved, the non-empty listing for that space.
  */
  function Candidates(resolvedSpace: string, general: seq<Conference>, perSpace: Option<seq<Conference>>): seq<Conference> {
    if |general| > 0 then general
    else if resolvedSpace != "" && perSpace.Some? && |perSpace.value| > 0 then perSpace.value
    else []
  }

  /** First tier: the record took place in the resolved space. */
  predicate ExactMatch(c: Conference, resolvedSpace: string) {
    resolvedSpace != "" && c.space == resolvedSpace
  }

  /** Second tier: the code, in one of its spellings, occurs in the record's space or name. */
  predicate PartialMatch(c: Conference, code: string) {
    (c.space != ""
      && (Includes(c.space, code)
          || Includes(Lower(c.space), Lower(code))
          || Includes(c.space, RemoveChar(code, '-'))))
    || (c.name != ""
      && (Includes(c.name, code) || Includes(Lower(c.name), Lower(code))))
  }

  /** The case-sensitive tests are subsumed by the case-insensitive ones. */
  lemma PartialMatchIgnoresCase(c: Conference, code: string)
    ensures PartialMatch(c, code) <==>
      (c.space != "" && (Includes(Lower(c.space), Lower(code)) || Includes(c.space, RemoveChar(code, '-'))))
      || (c.name != "" && Includes(Lower(c.name), Lower(code)))
  {
    if Includes(c.space, code) {
      IncludesLower(c.space, code);
    }
    if Includes(c.name, code) {
      IncludesLower(c.name, code);
    }
  }

  /**
    `findGoogleMeetConference`: the first record in the resolved space, else the
    first partial match, else nothing; a failed listing is an error. The
    most-recent record is never chosen.
  */
  function FindConference(code: string, resolvedSpace: string, listed: Result<seq<Conference>>, perSpace: Option<seq<Conference>>)
    : (r: Result<Option<Conference>>)
    ensures r.Err? <==> listed.Err?
    ensures listed.Ok? && r.Ok? && r.value.Some? ==>
      var cs := Candidates(resolvedSpace, listed.value, perSpace);
      r.value.value in cs && (ExactMatch(r.value.value, resolvedSpace) || PartialMatch(r.value.value, code))
    ensures listed.Ok? ==>
      var cs := Candidates(resolvedSpace, listed.value, perSpace);
      (r == Ok(None) <==> forall i :: 0 <= i < |cs| ==> !ExactMatch(cs[i], resolvedSpace) && !PartialMatch(cs[i], code))
    ensures listed == Ok([]) && (resolvedSpace == "" || perSpace.None? || perSpace == Some([])) ==> r == Ok(None)
  {
    if listed.Err? then Err(listed.error)
    else
      var cs := Candidates(resolvedSpace, listed.value, perSpace);
      var exact := FindFirst(cs, (c: Conference) => ExactMatch(c, resolvedSpace));
      if resolvedSpace != "" && exact.Some? then Ok(exact)
      else Ok(FindFirst(cs, (c: Conference) => PartialMatch(c, code)))
  }

  /** A record in the resolved space wins over every partial match, even an earlier one. */
  lemma ExactTierWins(code: string, resolvedSpace: string, general: seq<Conference>, perSpace: Option<seq<Conference>>, i: nat)
    requires i < |Candidates(resolvedSpace, general, perSpace)|
    requires ExactMatch(Candidates(resolvedSpace, general, perSpace)[i], resolvedSpace)
    requires forall j :: 0 <= j < i ==> !ExactMatch(Candidates(resolvedSpace, general, perSpace)[j], resolvedSpace)
    ensures FindConference(code, resolvedSpace, Ok(general), perSpace) == Ok(Some(Candidates(resolvedSpace, general, perSpace)[i]))
  {
    FindFirstIsFirst(Candidates(resolvedSpace, general, perSpace), (c: Conference) => ExactMatch(c, resolvedSpace), i);
  }

  /** Without a record in the resolved space, the first partial match in list order is returned. */
  lemma PartialTierFirst(code: string, resolvedSpace: string, general: seq<Conference>, perSpace: Option<seq<Conference>>, i: nat)
    requires forall j :: 0 <= j < |Candidates(resolvedSpace, general, perSpace)| ==>
      !ExactMatch(Candidates(resolvedSpace, general, perSpace)[j], resolvedSpace)
    requires i < |Candidates(resolvedSpace, general, perSpace)|
    requires PartialMatch(Candidates(resolvedSpace, general, perSpace)[i], code)
    requires forall j :: 0 <= j < i ==> !PartialMatch(Candidates(resolvedSpace, general, perSpace)[j], code)
    ensures FindConference(code, resolvedSpace, Ok(general), perSpace) == Ok(Some(Candidates(resolvedSpace, general, perSpace)[i]))
  {
    FindFirstIsFirst(Candidates(resolvedSpace, general, perSpace), (c: Conference) => PartialMatch(c, code), i);
  }

  // ---------------------------------------------------------------- participants

  /**
    The row stored for a participant: its kind is the first user object
    present, its display name the first non-empty name among them (else
    "Unknown"), and only a signed-in user supplies a user id.
  */
  function ParticipantRowOf(recordingId: string, p: MeetParticipant): (r: ParticipantRow)
    ensures r.recordingId == recordingId && r.googleParticipantId == p.name
    ensures r.participantType == SignedIn <==> p.signedinUser.Some?
    ensures r.participantType == Anonymous <==> p.signedinUser.None? && p.anonymousUser.Some?
    ensures r.participantType == Phone <==> p.signedinUser.None? && p.anonymousUser.None?
    ensures r.displayName != ""
    ensures p.signedinUser.Some? && p.signedinUser.value.displayName != "" ==>
      r.displayName == p.signedinUser.value.displayName
    ensures ((p.signedinUser.None? || p.signedinUser.value.displayName == "")
             && p.anonymousUser.Some? && p.anonymousUser.value.displayName != "") ==>
      r.displayName == p.anonymousUser.value.displayName
    ensures (p.signedinUser.None? || p.signedinUser.value.displayName == "")
            && (p.anonymousUser.None? || p.anonymousUser.value.displayName == "")
            && p.phoneUser.Some? && p.phoneUser.value.displayName != "" ==>
      r.displayName == p.phoneUser.value.displayName
    ensures (p.signedinUser.None? || p.signedinUser.value.displayName == "")
            && (p.anonymousUser.None? || p.anonymousUser.value.displayName == "")
            && (p.phoneUser.None? || p.phoneUser.value.displayName == "") ==>
      r.displayName == "Unknown"
    ensures r.displayName != "Unknown" ==>
      (p.signedinUser.Some? && r.displayName == p.signedinUser.value.displayName)
      || (p.anonymousUser.Some? && r.displayName == p.anonymousUser.value.displayName)
      || (p.phoneUser.Some? && r.displayName == p.phoneUser.value.displayName)
    ensures r.googleUserId.Some? <==> p.signedinUser.Some? && p.signedinUser.value.user != ""
    ensures r.googleUserId.Some? ==> r.googleUserId.value == p.signedinUser.value.user
    ensures Truthy(r.earliestStartTime) == Truthy(p.earliestStartTime) && Truthy(r.latestEndTime) == Truthy(p.latestEndTime)
  {
    var kind :=
      if p.signedinUser.Some? then SignedIn
      else if p.anonymousUser.Some? then Anonymous
      else Phone;
    var displayName :=
      if p.signedinUser.Some? && p.signedinUser.value.displayName != "" then p.signedinUser.value.displayName
      else if p.anonymousUser.Some? && p.anonymousUser.value.displayName != "" then p.anonymousUser.value.displayName
      else if p.phoneUser.Some? && p.phoneUser.value.displayName != "" then p.phoneUser.value.displayName
      else "Unknown";
    var userId := if p.signedinUser.Some? && p.signedinUser.value.user != "" then Some(p.signedinUser.value.user) else None;
    ParticipantRow(recordingId, p.name, userId, displayName, kind, OrNull(p.earliestStartTime), OrNull(p.latestEndTime))
  }

  function ParticipantRows(recordingId: string, ps: seq<MeetParticipant>): (rows: seq<ParticipantRow>)
    ensures |rows| == |ps|
  {
    seq(|ps|, k requires 0 <= k < |ps| => ParticipantRowOf(recordingId, ps[k]))
  }

  function EntryRowOf(recordingId: string, e: MeetEntry): EntryRow {
    EntryRow(recordingId, e.name, e.participant, e.text, e.languageCode, e.startTime, e.endTime)
  }

  function EntryRows(recordingId: string, es: seq<MeetEntry>): (rows: seq<EntryRow>)
    ensures |rows| == |es|
  {
    seq(|es|, k requires 0 <= k < |es| => EntryRowOf(recordingId, es[k]))
  }

  // ---------------------------------------------------------------- transcript

  function StartOf(e: MeetEntry): int {
    e.startTime
  }

  function Texts(es: seq<MeetEntry>): (ts: seq<string>)
    ensures |ts| == |es|
  {
    seq(|es|, k requires 0 <= k < |es| => es[k].text)
  }

  /** The entries actually fetched: those of the first transcript, none when either listing failed. */
  function FetchedEntries(api: MeetApi): seq<MeetEntry> {
    if api.transcripts.Ok? && |api.transcripts.value| > 0 && api.firstTranscriptEntries.Ok?
    then api.firstTranscriptEntries.value
    else []
  }

  /**
    The full transcript: the entry texts in start-time order (ties in fetch
    order), separated by single spaces.
  */
  function FullTranscript(entries: seq<MeetEntry>): (r: string)
    ensures entries == [] ==> r == ""
    ensures |entries| == 1 ==> r == entries[0].text
  {
    if |entries| > 0 then Join(Texts(SortBy(entries, StartOf)), " ") else ""
  }

  /** Entries already in start-time order are joined as they are. */
  lemma FullTranscriptOfOrdered(entries: seq<MeetEntry>)
    requires SortedBy(entries, StartOf)
    ensures FullTranscript(entries) == Join(Texts(entries), " ")
  {
    SortBySortedIdentity(entries, StartOf);
  }

  /** Two entries fetched out of order come out in start-time order. */
  lemma FullTranscriptExample()
    ensures FullTranscript([
      MeetEntry("e2", "p2", "world", "en-US", 3000, 4000),
      MeetEntry("e1", "p1", "hello", "en-US", 1000, 2000)]) == "hello world"
  {
    var w := MeetEntry("e2", "p2", "world", "en-US", 3000, 4000);
    var h := MeetEntry("e1", "p1", "hello", "en-US", 1000, 2000);
    SortSwapsPair(w, h);
    assert Texts([h, w]) == ["hello", "world"];
    assert Join(["hello", "world"], " ") == "hello" + " " + Join(["world"], " ") by {
      assert ["hello", "world"][1..] == ["world"];
    }
  }

  /** Two entries, the later one fetched first, are swapped by the sort. */
  lemma SortSwapsPair(a: MeetEntry, b: MeetEntry)
    requires StartOf(b) < StartOf(a)
    ensures SortBy([a, b], StartOf) == [b, a]
  {
    assert [a, b][1..] == [b];
    assert SortBy([b], StartOf) == [b] by {
      assert [b][1..] == [];
    }
    assert InsertBy(a, [b], StartOf) == [b] + InsertBy(a, [b][1..], StartOf);
    assert [b][1..] == [];
  }

  // ---------------------------------------------------------------- outcome

  /** The three answers of `processGoogleMeetRecording`, plus the error it rethrows. */
  datatype MeetOutcome =
    | Found(conference: Conference, data: MeetData)
    | SpaceOnly(space: string)
    | NotFound
    | Failure(error: string)

  function Lookup(code: string, api: MeetApi): Result<Option<Conference>> {
    FindConference(code, api.resolvedSpace, api.conferenceRecords, api.spaceConferenceRecords)
  }

  /**
    The decision of `processGoogleMeetRecording`: with a conference, its
    participants (a failed listing propagates) and the first transcript's
    entries sorted by start time (failed transcript listings are absorbed);
    without one, the space alone when it can be reached, else nothing.
  */
  function Reconcile(code: string, api: MeetApi): (o: MeetOutcome)
    ensures o.Failure? <==>
      Lookup(code, api).Err? || (Lookup(code, api).Ok? && Lookup(code, api).value.Some? && api.participants.Err?)
    ensures o.Found? ==>
      Lookup(code, api) == Ok(Some(o.conference))
      && api.participants == Ok(o.data.participants)
      && multiset(o.data.transcriptEntries) == multiset(FetchedEntries(api))
      && SortedBy(o.data.transcriptEntries, StartOf)
      && o.data.fullTranscript == Join(Texts(o.data.transcriptEntries), " ")
    ensures o.SpaceOnly? <==> Lookup(code, api) == Ok(None) && api.spaceProbe.SpaceReachable?
    ensures o.SpaceOnly? ==> o.space == api.spaceProbe.spaceName
    ensures o.NotFound? <==> Lookup(code, api) == Ok(None) && api.spaceProbe == SpaceUnreachable
  {
    match Lookup(code, api)
    case Err(e) => Failure(e)
    case Ok(None) =>
      if api.spaceProbe.SpaceReachable? then SpaceOnly(api.spaceProbe.spaceName) else NotFound
    case Ok(Some(conference)) =>
      if api.participants.Err? then Failure(api.participants.error)
      else
        var fetched := FetchedEntries(api);
        var sorted := if |fetched| > 0 then SortBy(fetched, StartOf) else fetched;
        SortBySorted(fetched, StartOf);
        Found(conference, MeetData(api.participants.value, sorted, FullTranscript(fetched)))
  }

  /** Without any transcript entries the full transcript is empty, whatever was found. */
  lemma NoEntriesNoTranscript(code: string, api: MeetApi)
    requires FetchedEntries(api) == []
    requires Reconcile(code, api).Found?
    ensures Reconcile(code, api).data.fullTranscript == ""
    ensures Reconcile(code, api).data.transcriptEntries == []
  {
    var o := Reconcile(code, api);
    assert |o.data.transcriptEntries| == |multiset(o.data.transcriptEntries)| == 0;
  }

  // ---------------------------------------------------------------- store writes

  /**
    `saveGoogleMeetData`: record the conference on the recording, then one row
    per participant and one per transcript entry, in order. A missing recording
    makes the first update throw before anything is written.
  */
  method SaveGoogleMeetData(db: Db, recordingId: string, conference: Conference,
                            participants: seq<MeetParticipant>, entries: seq<MeetEntry>)
    returns (saved: bool)
    requires db.Valid()
    modifies db
    ensures db.Valid()
    ensures saved <==> recordingId in old(db.recordings)
    ensures !saved ==> unchanged(db)
    ensures saved ==>
      db.recordings == old(db.recordings)[recordingId := old(db.recordings)[recordingId].(
        googleMeetConferenceId := Some(conference.name), googleMeetSpace := Some(conference.space))]
      && db.participants == old(db.participants) + ParticipantRows(recordingId, participants)
      && db.entries == old(db.entries) + EntryRows(recordingId, entries)
  {
    if recordingId !in db.recordings {
      return false;
    }
    db.recordings := db.recordings[recordingId := db.recordings[recordingId].(
      googleMeetConferenceId := Some(conference.name), googleMeetSpace := Some(conference.space))];
    ghost var updated := db.recordings;

    var i := 0;
    while i < |participants|
      invariant 0 <= i <= |participants|
      invariant db.participants == old(db.participants) + ParticipantRows(recordingId, participants[..i])
      invariant db.entries == old(db.entries) && db.recordings == updated
      invariant db.Valid()
    {
      assert ParticipantRows(recordingId, participants[..i + 1])
        == ParticipantRows(recordingId, participants[..i]) + [ParticipantRowOf(recordingId, participants[i])];
      db.participants := db.participants + [ParticipantRowOf(recordingId, participants[i])];
      i := i + 1;
    }
    assert participants[..i] == participants;

    var j := 0;
    while j < |entries|
      invariant 0 <= j <= |entries|
      invariant db.entries == old(db.entries) + EntryRows(recordingId, entries[..j])
      invariant db.participants == old(db.participants) + ParticipantRows(recordingId, participants)
      invariant db.recordings == updated
      invariant db.Valid()
    {
      assert EntryRows(recordingId, entries[..j + 1])
        == EntryRows(recordingId, entries[..j]) + [EntryRowOf(recordingId, entries[j])];
      db.entries := db.entries + [EntryRowOf(recordingId, entries[j])];
      j := j + 1;
    }
    assert entries[..j] == entries;
    return true;
  }

  /**
    `processGoogleMeetRecording`: carry out `Reconcile` against the store. A
    found conference is saved (an error when the recording is missing); a
    reachable space alone is recorded on the recording and answered with empty
    data, and a failure to record it is swallowed into `null`.
  */
  method ProcessGoogleMeetRecording(db: Db, recordingId: string, meetingId: string, api: MeetApi)
    returns (r: Result<Option<MeetData>>)
    requires db.Valid()
    modifies db
    ensures db.Valid()
    ensures match Reconcile(meetingId, api)
      case Failure(e) => r == Err(e) && unchanged(db)
      case NotFound => r == Ok(None) && unchanged(db)
      case SpaceOnly(space) =>
        if recordingId in old(db.recordings) then
          r == Ok(Some(MeetData([], [], "")))
          && db.recordings == old(db.recordings)[recordingId := old(db.recordings)[recordingId].(googleMeetSpace := Some(space))]
          && db.participants == old(db.participants) && db.entries == old(db.entries)
        else r == Ok(None) && unchanged(db)
      case Found(conference, data) =>
        if recordingId in old(db.recordings) then
          r == Ok(Some(data))
          && db.recordings == old(db.recordings)[recordingId := old(db.recordings)[recordingId].(
               googleMeetConferenceId := Some(conference.name), googleMeetSpace := Some(conference.space))]
          && db.participants == old(db.participants) + ParticipantRows(recordingId, data.participants)
          && db.entries == old(db.entries) + EntryRows(recordingId, data.transcriptEntries)
        else r.Err? && unchanged(db)
  {
    match Reconcile(meetingId, api)
    case Failure(e) =>
      r := Err(e);
    case NotFound =>
      r := Ok(None);
    case SpaceOnly(space) =>
      if recordingId in db.recordings {
        db.recordings := db.recordings[recordingId := db.recordings[recordingId].(googleMeetSpace := Some(space))];
        r := Ok(Some(MeetData([], [], "")));
      } else {
        r := Ok(None);
      }
    case Found(conference, data) =>
      var saved := SaveGoogleMeetData(db, recordingId, conference, data.participants, data.transcriptEntries);
      if saved {
        r := Ok(Some(data));
      } else {
        r := Err("Record to update not found.");
      }
  }
}
