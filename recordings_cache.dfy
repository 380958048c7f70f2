/**
  The client-side query cache for recordings: when the status queries poll and
  stop polling, when queries run at all, and how the regenerate and delete
  mutations update the cached recording list and the cached single
  recordings optimistically, confirm on success and roll back on error.

  The cache holds the raw response bodies: `{ recordings: [...] }` for the
  list and `{ recording: {...} }` per recording id. Network calls, toasts and
  logging are left out; each callback is a method on the cache.
*/
module RecordingsCache {

  import opened Js
  import opened Seqs

  // ---------------------------------------------------------------- polling

  /** A `refetchInterval` result: `false` stops polling, a number is the delay in milliseconds. */
  datatype Interval = Stop | Every(ms: nat)

  /** The raw Google speech-to-text status response; `done` is the truthiness of `status.done`. */
  datatype SttStatus = SttStatus(done: bool)

  /** Poll every 3 s until the operation reports done. */
  function GoogleSttInterval(data: Option<Option<SttStatus>>): (r: Interval)
    ensures r == Stop <==> data.Some? && data.value.Some? && data.value.value.done
    ensures r != Stop ==> r == Every(3000)
  {
    if data.Some? && data.value.Some? && data.value.value.done then Stop else Every(3000)
  }

  /** The raw AssemblyAI status response: `status.status`, when present. */
  datatype AssemblyStatus = AssemblyStatus(status: Option<string>)

  /** Poll every 5 s until the transcript is "completed" or has failed with "error". */
  function AssemblyAiInterval(data: Option<Option<AssemblyStatus>>): (r: Interval)
    ensures r == Stop <==> (data.Some? && data.value.Some?
      && (data.value.value.status == Some("completed") || data.value.value.status == Some("error")))
    ensures r != Stop ==> r == Every(5000)
  {
    if data.Some? && data.value.Some?
      && (data.value.value.status == Some("completed") || data.value.value.status == Some("error"))
    then Stop
    else Every(5000)
  }

  lemma PollingExamples()
    ensures GoogleSttInterval(None) == Every(3000)
    ensures GoogleSttInterval(Some(Some(SttStatus(false)))) == Every(3000)
    ensures GoogleSttInterval(Some(Some(SttStatus(true)))) == Stop
    ensures AssemblyAiInterval(Some(Some(AssemblyStatus(Some("processing"))))) == Every(5000)
    ensures AssemblyAiInterval(Some(Some(AssemblyStatus(Some("Completed"))))) == Every(5000)
    ensures AssemblyAiInterval(Some(Some(AssemblyStatus(Some("error"))))) == Stop
  {
  }

  /** `enabled: !!id`: a single recording is fetched only for a non-empty id. */
  predicate RecordingQueryEnabled(id: Option<string>) {
    Truthy(id)
  }

  /** `enabled: !!operationName && enabled` (and the same for the AssemblyAI transcript id). */
  predicate StatusQueryEnabled(operationId: Option<string>, enabled: bool) {
    Truthy(operationId) && enabled
  }

  /** A disabled status query never polls, whatever the caller's flag says; an empty id is the same as none. */
  lemma EnabledRules(id: Option<string>, enabled: bool)
    ensures !Truthy(id) ==> !RecordingQueryEnabled(id) && !StatusQueryEnabled(id, enabled)
    ensures !enabled ==> !StatusQueryEnabled(id, enabled)
    ensures Truthy(id) ==> RecordingQueryEnabled(id) && (StatusQueryEnabled(id, enabled) <==> enabled)
    ensures StatusQueryEnabled(Some(""), true) == false
  {
  }

  // ---------------------------------------------------------------- cached data

  /** A cached recording; `rest` stands for the fields the updaters copy unchanged. */
  datatype CachedRecording = CachedRecording(
    id: string,
    transcript: Option<string>,
    summary: Option<string>,
    isRegeneratingTranscript: bool,
    isRegeneratingSummary: bool,
    rest: string)

  /** `{ recordings }` as cached for the list; the array may be missing. */
  datatype ListData = ListData(recordings: Option<seq<CachedRecording>>)

  /** `{ recording }` as cached per id; the recording may be missing. */
  datatype SingleData = SingleData(recording: Option<CachedRecording>)

  /** Which text a regeneration produces. */
  datatype Field = TranscriptField | SummaryField

  function SetField(r: CachedRecording, field: Field, value: string): CachedRecording {
    match field
    case TranscriptField => r.(transcript := Some(value))
    case SummaryField => r.(summary := Some(value))
  }

  function SetRegenerating(r: CachedRecording, field: Field, flag: bool): CachedRecording {
    match field
    case TranscriptField => r.(isRegeneratingTranscript := flag)
    case SummaryField => r.(isRegeneratingSummary := flag)
  }

  function FieldOf(r: CachedRecording, field: Field): Option<string> {
    match field
    case TranscriptField => r.transcript
    case SummaryField => r.summary
  }

  function RegeneratingOf(r: CachedRecording, field: Field): bool {
    match field
    case TranscriptField => r.isRegeneratingTranscript
    case SummaryField => r.isRegeneratingSummary
  }

  /** The fields a regeneration of `field` leaves alone. */
  predicate SameOtherwise(a: CachedRecording, b: CachedRecording, field: Field) {
    a.id == b.id && a.rest == b.rest
    && (field == TranscriptField ==> a.summary == b.summary && a.isRegeneratingSummary == b.isRegeneratingSummary)
    && (field == SummaryField ==> a.transcript == b.transcript && a.isRegeneratingTranscript == b.isRegeneratingTranscript)
  }

  // ---------------------------------------------------------------- updaters

  /** The `onMutate` updater: flag the cached recording as regenerating; nothing cached is left as is. */
  function MarkRegenerating(cached: Option<SingleData>, field: Field): (r: Option<SingleData>)
    ensures cached.None? || cached.value.recording.None? ==> r == cached
    ensures cached.Some? && cached.value.recording.Some? ==>
      r.Some? && r.value.recording.Some?
      && RegeneratingOf(r.value.recording.value, field)
      && FieldOf(r.value.recording.value, field) == FieldOf(cached.value.recording.value, field)
      && SameOtherwise(r.value.recording.value, cached.value.recording.value, field)
  {
    if cached.Some? && cached.value.recording.Some? then
      Some(cached.value.(recording := Some(SetRegenerating(cached.value.recording.value, field, true))))
    else cached
  }

  /** The `onSuccess` updater for the single recording: store the new text and clear the flag. */
  function ApplyRegenerated(cached: Option<SingleData>, field: Field, value: string): (r: Option<SingleData>)
    ensures cached.None? || cached.value.recording.None? ==> r == cached
    ensures cached.Some? && cached.value.recording.Some? ==>
      r.Some? && r.value.recording.Some?
      && !RegeneratingOf(r.value.recording.value, field)
      && FieldOf(r.value.recording.value, field) == Some(value)
      && SameOtherwise(r.value.recording.value, cached.value.recording.value, field)
  {
    if cached.Some? && cached.value.recording.Some? then
      var rec := SetRegenerating(SetField(cached.value.recording.value, field, value), field, false);
      Some(cached.value.(recording := Some(rec)))
    else cached
  }

  /** `recordings.map(...)`: the recordings with the given id get the new text. */
  function MapField(rs: seq<CachedRecording>, id: string, field: Field, value: string): (r: seq<CachedRecording>)
    ensures |r| == |rs|
    ensures forall i :: 0 <= i < |rs| && rs[i].id == id ==>
      FieldOf(r[i], field) == Some(value) && SameOtherwise(r[i], rs[i], field)
      && RegeneratingOf(r[i], field) == RegeneratingOf(rs[i], field)
    ensures forall i :: 0 <= i < |rs| && rs[i].id != id ==> r[i] == rs[i]
  {
    seq(|rs|, i requires 0 <= i < |rs| => if rs[i].id == id then SetField(rs[i], field, value) else rs[i])
  }

  /** The `onSuccess` updater for the list; without a cached list it returns what it was given. */
  function UpdateList(cached: Option<ListData>, id: string, field: Field, value: string): (r: Option<ListData>)
    ensures cached.None? || cached.value.recordings.None? ==> r == cached
    ensures cached.Some? && cached.value.recordings.Some? ==>
      r.Some? && r.value.recordings == Some(MapField(cached.value.recordings.value, id, field, value))
  {
    if cached.None? || cached.value.recordings.None? then cached
    else Some(cached.value.(recordings := Some(MapField(cached.value.recordings.value, id, field, value))))
  }

  /** Updating the list for a recording it does not hold changes nothing. */
  lemma UpdateListAbsent(cached: Option<ListData>, id: string, field: Field, value: string)
    requires cached.Some? && cached.value.recordings.Some?
    requires forall i :: 0 <= i < |cached.value.recordings.value| ==> cached.value.recordings.value[i].id != id
    ensures UpdateList(cached, id, field, value) == cached
  {
    var rs := cached.value.recordings.value;
    assert MapField(rs, id, field, value) == rs;
  }

  function IsNot(id: string): CachedRecording -> bool {
    (r: CachedRecording) => r.id != id
  }

  /** The optimistic delete: the recordings with the given id are dropped, the others kept in order. */
  function RemoveFromList(cached: Option<ListData>, id: string): (r: Option<ListData>)
    ensures cached.None? || cached.value.recordings.None? ==> r == cached
    ensures cached.Some? && cached.value.recordings.Some? ==>
      r.Some? && r.value.recordings.Some?
      && r.value.recordings.value == Filter(cached.value.recordings.value, IsNot(id))
      && (forall i :: 0 <= i < |r.value.recordings.value| ==> r.value.recordings.value[i].id != id)
      && (forall i :: 0 <= i < |cached.value.recordings.value| && cached.value.recordings.value[i].id != id ==>
            cached.value.recordings.value[i] in r.value.recordings.value)
  {
    if cached.None? || cached.value.recordings.None? then cached
    else
      FilterMembers(cached.value.recordings.value, IsNot(id));
      Some(cached.value.(recordings := Some(Filter(cached.value.recordings.value, IsNot(id)))))
  }

  /** Deleting the same recording twice leaves the list as deleting it once. */
  lemma RemoveTwice(cached: Option<ListData>, id: string)
    ensures RemoveFromList(RemoveFromList(cached, id), id) == RemoveFromList(cached, id)
  {
    if cached.Some? && cached.value.recordings.Some? {
      var rs := cached.value.recordings.value;
      FilterMembers(rs, IsNot(id));
      FilterAll(Filter(rs, IsNot(id)), IsNot(id));
    }
  }

  // ---------------------------------------------------------------- the cache

  class QueryCache {
    /** `['recordings']`; `None` when nothing is cached. */
    var list: Option<ListData>
    /** `['recordings', id]` for each cached id. */
    var single: map<string, SingleData>

    constructor ()
      ensures list == None && single == map[]
    {
      list := None;
      single := map[];
    }

    /** `getQueryData(['recordings', id])`. */
    function Get(id: string): (r: Option<SingleData>)
      reads this
      ensures r.Some? <==> id in single
      ensures r.Some? ==> r.value == single[id]
    {
      if id in single then Some(single[id]) else None
    }

    /** `setQueryData(['recordings', id], updater)`: an updater returning `undefined` leaves the cache alone. */
    method SetSingle(id: string, data: Option<SingleData>)
      modifies this
      ensures data.Some? ==> single == old(single)[id := data.value]
      ensures data.None? ==> single == old(single)
      ensures list == old(list)
    {
      if data.Some? {
        single := single[id := data.value];
      }
    }

    /** `onMutate` of a regeneration: snapshot the cached recording, then flag it. */
    method OnMutateRegenerate(recordingId: string, field: Field) returns (previousRecording: Option<SingleData>)
      modifies this
      ensures previousRecording == old(Get(recordingId))
      ensures Get(recordingId) == MarkRegenerating(old(Get(recordingId)), field)
      ensures MarkRegenerating(old(Get(recordingId)), field).Some? ==>
        single == old(single)[recordingId := MarkRegenerating(old(Get(recordingId)), field).value]
      ensures MarkRegenerating(old(Get(recordingId)), field).None? ==> single == old(single)
      ensures list == old(list)
    {
      previousRecording := Get(recordingId);
      SetSingle(recordingId, MarkRegenerating(Get(recordingId), field));
    }

    /** `onSuccess` of a regeneration: the single recording and the list both get the new text. */
    method OnSuccessRegenerate(recordingId: string, field: Field, value: string)
      modifies this
      ensures Get(recordingId) == ApplyRegenerated(old(Get(recordingId)), field, value)
      ensures ApplyRegenerated(old(Get(recordingId)), field, value).Some? ==>
        single == old(single)[recordingId := ApplyRegenerated(old(Get(recordingId)), field, value).value]
      ensures ApplyRegenerated(old(Get(recordingId)), field, value).None? ==> single == old(single)
      ensures list == UpdateList(old(list), recordingId, field, value)
    {
      SetSingle(recordingId, ApplyRegenerated(Get(recordingId), field, value));
      list := UpdateList(list, recordingId, field, value);
    }

    /** `onError` of a regeneration: put back the snapshot, if there was one. */
    method OnErrorRegenerate(recordingId: string, previousRecording: Option<SingleData>)
      modifies this
      ensures previousRecording.Some? ==> single == old(single)[recordingId := previousRecording.value]
      ensures previousRecording.None? ==> single == old(single)
      ensures list == old(list)
    {
      if previousRecording.Some? {
        single := single[recordingId := previousRecording.value];
      }
    }

    /** A regeneration that fails leaves the cache exactly as it was before `onMutate`. */
    method RegenerateFails(recordingId: string, field: Field)
      modifies this
      ensures single == old(single) && list == old(list)
    {
      var context := OnMutateRegenerate(recordingId, field);
      OnErrorRegenerate(recordingId, context);
      if recordingId in old(single) {
        assert old(single)[recordingId := old(single)[recordingId]] == old(single);
      }
    }

    /** `onMutate` of a delete: snapshot the list, then drop the recording from it. */
    method OnMutateDelete(recordingId: string) returns (previousRecordings: Option<ListData>)
      modifies this
      ensures previousRecordings == old(list)
      ensures list == RemoveFromList(old(list), recordingId)
      ensures single == old(single)
    {
      previousRecordings := list;
      list := RemoveFromList(list, recordingId);
    }

    /** `onSuccess` of a delete: forget the single recording's query. */
    method OnSuccessDelete(recordingId: string)
      modifies this
      ensures single == old(single) - {recordingId}
      ensures list == old(list)
    {
      single := single - {recordingId};
    }

    /** `onError` of a delete: put back the snapshot of the list, if there was one. */
    method OnErrorDelete(previousRecordings: Option<ListData>)
      modifies this
      ensures previousRecordings.Some? ==> list == previousRecordings
      ensures previousRecordings.None? ==> list == old(list)
      ensures single == old(single)
    {
      if previousRecordings.Some? {
        list := previousRecordings;
      }
    }

    /** A delete that fails leaves the cache exactly as it was before `onMutate`. */
    method DeleteFails(recordingId: string)
      modifies this
      ensures single == old(single) && list == old(list)
    {
      var context := OnMutateDelete(recordingId);
      OnErrorDelete(context);
    }
  }
}
