/**
  The speaker-attributed transcript view: the participants looked up by their
  Meet participant id, the speakers who actually spoke (in order of first
  appearance), the entries left after the speaker and search filters, the
  five-entry preview, and each speaker's initials and avatar colour.

  Participants and entries here are the rows the recording endpoint returns;
  only the fields the view reads are kept.
*/
module TranscriptSpeakers {

  import opened Js
  import opened Seqs

  datatype Participant = Participant(googleParticipantId: string, displayName: Option<string>)

  datatype Entry = Entry(googleParticipantId: Option<string>, text: string)

  // ---------------------------------------------------------------- speaker map

  /** `speakerMap`: participants keyed by their Meet participant id, a later one replacing an earlier one. */
  function SpeakerMapOf(ps: seq<Participant>): (m: map<string, Participant>)
    ensures forall i :: 0 <= i < |ps| ==> ps[i].googleParticipantId in m
    ensures forall id :: id in m ==> m[id].googleParticipantId == id && m[id] in ps
  {
    if ps == [] then map[]
    else
      var before := ps[..|ps| - 1];
      var last := ps[|ps| - 1];
      assert forall i :: 0 <= i < |before| ==> before[i] == ps[i];
      SpeakerMapOf(before)[last.googleParticipantId := last]
  }

  /** The participant stored under an id is the last one in the list with that id. */
  lemma {:induction false} SpeakerMapLastWins(ps: seq<Participant>, i: nat)
    requires i < |ps|
    requires forall j :: i < j < |ps| ==> ps[j].googleParticipantId != ps[i].googleParticipantId
    ensures SpeakerMapOf(ps)[ps[i].googleParticipantId] == ps[i]
    decreases |ps|
  {
    if i < |ps| - 1 {
      var before := ps[..|ps| - 1];
      assert before[i] == ps[i];
      SpeakerMapLastWins(before, i);
    }
  }

  /** The `forEach` filling the map; no participants give an empty map. */
  method BuildSpeakerMap(participants: Option<seq<Participant>>) returns (m: map<string, Participant>)
    ensures participants.None? ==> m == map[]
    ensures participants.Some? ==> m == SpeakerMapOf(participants.value)
  {
    if participants.None? {
      return map[];
    }
    var ps := participants.value;
    m := map[];
    var i := 0;
    while i < |ps|
      invariant 0 <= i <= |ps|
      invariant m == SpeakerMapOf(ps[..i])
    {
      m := m[ps[i].googleParticipantId := ps[i]];
      assert ps[..i + 1][..i] == ps[..i];
      i := i + 1;
    }
    assert ps[..i] == ps;
  }

  // ---------------------------------------------------------------- speakers

  /** The distinct non-empty speaker ids of the first `n` entries, in order of first appearance. */
  function UniqueIdsPrefix(es: seq<Entry>, n: nat): (u: seq<string>)
    requires n <= |es|
    ensures forall i, j :: 0 <= i < j < |u| ==> u[i] != u[j]
    ensures forall k :: 0 <= k < n && Truthy(es[k].googleParticipantId) ==> es[k].googleParticipantId.value in u
    ensures forall x :: x in u ==> x != "" && exists k :: 0 <= k < n && es[k].googleParticipantId == Some(x)
  {
    if n == 0 then []
    else
      var u := UniqueIdsPrefix(es, n - 1);
      var id := es[n - 1].googleParticipantId;
      if Truthy(id) && id.value !in u then u + [id.value] else u
  }

  function UniqueIds(es: seq<Entry>): seq<string> {
    UniqueIdsPrefix(es, |es|)
  }

  /** Later entries only add ids at the end: the ids of a shorter prefix of entries come first. */
  lemma {:induction false} UniqueIdsGrow(es: seq<Entry>, n: nat, m: nat)
    requires n <= m <= |es|
    ensures UniqueIdsPrefix(es, n) <= UniqueIdsPrefix(es, m)
    decreases m - n
  {
    if n < m {
      UniqueIdsGrow(es, n, m - 1);
    }
  }


  /** A map that stores each participant under its own id, as `speakerMap` does. */
  predicate Keyed(m: map<string, Participant>) {
    forall id :: id in m ==> m[id].googleParticipantId == id
  }

  /** `.map(id => speakerMap.get(id)).filter(Boolean)`: the participants of the ids, in the ids' order, skipping unknown ids. */
  function KnownSpeakers(ids: seq<string>, m: map<string, Participant>): (r: seq<Participant>)
    ensures |r| <= |ids|
    ensures Keyed(m) ==> forall i :: 0 <= i < |r| ==>
      r[i].googleParticipantId in ids && r[i].googleParticipantId in m && m[r[i].googleParticipantId] == r[i]
    ensures forall k :: 0 <= k < |ids| && ids[k] in m ==> m[ids[k]] in r
  {
    if ids == [] then []
    else (if ids[0] in m then [m[ids[0]]] else []) + KnownSpeakers(ids[1..], m)
  }

  /** Distinct ids give distinct speakers. */
  lemma {:induction false} KnownSpeakersDistinct(ids: seq<string>, m: map<string, Participant>)
    requires Keyed(m)
    requires forall i, j :: 0 <= i < j < |ids| ==> ids[i] != ids[j]
    ensures forall i, j :: 0 <= i < j < |KnownSpeakers(ids, m)| ==>
      KnownSpeakers(ids, m)[i].googleParticipantId != KnownSpeakers(ids, m)[j].googleParticipantId
    decreases |ids|
  {
    if ids != [] {
      var rest := KnownSpeakers(ids[1..], m);
      KnownSpeakersDistinct(ids[1..], m);
      assert ids[0] !in ids[1..];
      assert forall i :: 0 <= i < |rest| ==> rest[i].googleParticipantId != ids[0];
    }
  }

  /** `speakers`: nothing without entries or participants; else the known speakers in order of first appearance. */
  function Speakers(entries: Option<seq<Entry>>, participants: Option<seq<Participant>>): seq<Participant> {
    if entries.None? || participants.None? then []
    else KnownSpeakers(UniqueIds(entries.value), SpeakerMapOf(participants.value))
  }

  /** Each speaker appears once, spoke in some entry, and is one of the participants. */
  lemma SpeakersSound(entries: Option<seq<Entry>>, participants: Option<seq<Participant>>)
    ensures entries.None? || participants.None? ==> Speakers(entries, participants) == []
    ensures forall i, j :: 0 <= i < j < |Speakers(entries, participants)| ==>
      Speakers(entries, participants)[i].googleParticipantId != Speakers(entries, participants)[j].googleParticipantId
    ensures entries.Some? && participants.Some? ==> forall i :: 0 <= i < |Speakers(entries, participants)| ==>
      Speakers(entries, participants)[i] in participants.value
      && Speakers(entries, participants)[i].googleParticipantId in UniqueIds(entries.value)
  {
    if entries.Some? && participants.Some? {
      KnownSpeakersDistinct(UniqueIds(entries.value), SpeakerMapOf(participants.value));
    }
  }

  /** Every participant who spoke under a non-empty id is listed (as the last participant with that id). */
  lemma SpeakersComplete(es: seq<Entry>, ps: seq<Participant>, k: nat, i: nat)
    requires k < |es| && i < |ps|
    requires es[k].googleParticipantId == Some(ps[i].googleParticipantId) && ps[i].googleParticipantId != ""
    ensures SpeakerMapOf(ps)[ps[i].googleParticipantId] in Speakers(Some(es), Some(ps))
  {
    var ids := UniqueIds(es);
    assert ps[i].googleParticipantId in ids;
  }

  /** The `forEach` collecting speaker ids into a set (kept in insertion order), then the lookup. */
  method SpeakersOf(entries: Option<seq<Entry>>, participants: Option<seq<Participant>>,
                    speakerMap: map<string, Participant>) returns (speakers: seq<Participant>)
    requires participants.Some? ==> speakerMap == SpeakerMapOf(participants.value)
    ensures speakers == Speakers(entries, participants)
  {
    if entries.None? || participants.None? {
      return [];
    }
    var es := entries.value;
    var uniqueSpeakers: seq<string> := [];
    var i := 0;
    while i < |es|
      invariant 0 <= i <= |es|
      invariant uniqueSpeakers == UniqueIdsPrefix(es, i)
    {
      var id := es[i].googleParticipantId;
      if Truthy(id) && id.value !in uniqueSpeakers {
        uniqueSpeakers := uniqueSpeakers + [id.value];
      }
      i := i + 1;
    }
    speakers := KnownSpeakers(uniqueSpeakers, speakerMap);
  }

  // ---------------------------------------------------------------- filters

  /** The entry passes both filters: the selected speaker (when one is selected) and the search term (when it is not blank). */
  function Matches(selected: Option<string>, searchTerm: string): Entry -> bool {
    (e: Entry) =>
      (!Truthy(selected) || e.googleParticipantId == selected)
      && (Trim(searchTerm) == "" || Includes(Lower(e.text), Lower(searchTerm)))
  }

  function SpeakerIs(id: string): Entry -> bool {
    (e: Entry) => e.googleParticipantId == Some(id)
  }

  function TextContains(searchLower: string): Entry -> bool {
    (e: Entry) => Includes(Lower(e.text), searchLower)
  }

  /**
    `filteredEntries`: the speaker filter, then the case-insensitive search for
    the untrimmed term. The result is the entries passing both, in their order.
  */
  method FilterEntries(entries: Option<seq<Entry>>, selectedSpeaker: Option<string>, searchTerm: string)
    returns (filtered: seq<Entry>)
    ensures entries.None? ==> filtered == []
    ensures entries.Some? ==> filtered == Filter(entries.value, Matches(selectedSpeaker, searchTerm))
  {
    if entries.None? {
      return [];
    }
    var es := entries.value;
    var matches := Matches(selectedSpeaker, searchTerm);
    filtered := es;
    if Truthy(selectedSpeaker) {
      filtered := Filter(filtered, SpeakerIs(selectedSpeaker.value));
    }
    if Trim(searchTerm) != "" {
      var searchLower := Lower(searchTerm);
      if Truthy(selectedSpeaker) {
        FilterFilter(es, SpeakerIs(selectedSpeaker.value), TextContains(searchLower), matches);
      } else {
        FilterCongruent(es, TextContains(searchLower), matches);
      }
      filtered := Filter(filtered, TextContains(searchLower));
    } else if Truthy(selectedSpeaker) {
      FilterCongruent(es, SpeakerIs(selectedSpeaker.value), matches);
    } else {
      FilterAll(es, matches);
    }
  }

  // ---------------------------------------------------------------- preview

  const PreviewLength: nat := 5

  /** `displayEntries`: the first five entries while collapsed, all of them when expanded or when there are at most five. */
  function DisplayEntries(filtered: seq<Entry>, isExpanded: bool): (r: seq<Entry>)
    ensures r <= filtered
    ensures !isExpanded ==> |r| == if |filtered| <= PreviewLength then |filtered| else PreviewLength
    ensures isExpanded ==> r == filtered
  {
    var isLongTranscript := |filtered| > PreviewLength;
    if !isLongTranscript || isExpanded then filtered else filtered[..PreviewLength]
  }

  // ---------------------------------------------------------------- avatar

  /** `name.charAt(0).toUpperCase()`: empty for an empty word. */
  function FirstUpper(word: string): (r: string)
    ensures |r| <= 1
    ensures word != "" ==> r == [UpperChar(word[0])]
  {
    if word == "" then "" else [UpperChar(word[0])]
  }

  /** `getSpeakerInitials`: `"?"` without a display name, else the capitalised first letters of the first two space-separated words. */
  function Initials(displayName: Option<string>): (r: string)
    ensures !Truthy(displayName) ==> r == "?"
    ensures |r| <= 2
    ensures Truthy(displayName) && displayName.value[0] != ' ' ==> r != "" && r[0] == UpperChar(displayName.value[0])
  {
    if !Truthy(displayName) then "?"
    else
      var words := Split(displayName.value, ' ');
      FirstUpper(words[0]) + if |words| > 1 then FirstUpper(words[1]) else ""
  }

  /** The capitalised letter of the word starting at `k`; nothing when the word there is empty. */
  function InitialAt(d: string, k: nat): (r: string)
    ensures |r| <= 1
    ensures r != "" <==> k < |d| && d[k] != ' '
  {
    if k < |d| && d[k] != ' ' then [UpperChar(d[k])] else ""
  }

  /** The first piece of a split is empty exactly when the text is empty or starts with the separator, and starts with the text's first character otherwise. */
  lemma SplitFirstPiece(b: string, sep: char)
    ensures Split(b, sep)[0] == "" <==> b == "" || b[0] == sep
    ensures b != "" && b[0] != sep ==> Split(b, sep)[0][0] == b[0]
  {
  }

  /** A one-word name gives one initial: its capitalised first letter. */
  lemma InitialsOneWord(d: string)
    requires d != "" && ' ' !in d
    ensures Initials(Some(d)) == [UpperChar(d[0])]
  {
    SplitNoSeparator(d, ' ');
  }

  /**
    With the first space at `j`, the initials are the capitalised letters
    starting the name and starting the text after that space, each present
    only when a word (not a space) starts there.
  */
  lemma InitialsTwoWords(d: string, j: nat)
    requires j < |d| && d[j] == ' ' && ' ' !in d[..j]
    ensures Initials(Some(d)) == InitialAt(d, 0) + InitialAt(d, j + 1)
  {
    var a, b := d[..j], d[j + 1..];
    assert d == a + [' '] + b;
    SplitAtSeparator(a, b, ' ');
    SplitFirstPiece(b, ' ');
    var words := Split(d, ' ');
    assert words[0] == a && words[1] == Split(b, ' ')[0];
    assert a != "" ==> a[0] == d[0];
    assert b != "" ==> b[0] == d[j + 1];
  }

  lemma InitialsExamples()
    ensures Initials(Some("al b")) == "AB"
    ensures Initials(Some("")) == "?"
    ensures Initials(None) == "?"
  {
    assert Split("b", ' ') == ["b"] by {
      assert "b"[1..] == "" && Split("", ' ') == [""];
      assert ['b'] + "" == "b" && [""][1..] == [];
    }
    assert Split(" b", ' ') == ["", "b"] by {
      assert " b"[1..] == "b";
    }
    assert Split("l b", ' ') == ["l", "b"] by {
      assert "l b"[1..] == " b";
      assert ['l'] + "" == "l" && ["", "b"][1..] == ["b"];
    }
    assert Split("al b", ' ') == ["al", "b"] by {
      assert "al b"[1..] == "l b";
      assert ['a'] + "l" == "al" && ["l", "b"][1..] == ["b"];
    }
  }

  // ---------------------------------------------------------------- avatar colour

  const TwoTo31: int := 0x8000_0000
  const TwoTo32: int := 0x1_0000_0000

  /** ECMAScript's ToInt32 on an integral number: wrap into the signed 32-bit range. */
  function ToInt32(x: int): (r: int)
    ensures -TwoTo31 <= r < TwoTo31
    ensures (x - r) % TwoTo32 == 0
    ensures -TwoTo31 <= x < TwoTo31 ==> r == x
  {
    var m := x % TwoTo32;
    if m >= TwoTo31 then m - TwoTo32 else m
  }

  /** Numbers that differ by a multiple of 2^32 wrap to the same 32-bit integer. */
  lemma ToInt32Congruent(x: int, y: int, k: int)
    requires x - y == k * TwoTo32
    ensures ToInt32(x) == ToInt32(y)
  {
    assert x % TwoTo32 == y % TwoTo32 by {
      assert x == y + k * TwoTo32;
    }
  }

  /** One step of the `reduce`: `a = ((a << 5) - a) + b.charCodeAt(0); return a & a`. */
  function HashStep(a: int, c: char): int {
    var shifted := ToInt32(ToInt32(a) * 32);
    ToInt32(shifted - a + c as int)
  }

  /** The `reduce` over the characters of the id, starting from 0. */
  function Hash(s: string): (h: int)
    ensures -TwoTo31 <= h < TwoTo31
  {
    if s == [] then 0 else HashStep(Hash(s[..|s| - 1]), s[|s| - 1])
  }

  /** The polynomial `s[0]·31^(n-1) + … + s[n-1]` without wrap-around. */
  function Polynomial(s: string): int {
    if s == [] then 0 else 31 * Polynomial(s[..|s| - 1]) + s[|s| - 1] as int
  }

  /** The fold is the base-31 string hash, wrapped to 32 bits. */
  lemma {:induction false} HashIsPolynomial(s: string)
    ensures Hash(s) == ToInt32(Polynomial(s))
    decreases |s|
  {
    if s != [] {
      var pre := s[..|s| - 1];
      var c := s[|s| - 1] as int;
      var a := Hash(pre);
      HashIsPolynomial(pre);
      var shifted := ToInt32(a * 32);
      var k1 := (a * 32 - shifted) / TwoTo32;
      assert a * 32 - shifted == k1 * TwoTo32;
      var k2 := (Polynomial(pre) - a) / TwoTo32;
      assert Polynomial(pre) - a == k2 * TwoTo32;
      var x := shifted - a + c;
      var y := 31 * Polynomial(pre) + c;
      assert y - x == (31 * k2 + k1) * TwoTo32;
      ToInt32Congruent(x, y, -(31 * k2 + k1));
    }
  }

  const Colors: seq<string> := [
    "bg-blue-500", "bg-green-500", "bg-purple-500", "bg-orange-500",
    "bg-pink-500", "bg-indigo-500", "bg-teal-500", "bg-red-500"]

  function Abs(x: int): nat {
    if x < 0 then -x else x
  }

  /** `Math.abs(hash) % colors.length`: always a valid index, also for the hash -2^31. */
  function ColorIndex(speakerId: string): (r: nat)
    ensures r < |Colors|
    ensures r == Abs(ToInt32(Polynomial(speakerId))) % 8
  {
    HashIsPolynomial(speakerId);
    Abs(Hash(speakerId)) % |Colors|
  }

  /** `getSpeakerColor`: one of the eight colour classes. */
  function SpeakerColor(speakerId: string): (r: string)
    ensures r in Colors
  {
    Colors[ColorIndex(speakerId)]
  }

  lemma SpeakerColorExamples()
    ensures Hash("a") == 97 && SpeakerColor("a") == "bg-green-500"
    ensures Hash("ab") == 3105 && SpeakerColor("ab") == "bg-green-500"
    ensures ToInt32(TwoTo31) == -TwoTo31 && Abs(-TwoTo31) % 8 == 0
  {
    assert "a"[..0] == "";
    assert "ab"[..1] == "a";
  }
}
