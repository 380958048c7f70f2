/**
  The formatter for generated meeting text: line breaks are normalised, the
  text is cut at `**bold**` runs (the runs kept as pieces of their own), bold
  runs become strong nodes, other pieces are read line by line into bullet
  items, text spans and line breaks, and a blank gap (two line breaks) is
  added where a bullet list ends.

  `FormatTextWithBold` is the loop-by-loop rendering; `Format` is its
  specification, built from `Normalize`, `SplitBold`, `Elements` and `Spaced`.
*/
module FormatText {

  import opened Js
  import opened Seqs

  // ---------------------------------------------------------------- line breaks

  /** `replace(/\r\n/g, '\n')`: each CR LF pair, scanned left to right, becomes one LF. */
  function ReplaceCrLf(s: string): (r: string)
    ensures |r| <= |s|
    ensures '\r' !in s ==> r == s
    ensures forall c :: c in r ==> c in s
    decreases |s|
  {
    if |s| >= 2 && s[0] == '\r' && s[1] == '\n' then "\n" + ReplaceCrLf(s[2..])
    else if s == [] then []
    else [s[0]] + ReplaceCrLf(s[1..])
  }

  /** `replace(/\r/g, '\n')`. */
  function ReplaceCr(s: string): (r: string)
    ensures |r| == |s|
    ensures '\r' !in r
    ensures forall i :: 0 <= i < |s| ==> r[i] == (if s[i] == '\r' then '\n' else s[i])
  {
    seq(|s|, i requires 0 <= i < |s| => if s[i] == '\r' then '\n' else s[i])
  }

  /** Every line ending becomes a single `\n`; text without carriage returns is left alone. */
  function Normalize(s: string): (r: string)
    ensures '\r' !in r
    ensures |r| <= |s|
    ensures '\r' !in s ==> r == s
  {
    ReplaceCr(ReplaceCrLf(s))
  }

  /**
    Line endings read in one pass: a CR LF pair or a lone CR is one line
    ending and becomes one `\n`; every other character stays.
  */
  function NormalizeRef(s: string): (r: string)
    ensures '\r' !in r
    decreases |s|
  {
    if s == [] then []
    else if s[0] == '\r' && |s| >= 2 && s[1] == '\n' then "\n" + NormalizeRef(s[2..])
    else if s[0] == '\r' then "\n" + NormalizeRef(s[1..])
    else [s[0]] + NormalizeRef(s[1..])
  }

  lemma ReplaceCrAppend(a: string, b: string)
    ensures ReplaceCr(a + b) == ReplaceCr(a) + ReplaceCr(b)
  {
    var ab := a + b;
    assert forall i :: |a| <= i < |ab| ==> ab[i] == b[i - |a|];
  }

  /** The two replacements in turn end every line the way the one-pass reading does. */
  lemma {:induction false} NormalizeIsLineEndings(s: string)
    ensures Normalize(s) == NormalizeRef(s)
    decreases |s|
  {
    if s != [] {
      if s[0] == '\r' && |s| >= 2 && s[1] == '\n' {
        NormalizeIsLineEndings(s[2..]);
        ReplaceCrAppend("\n", ReplaceCrLf(s[2..]));
        assert ReplaceCr("\n") == "\n";
      } else {
        NormalizeIsLineEndings(s[1..]);
        assert ReplaceCrLf(s) == [s[0]] + ReplaceCrLf(s[1..]);
        ReplaceCrAppend([s[0]], ReplaceCrLf(s[1..]));
        assert ReplaceCr([s[0]]) == [if s[0] == '\r' then '\n' else s[0]];
      }
    }
  }

  /** A CR LF pair becomes one line feed. */
  lemma NormalizeCrLfExample()
    ensures Normalize("a\r\nb") == "a\nb"
  {
    assert ReplaceCrLf("a\r\nb") == "a\nb" by {
      assert "a\r\nb"[1..] == "\r\nb";
      assert "\r\nb"[2..] == "b";
      assert ReplaceCrLf("b") == "b";
    }
  }

  /** A lone carriage return becomes a line feed. */
  lemma NormalizeCrExample()
    ensures Normalize("a\rb") == "a\nb"
  {
    assert ReplaceCrLf("a\rb") == "a\rb" by {
      assert "a\rb"[1..] == "\rb";
      assert "\rb"[1..] == "b";
      assert ReplaceCrLf("b") == "b";
    }
  }

  /** A CR before a CR LF pair ends one line of its own. */
  lemma NormalizeCrCrLfExample()
    ensures Normalize("\r\r\n") == "\n\n"
  {
    assert ReplaceCrLf("\r\r\n") == "\r\n" by {
      assert "\r\r\n"[1..] == "\r\n";
      assert "\r\n"[2..] == "";
    }
  }

  // ---------------------------------------------------------------- bold split

  /** A piece the pattern `\*\*[^*]+\*\*` matches exactly. */
  predicate IsBoldToken(t: string) {
    |t| >= 5 && t[0] == '*' && t[1] == '*' && t[|t| - 2] == '*' && t[|t| - 1] == '*'
    && forall k :: 2 <= k < |t| - 2 ==> t[k] != '*'
  }

  /** The first `*` at or after `k`, or the end of `s`. */
  function StarFrom(s: string, k: nat): (j: nat)
    requires k <= |s|
    ensures k <= j <= |s|
    ensures j < |s| ==> s[j] == '*'
    decreases |s| - k
  {
    if k == |s| || s[k] == '*' then k else StarFrom(s, k + 1)
  }

  /** No `*` lies between `k` and the star found from `k`. */
  lemma {:induction false} StarFromSkips(s: string, k: nat)
    requires k <= |s|
    ensures forall i :: k <= i < StarFrom(s, k) ==> s[i] != '*'
    decreases |s| - k
  {
    if k < |s| && s[k] != '*' {
      StarFromSkips(s, k + 1);
    }
  }

  /** The length of the pattern's match starting at `i`, or 0 when it does not match there. */
  function MatchAt(s: string, i: nat): (m: nat)
    requires i <= |s|
    ensures m != 0 ==> i + 5 <= i + m <= |s|
  {
    if i + 1 < |s| && s[i] == '*' && s[i + 1] == '*' then
      var j := StarFrom(s, i + 2);
      if j > i + 2 && j + 1 < |s| && s[j + 1] == '*' then j + 2 - i
      else 0
    else 0
  }

  /** What the pattern matches at `i` is a bold run. */
  lemma MatchAtSound(s: string, i: nat)
    requires i <= |s|
    ensures MatchAt(s, i) != 0 ==> IsBoldToken(s[i..i + MatchAt(s, i)])
  {
    var m := MatchAt(s, i);
    if m != 0 {
      var j := StarFrom(s, i + 2);
      StarFromSkips(s, i + 2);
      var t := s[i..j + 2];
      assert forall k :: 2 <= k < |t| - 2 ==> t[k] == s[i + k];
    }
  }

  /** The pattern matches at `i` exactly when a bold run starts there, and that run is the match. */
  lemma MatchAtComplete(s: string, i: nat, e: nat)
    requires i < e <= |s|
    ensures IsBoldToken(s[i..e]) ==> MatchAt(s, i) == e - i
  {
    var t := s[i..e];
    if IsBoldToken(t) {
      assert t[0] == s[i] && t[1] == s[i + 1];
      var j := StarFrom(s, i + 2);
      StarFromSkips(s, i + 2);
      assert t[|t| - 2] == s[e - 2] && t[|t| - 1] == s[e - 1];
    }
  }

  /**
    `split` by the pattern with its capture kept, scanning from `q` with the
    current piece starting at `p`: text between matches and the matches
    themselves alternate, starting and ending with text.
  */
  function SplitFrom(s: string, p: nat, q: nat): (parts: seq<string>)
    requires p <= q <= |s|
    ensures |parts| % 2 == 1
    decreases |s| - q
  {
    if q == |s| then [s[p..]]
    else
      var m := MatchAt(s, q);
      if m > 0 then [s[p..q], s[q..q + m]] + SplitFrom(s, q + m, q + m)
      else SplitFrom(s, p, q + 1)
  }

  /** Text and bold runs alternate: every odd-indexed piece is a bold run. */
  lemma {:induction false} SplitFromAlternates(s: string, p: nat, q: nat)
    requires p <= q <= |s|
    ensures forall k :: 0 <= k < |SplitFrom(s, p, q)| / 2 ==> IsBoldToken(SplitFrom(s, p, q)[2 * k + 1])
    decreases |s| - q
  {
    if q < |s| {
      var m := MatchAt(s, q);
      SplitFromStep(s, p, q);
      if m > 0 {
        MatchAtSound(s, q);
        SplitFromAlternates(s, q + m, q + m);
        BoldTokensShift(s[p..q], s[q..q + m], SplitFrom(s, q + m, q + m));
      } else {
        SplitFromAlternates(s, p, q + 1);
      }
    }
  }

  /** No bold run lies anywhere inside `t`. */
  predicate NoBoldRun(t: string) {
    forall i, e :: 0 <= i < e <= |t| ==> !IsBoldToken(t[i..e])
  }

  /** The pattern matches at no position from `p` up to `q`. */
  predicate NoMatchBetween(s: string, p: nat, q: nat)
    requires p <= q <= |s|
  {
    forall j :: p <= j < q ==> MatchAt(s, j) == 0
  }

  lemma SliceOfSlice(s: string, p: nat, q: nat, i: nat, e: nat)
    requires p <= q <= |s| && i <= e <= q - p
    ensures s[p..q][i..e] == s[p + i..p + e]
  {
    forall k | 0 <= k < e - i ensures s[p..q][i..e][k] == s[p + i..p + e][k] {
      assert s[p..q][i..e][k] == s[p..q][i + k] == s[p + i + k];
    }
  }

  /** A stretch of `s` at none of whose positions the pattern matches holds no bold run. */
  lemma TextPieceHasNoBoldRun(s: string, p: nat, q: nat)
    requires p <= q <= |s| && NoMatchBetween(s, p, q)
    ensures NoBoldRun(s[p..q])
  {
    forall i, e | 0 <= i < e <= q - p ensures !IsBoldToken(s[p..q][i..e]) {
      SliceOfSlice(s, p, q, i, e);
      MatchAtComplete(s, p + i, p + e);
    }
  }

  /**
    Every even-indexed piece is text holding no bold run, given that the scan
    found no match between `p` and `q`: the split misses no run.
  */
  lemma {:induction false} SplitFromTextPieces(s: string, p: nat, q: nat)
    requires p <= q <= |s| && NoMatchBetween(s, p, q)
    ensures forall k :: 0 <= k <= |SplitFrom(s, p, q)| / 2 ==> NoBoldRun(SplitFrom(s, p, q)[2 * k])
    decreases |s| - q
  {
    if q == |s| {
      TextPieceHasNoBoldRun(s, p, q);
      assert SplitFrom(s, p, |s|) == [s[p..]];
      assert s[p..] == s[p..q];
    } else if MatchAt(s, q) > 0 {
      var e := q + MatchAt(s, q);
      SplitFromStep(s, p, q);
      TextPieceHasNoBoldRun(s, p, q);
      SplitFromTextPieces(s, e, e);
      TextPiecesShift(s[p..q], s[q..e], SplitFrom(s, e, e));
    } else {
      SplitFromStep(s, p, q);
      assert NoMatchBetween(s, p, q + 1);
      SplitFromTextPieces(s, p, q + 1);
    }
  }

  /** Putting a text piece without bold runs and any piece in front keeps every even-indexed piece free of them. */
  lemma TextPiecesShift(a: string, b: string, rest: seq<string>)
    requires NoBoldRun(a) && |rest| % 2 == 1
    requires forall k :: 0 <= k <= |rest| / 2 ==> NoBoldRun(rest[2 * k])
    ensures forall k :: 0 <= k <= |[a, b] + rest| / 2 ==> NoBoldRun(([a, b] + rest)[2 * k])
  {
    var parts := [a, b] + rest;
    assert |parts| / 2 == |rest| / 2 + 1;
    forall k | 0 <= k <= |parts| / 2 ensures NoBoldRun(parts[2 * k]) {
      if k > 0 {
        assert parts[2 * k] == rest[2 * (k - 1)];
      }
    }
  }

  /** Putting a text piece and a bold run in front keeps every odd-indexed piece a bold run. */
  lemma BoldTokensShift(a: string, b: string, rest: seq<string>)
    requires IsBoldToken(b) && |rest| % 2 == 1
    requires forall k :: 0 <= k < |rest| / 2 ==> IsBoldToken(rest[2 * k + 1])
    ensures forall k :: 0 <= k < |[a, b] + rest| / 2 ==> IsBoldToken(([a, b] + rest)[2 * k + 1])
  {
    var parts := [a, b] + rest;
    assert |parts| / 2 == |rest| / 2 + 1;
    forall k | 0 <= k < |parts| / 2 ensures IsBoldToken(parts[2 * k + 1]) {
      if k > 0 {
        assert parts[2 * k + 1] == rest[2 * (k - 1) + 1];
      }
    }
  }

  function SplitBold(s: string): seq<string> {
    SplitFrom(s, 0, 0)
  }

  /**
    The split of a whole text: pieces alternate between text holding no bold
    run and a bold run, so the cut points are exactly the pattern's matches.
  */
  lemma SplitBoldAlternates(s: string)
    ensures forall k :: 0 <= k < |SplitBold(s)| / 2 ==> IsBoldToken(SplitBold(s)[2 * k + 1])
    ensures forall k :: 0 <= k <= |SplitBold(s)| / 2 ==> NoBoldRun(SplitBold(s)[2 * k])
  {
    SplitFromAlternates(s, 0, 0);
    SplitFromTextPieces(s, 0, 0);
  }

  function Concat(parts: seq<string>): string {
    if parts == [] then "" else parts[0] + Concat(parts[1..])
  }

  lemma ConcatPair(a: string, b: string, rest: seq<string>)
    ensures Concat([a, b] + rest) == a + b + Concat(rest)
  {
    assert ([a, b] + rest)[1..] == [b] + rest;
    assert ([b] + rest)[1..] == rest;
  }

  /** The pieces put back together give the text they were cut from. */
  lemma {:induction false} SplitFromConcat(s: string, p: nat, q: nat)
    requires p <= q <= |s|
    ensures Concat(SplitFrom(s, p, q)) == s[p..]
    decreases |s| - q
  {
    if q < |s| {
      var m := MatchAt(s, q);
      if m > 0 {
        SplitFromConcat(s, q + m, q + m);
        SplitFromConcatMatch(s, p, q);
      } else {
        SplitFromConcat(s, p, q + 1);
        SplitFromConcatSkip(s, p, q);
      }
    } else {
      SplitFromConcatEnd(s, p);
    }
  }

  lemma SplitFromConcatEnd(s: string, p: nat)
    requires p <= |s|
    ensures Concat(SplitFrom(s, p, |s|)) == s[p..]
  {
    assert SplitFrom(s, p, |s|) == [s[p..]];
    ConcatSingle(s[p..]);
  }

  lemma SplitFromConcatMatch(s: string, p: nat, q: nat)
    requires p <= q < |s| && MatchAt(s, q) > 0
    requires Concat(SplitFrom(s, q + MatchAt(s, q), q + MatchAt(s, q))) == s[q + MatchAt(s, q)..]
    ensures Concat(SplitFrom(s, p, q)) == s[p..]
  {
    var e := q + MatchAt(s, q);
    SplitFromStep(s, p, q);
    ConcatMatchStep(s, p, q, e, SplitFrom(s, e, e));
  }

  lemma SplitFromConcatSkip(s: string, p: nat, q: nat)
    requires p <= q < |s| && MatchAt(s, q) == 0
    requires Concat(SplitFrom(s, p, q + 1)) == s[p..]
    ensures Concat(SplitFrom(s, p, q)) == s[p..]
  {
    SplitFromStep(s, p, q);
  }

  lemma ConcatSingle(a: string)
    ensures Concat([a]) == a
  {
    assert [a][1..] == [];
  }

  lemma SplitFromStep(s: string, p: nat, q: nat)
    requires p <= q < |s|
    ensures MatchAt(s, q) > 0 ==>
      SplitFrom(s, p, q) == [s[p..q], s[q..q + MatchAt(s, q)]] + SplitFrom(s, q + MatchAt(s, q), q + MatchAt(s, q))
    ensures MatchAt(s, q) == 0 ==> SplitFrom(s, p, q) == SplitFrom(s, p, q + 1)
  {
  }

  lemma ConcatMatchStep(s: string, p: nat, q: nat, e: nat, rest: seq<string>)
    requires p <= q <= e <= |s| && Concat(rest) == s[e..]
    ensures Concat([s[p..q], s[q..e]] + rest) == s[p..]
  {
    ConcatPair(s[p..q], s[q..e], rest);
    assert s[q..] == s[q..e] + s[e..];
    assert s[p..] == s[p..q] + s[q..];
  }

  lemma SplitBoldConcat(s: string)
    ensures Concat(SplitBold(s)) == s
  {
    SplitFromConcat(s, 0, 0);
  }

  // ---------------------------------------------------------------- elements

  /** A rendered element: a strong run, a bullet item, a text span or a line break. */
  datatype Node = Strong(text: string) | Bullet(text: string) | Span(text: string) | Br

  /** A piece treated as bold: it starts and ends with `**`. */
  predicate IsBoldMarked(part: string) {
    StartsWith(part, "**") && EndsWith(part, "**")
  }

  /** `part.slice(2, -2)`: empty when the markers overlap. */
  function BoldText(part: string): (r: string)
    ensures |part| >= 4 ==> r == part[2..|part| - 2]
    ensures |part| < 4 ==> r == ""
  {
    if |part| >= 4 then part[2..|part| - 2] else ""
  }

  /** Every line break directly follows a text span, so none follows a bullet or opens a list of elements. */
  ghost predicate BrAfterSpan(ns: seq<Node>) {
    (ns != [] ==> !ns[0].Br?)
    && forall i, j :: 0 <= i < j < |ns| && j == i + 1 && ns[j].Br? ==> ns[i].Span?
  }

  /** Text shown in a span: non-empty, with no white space at either end. */
  predicate IsTrimmedText(t: string) {
    t != "" && !IsJsWhiteSpace(t[0]) && !IsJsWhiteSpace(t[|t| - 1])
  }

  /** Every text span holds trimmed, non-empty text. */
  ghost predicate SpansTrimmed(ns: seq<Node>) {
    forall k :: 0 <= k < |ns| && ns[k].Span? ==> IsTrimmedText(ns[k].text)
  }

  lemma WellFormedAppend(a: seq<Node>, b: seq<Node>)
    requires BrAfterSpan(a) && BrAfterSpan(b) && SpansTrimmed(a) && SpansTrimmed(b)
    ensures BrAfterSpan(a + b) && SpansTrimmed(a + b)
  {
    var ab := a + b;
    forall i, j | 0 <= i < j < |ab| && j == i + 1 && ab[j].Br? ensures ab[i].Span? {
      if j > |a| {
        assert ab[j] == b[j - |a|] && ab[i] == b[i - |a|];
      }
    }
    forall k | 0 <= k < |ab| && ab[k].Span? ensures IsTrimmedText(ab[k].text) {
      if k >= |a| {
        assert ab[k] == b[k - |a|];
      }
    }
  }

  /**
    One line of a plain piece: a bullet when its trimmed text starts with
    `"* "`, else its trimmed text followed by a line break when another line
    comes after it, and nothing for a blank line.
  */
  function LineNodes(line: string, hasNext: bool): (ns: seq<Node>)
    ensures Trim(line) == "" ==> ns == []
    ensures StartsWith(Trim(line), "* ") ==> ns == [Bullet(Trim(line)[2..])]
    ensures !StartsWith(Trim(line), "* ") && Trim(line) != "" ==>
      ns != [] && ns[0] == Span(Trim(line)) && (hasNext <==> |ns| == 2) && (hasNext ==> ns[1] == Br) && |ns| <= 2
  {
    var t := Trim(line);
    if StartsWith(t, "* ") then [Bullet(t[2..])]
    else if t != "" then (if hasNext then [Span(t), Br] else [Span(t)])
    else []
  }

  /** The elements of one line break after a span only, hold trimmed spans, and hold no strong run. */
  lemma LineNodesWellFormed(line: string, hasNext: bool)
    ensures BrAfterSpan(LineNodes(line, hasNext)) && SpansTrimmed(LineNodes(line, hasNext))
    ensures NoStrong(LineNodes(line, hasNext))
  {
    var t := Trim(line);
    if StartsWith(t, "* ") {
      OneNodeWellFormed(Bullet(t[2..]));
    } else if t != "" {
      assert IsTrimmedText(t);
      if hasNext {
        SpanBrWellFormed(t);
      } else {
        OneNodeWellFormed(Span(t));
      }
    }
  }

  lemma OneNodeWellFormed(n: Node)
    requires !n.Br? && (n.Span? ==> IsTrimmedText(n.text))
    ensures BrAfterSpan([n]) && SpansTrimmed([n]) && (n.Strong? || NoStrong([n]))
  {
  }

  lemma SpanBrWellFormed(t: string)
    requires IsTrimmedText(t)
    ensures BrAfterSpan([Span(t), Br]) && SpansTrimmed([Span(t), Br])
    ensures NoStrong([Span(t), Br])
  {
  }

  /** The elements of the first `n` lines. */
  function LinesNodes(lines: seq<string>, n: nat): (ns: seq<Node>)
    requires n <= |lines|
    ensures BrAfterSpan(ns) && SpansTrimmed(ns) && NoStrong(ns)
  {
    if n == 0 then []
    else
      var before := LinesNodes(lines, n - 1);
      var last := LineNodes(lines[n - 1], n - 1 < |lines| - 1);
      LineNodesWellFormed(lines[n - 1], n - 1 < |lines| - 1);
      WellFormedAppend(before, last);
      NoStrongAppend(before, last);
      before + last
  }

  /** The elements of one piece: a strong run, the elements of its lines, or nothing for a blank piece. */
  function PartNodes(part: string): (ns: seq<Node>)
    ensures BrAfterSpan(ns) && SpansTrimmed(ns)
    ensures IsBoldMarked(part) ==> ns == [Strong(BoldText(part))]
    ensures !IsBoldMarked(part) && Trim(part) == "" ==> ns == []
    ensures !IsBoldMarked(part) ==> NoStrong(ns)
  {
    if IsBoldMarked(part) then [Strong(BoldText(part))]
    else if Trim(part) != "" then
      var lines := Split(part, '\n');
      LinesNodes(lines, |lines|)
    else []
  }

  /** No element is a strong run. */
  ghost predicate NoStrong(ns: seq<Node>) {
    forall k :: 0 <= k < |ns| ==> !ns[k].Strong?
  }

  lemma NoStrongAppend(a: seq<Node>, b: seq<Node>)
    requires NoStrong(a) && NoStrong(b)
    ensures NoStrong(a + b)
  {
    forall k | 0 <= k < |a + b| ensures !(a + b)[k].Strong? {
      if k >= |a| {
        assert (a + b)[k] == b[k - |a|];
      }
    }
  }

  lemma LinesNodesStep(lines: seq<string>, n: nat)
    requires 0 < n <= |lines|
    ensures LinesNodes(lines, n) == LinesNodes(lines, n - 1) + LineNodes(lines[n - 1], n - 1 < |lines| - 1)
  {
  }

  /** The elements of the pieces, piece after piece. */
  function Elements(parts: seq<string>): (ns: seq<Node>)
    ensures BrAfterSpan(ns) && SpansTrimmed(ns)
  {
    if parts == [] then []
    else
      var before := Elements(parts[..|parts| - 1]);
      var last := PartNodes(parts[|parts| - 1]);
      WellFormedAppend(before, last);
      before + last
  }

  /** Pieces are rendered in order: the elements of joined lists of pieces are joined. */
  lemma {:induction false} ElementsAppend(a: seq<string>, b: seq<string>)
    ensures Elements(a + b) == Elements(a) + Elements(b)
    decreases |b|
  {
    if b != [] {
      var b' := b[..|b| - 1];
      var x := b[|b| - 1];
      assert (a + b)[..|a + b| - 1] == a + b';
      assert (a + b)[|a + b| - 1] == x;
      ElementsAppend(a, b');
      assert Elements(a + b) == Elements(a + b') + PartNodes(x);
      assert Elements(b) == Elements(b') + PartNodes(x);
    } else {
      assert a + b == a;
    }
  }

  /** A bold run of the split becomes exactly one strong element holding its inner text. */
  lemma BoldTokenIsStrong(part: string)
    requires IsBoldToken(part)
    ensures PartNodes(part) == [Strong(part[2..|part| - 2])]
  {
    assert StartsWith(part, "**") by {
      assert part[..2] == "**";
    }
    assert EndsWith(part, "**") by {
      assert part[|part| - 2..] == "**";
    }
    assert BoldText(part) == part[2..|part| - 2];
  }

  // ---------------------------------------------------------------- list spacing

  /** A bullet list ends at element `k`: it is a bullet and the next element exists and is not one. */
  predicate GapAfter(e: seq<Node>, k: nat)
    requires k < |e|
  {
    e[k].Bullet? && k + 1 < |e| && !e[k + 1].Bullet?
  }

  /** Two line breaks after element `k` where a bullet list ends there. */
  function Spacing(e: seq<Node>, k: nat): seq<Node>
    requires k < |e|
  {
    if GapAfter(e, k) then [Br, Br] else []
  }

  /** How many list ends come before element `k`. */
  function GapsBefore(e: seq<Node>, k: nat): nat
    requires k <= |e|
  {
    if k == 0 then 0 else GapsBefore(e, k - 1) + (if GapAfter(e, k - 1) then 1 else 0)
  }

  function SpacedPrefix(e: seq<Node>, n: nat): seq<Node>
    requires n <= |e|
  {
    if n == 0 then [] else SpacedPrefix(e, n - 1) + [e[n - 1]] + Spacing(e, n - 1)
  }

  /** The elements with the gap added after each bullet list that is followed by something else. */
  function Spaced(e: seq<Node>): (r: seq<Node>)
    ensures |r| >= |e|
    ensures e != [] ==> r != [] && r[|r| - 1] == e[|e| - 1]
  {
    SpacedLength(e, |e|);
    SpacedPrefix(e, |e|)
  }

  lemma {:induction false} SpacedLength(e: seq<Node>, n: nat)
    requires n <= |e|
    ensures |SpacedPrefix(e, n)| >= n
    decreases n
  {
    if n > 0 {
      SpacedLength(e, n - 1);
    }
  }

  /** Element `k` sits in `out` two places further on for every list end before it. */
  predicate ElementPlaced(out: seq<Node>, e: seq<Node>, k: nat)
    requires k < |e|
  {
    var at := k + 2 * GapsBefore(e, k);
    at < |out| && out[at] == e[k]
  }

  /** Where a bullet list ends at element `k`, two line breaks follow it in `out`. */
  predicate GapPlaced(out: seq<Node>, e: seq<Node>, k: nat)
    requires k < |e|
  {
    var at := k + 2 * GapsBefore(e, k);
    GapAfter(e, k) ==> at + 2 < |out| && out[at + 1] == Br && out[at + 2] == Br
  }

  /** `out` is the first `n` elements laid out with their gaps, and nothing else. */
  predicate LaidOut(out: seq<Node>, e: seq<Node>, n: nat)
    requires n <= |e|
  {
    |out| == n + 2 * GapsBefore(e, n)
    && forall k :: 0 <= k < n ==> ElementPlaced(out, e, k) && GapPlaced(out, e, k)
  }

  /**
    Where everything lands: element `k` moves up by two for every list end
    before it, a list end is followed by exactly two line breaks, and the
    length leaves room for nothing else.
  */
  lemma SpacedLayout(e: seq<Node>)
    ensures LaidOut(Spaced(e), e, |e|)
  {
    SpacedPrefixLayout(e, |e|);
  }

  lemma {:induction false} SpacedPrefixLayout(e: seq<Node>, n: nat)
    requires n <= |e|
    ensures LaidOut(SpacedPrefix(e, n), e, n)
    decreases n
  {
    if n > 0 {
      SpacedPrefixLayout(e, n - 1);
      SpacedPrefixStep(e, n);
      var p, r := SpacedPrefix(e, n - 1), SpacedPrefix(e, n);
      forall k | 0 <= k < n - 1 ensures ElementPlaced(r, e, k) && GapPlaced(r, e, k) {
        PlacedInPrefix(p, r, e, k);
      }
      assert r[|p|] == e[n - 1];
      if GapAfter(e, n - 1) {
        assert r[|p| + 1] == Br && r[|p| + 2] == Br;
      }
      assert ElementPlaced(r, e, n - 1) && GapPlaced(r, e, n - 1);
    }
  }

  lemma PlacedInPrefix(p: seq<Node>, r: seq<Node>, e: seq<Node>, k: nat)
    requires k < |e| && p <= r
    requires ElementPlaced(p, e, k) && GapPlaced(p, e, k)
    ensures ElementPlaced(r, e, k) && GapPlaced(r, e, k)
  {
  }

  function NotBr(n: Node): bool {
    !n.Br?
  }

  /** The spacing only adds line breaks: everything else comes through unchanged and in order. */
  lemma {:induction false} SpacedPrefixKeepsContent(e: seq<Node>, n: nat)
    requires n <= |e|
    ensures Filter(SpacedPrefix(e, n), NotBr) == Filter(e[..n], NotBr)
    decreases n
  {
    if n > 0 {
      SpacedPrefixKeepsContent(e, n - 1);
      GapHasNoContent(e, n - 1);
      SpacedPrefixStep(e, n);
      KeepsContentStep(SpacedPrefix(e, n - 1), e[..n - 1], e[n - 1], Spacing(e, n - 1));
    }
  }

  lemma SpacedPrefixStep(e: seq<Node>, n: nat)
    requires 0 < n <= |e|
    ensures SpacedPrefix(e, n) == SpacedPrefix(e, n - 1) + [e[n - 1]] + Spacing(e, n - 1)
    ensures e[..n] == e[..n - 1] + [e[n - 1]]
  {
  }

  /** One step of the spacing: the same element after equal content, then only line breaks. */
  lemma KeepsContentStep(prev: seq<Node>, pre: seq<Node>, x: Node, gap: seq<Node>)
    requires Filter(prev, NotBr) == Filter(pre, NotBr) && Filter(gap, NotBr) == []
    ensures Filter(prev + [x] + gap, NotBr) == Filter(pre + [x], NotBr)
  {
    FilterAppend(prev + [x], gap, NotBr);
    FilterAppend(prev, [x], NotBr);
    FilterAppend(pre, [x], NotBr);
  }

  lemma GapHasNoContent(e: seq<Node>, k: nat)
    requires k < |e|
    ensures Filter(Spacing(e, k), NotBr) == []
  {
    var gap := Spacing(e, k);
    forall i | 0 <= i < |gap| ensures !NotBr(gap[i]) {
    }
    FilterNone(gap, NotBr);
  }

  lemma SpacedKeepsContent(e: seq<Node>)
    ensures Filter(Spaced(e), NotBr) == Filter(e, NotBr)
  {
    SpacedPrefixKeepsContent(e, |e|);
    assert e[..|e|] == e;
  }

  /** A list already free of bullet-list ends is left as it is. */
  lemma {:induction false} SpacedNoBullets(e: seq<Node>, n: nat)
    requires n <= |e|
    requires forall k :: 0 <= k < |e| ==> !e[k].Bullet?
    ensures SpacedPrefix(e, n) == e[..n]
    decreases n
  {
    if n > 0 {
      SpacedNoBullets(e, n - 1);
      assert e[..n] == e[..n - 1] + [e[n - 1]];
    }
  }

  // ---------------------------------------------------------------- the formatter

  /** Empty text is returned as it is; anything else becomes a list of elements. */
  datatype Formatted = Unchanged(text: string) | Nodes(nodes: seq<Node>)

  function Format(text: string): (r: Formatted)
    ensures r.Unchanged? <==> text == ""
    ensures r.Unchanged? ==> r.text == text
    ensures r.Nodes? ==>
      Filter(r.nodes, NotBr) == Filter(Elements(SplitBold(Normalize(text))), NotBr)
  {
    if text == "" then Unchanged(text)
    else
      SpacedKeepsContent(Elements(SplitBold(Normalize(text))));
      Nodes(Spaced(Elements(SplitBold(Normalize(text)))))
  }

  /** A gap follows a bullet list that is followed by text, but not one that ends the output. */
  lemma SpacedExamples()
    ensures Spaced([Bullet("a"), Span("b")]) == [Bullet("a"), Br, Br, Span("b")]
    ensures Spaced([Span("b"), Bullet("a")]) == [Span("b"), Bullet("a")]
    ensures Spaced([Bullet("a"), Bullet("c")]) == [Bullet("a"), Bullet("c")]
  {
    var e1 := [Bullet("a"), Span("b")];
    assert SpacedPrefix(e1, 1) == [Bullet("a"), Br, Br];
    var e2 := [Span("b"), Bullet("a")];
    assert SpacedPrefix(e2, 1) == [Span("b")];
    var e3 := [Bullet("a"), Bullet("c")];
    assert SpacedPrefix(e3, 1) == [Bullet("a")];
  }

  /** A text that is one bold run splits into that run between two empty pieces. */
  lemma SplitBoldOfBoldToken(t: string)
    requires IsBoldToken(t)
    ensures SplitBold(t) == ["", t, ""]
  {
    assert t[0..|t|] == t;
    MatchAtComplete(t, 0, |t|);
    SplitFromStep(t, 0, 0);
    assert SplitFrom(t, |t|, |t|) == [t[|t|..]];
    assert t[0..0] == "" && t[0..|t|] == t && t[|t|..] == "";
  }

  /** A bold run between two empty pieces, as the split of a bold-only text gives, is one strong element. */
  lemma BoldOnlyElements(t: string)
    requires IsBoldToken(t)
    ensures Elements(["", t, ""]) == [Strong(t[2..|t| - 2])]
  {
    BoldTokenIsStrong(t);
    PartNodesBlankExample();
    ElementsLast([""]);
    ElementsLast(["", t]);
    ElementsLast(["", t, ""]);
    assert ["", t][..1] == [""];
    assert ["", t, ""][..2] == ["", t];
    assert [""][..0] == [];
  }

  lemma ElementsLast(parts: seq<string>)
    requires parts != []
    ensures Elements(parts) == Elements(parts[..|parts| - 1]) + PartNodes(parts[|parts| - 1])
  {
  }

  lemma PartNodesBlankExample()
    ensures PartNodes("") == []
  {
    assert Trim("") == "";
  }

  /** A list with one element that is not a bullet gets no gap. */
  lemma SpacedSingle(n: Node)
    requires !n.Bullet?
    ensures Spaced([n]) == [n]
  {
    SpacedNoBullets([n], 1);
    assert [n][..1] == [n];
  }

  /** A text that is one bold run, without carriage returns, renders as a single strong element. */
  lemma FormatBoldOnly(t: string)
    requires IsBoldToken(t) && '\r' !in t
    ensures Format(t) == Nodes([Strong(t[2..|t| - 2])])
  {
    SplitBoldOfBoldToken(t);
    BoldOnlyElements(t);
    SpacedSingle(Strong(t[2..|t| - 2]));
  }

  /** The body of the inner `forEach`: the elements one line adds. */
  method AddLine(ns: seq<Node>, line: string, hasNext: bool) returns (ns': seq<Node>)
    ensures ns' == ns + LineNodes(line, hasNext)
  {
    ns' := ns;
    var trimmed := Trim(line);
    if StartsWith(trimmed, "* ") {
      ns' := ns' + [Bullet(trimmed[2..])];
    } else if trimmed != "" {
      ns' := ns' + [Span(trimmed)];
      if hasNext {
        ns' := ns' + [Br];
        assert ns' == ns + [Span(trimmed), Br];
      }
    }
  }

  /** The inner `forEach` over the lines of a plain piece. */
  method LineElements(lines: seq<string>) returns (ns: seq<Node>)
    ensures ns == LinesNodes(lines, |lines|)
  {
    ns := [];
    var j := 0;
    while j < |lines|
      invariant 0 <= j <= |lines|
      invariant ns == LinesNodes(lines, j)
    {
      ns := AddLine(ns, lines[j], j < |lines| - 1);
      LinesNodesStep(lines, j + 1);
      j := j + 1;
    }
  }

  /** The body of the outer `forEach`: the elements one piece adds. */
  method AddPart(elements: seq<Node>, part: string) returns (elements': seq<Node>)
    ensures elements' == elements + PartNodes(part)
  {
    elements' := elements;
    if StartsWith(part, "**") && EndsWith(part, "**") {
      elements' := elements' + [Strong(BoldText(part))];
    } else if Trim(part) != "" {
      var lineNodes := LineElements(Split(part, '\n'));
      elements' := elements' + lineNodes;
    }
  }

  lemma ElementsStep(parts: seq<string>, i: nat)
    requires i < |parts|
    ensures Elements(parts[..i + 1]) == Elements(parts[..i]) + PartNodes(parts[i])
  {
    ElementsLast(parts[..i + 1]);
    assert parts[..i + 1][..i] == parts[..i];
    assert parts[..i + 1][i] == parts[i];
  }

  /** The outer `forEach` over the pieces of the split. */
  method CollectElements(parts: seq<string>) returns (elements: seq<Node>)
    ensures elements == Elements(parts)
  {
    elements := [];
    var i := 0;
    while i < |parts|
      invariant 0 <= i <= |parts|
      invariant elements == Elements(parts[..i])
    {
      elements := AddPart(elements, parts[i]);
      ElementsStep(parts, i);
      i := i + 1;
    }
    assert parts[..i] == parts;
  }

  /** The pass that adds two line breaks after a bullet followed by an element that is not a bullet. */
  method AddListGaps(elements: seq<Node>) returns (processed: seq<Node>)
    ensures processed == Spaced(elements)
  {
    processed := [];
    var k := 0;
    while k < |elements|
      invariant 0 <= k <= |elements|
      invariant processed == SpacedPrefix(elements, k)
    {
      processed := processed + [elements[k]];
      var currentIsBullet := elements[k].Bullet?;
      var hasNext := k + 1 < |elements|;
      var nextIsBullet := hasNext && elements[k + 1].Bullet?;
      if currentIsBullet && hasNext && !nextIsBullet {
        processed := processed + [Br, Br];
      }
      k := k + 1;
    }
  }

  /** `formatTextWithBold`: empty text comes back as it is; otherwise the elements of the normalised text, with list gaps. */
  method FormatTextWithBold(text: string) returns (r: Formatted)
    ensures r == Format(text)
  {
    if text == "" {
      return Unchanged(text);
    }
    var parts := SplitBold(Normalize(text));
    var elements := CollectElements(parts);
    var processed := AddListGaps(elements);
    r := Nodes(processed);
  }
}
