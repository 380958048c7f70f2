/**
  JavaScript values as the program uses them. `Option` is a value that may be
  absent (`null`/`undefined`), `Result` a call that either returns or throws.
  The string operations the recording pipeline relies on, written out
  over `string` (a sequence of Unicode scalar values): `startsWith`, `endsWith`,
  `includes`, `toLowerCase`/`toUpperCase` (ASCII letters only), `trim` (the
  ECMAScript white-space and line-terminator set), `split` on a one-character
  separator and `join`. JavaScript truthiness of an optional string (absent,
  `null` and `""` are all falsy) is `Truthy`.
*/
module Js {

  datatype Option<+T> = None | Some(value: T)

  /** A value, or the message of the error thrown instead. */
  datatype Result<+T> = Ok(value: T) | Err(error: string)

  /** `s` is present and non-empty, i.e. truthy in JavaScript. */
  predicate Truthy(s: Option<string>) {
    s.Some? && s.value != ""
  }

  /** `s || null` for an optional string: an empty string becomes absent. */
  function OrNull(s: Option<string>): (r: Option<string>)
    ensures r.Some? <==> Truthy(s)
    ensures r.Some? ==> r == s
  {
    if Truthy(s) then s else None
  }

  predicate StartsWith(s: string, prefix: string) {
    |prefix| <= |s| && s[..|prefix|] == prefix
  }

  predicate EndsWith(s: string, suffix: string) {
    |suffix| <= |s| && s[|s| - |suffix|..] == suffix
  }

  /** `s.includes(t)`: `t` occurs in `s` at some position (the empty string occurs everywhere). */
  predicate Includes(s: string, t: string)
    decreases |s|
  {
    StartsWith(s, t) || (|s| > 0 && Includes(s[1..], t))
  }

  /** `t` occurs in `s` starting at position `i`. */
  predicate OccursAt(s: string, t: string, i: int) {
    0 <= i <= |s| - |t| && s[i..i + |t|] == t
  }

  /** A slice of the tail is the slice of the whole one position further on. */
  lemma SliceOfTail(s: string, i: nat, n: nat)
    requires 1 <= i && i + n <= |s|
    ensures s[1..][i - 1..i - 1 + n] == s[i..i + n]
  {
    assert s[1..][i - 1..] == s[i..];
  }

  /** The recursive `Includes` agrees with "there is a position where `t` occurs". */
  lemma {:induction false} IncludesAt(s: string, t: string)
    ensures Includes(s, t) <==> exists i :: OccursAt(s, t, i)
    decreases |s|
  {
    if |s| > 0 {
      IncludesAt(s[1..], t);
    }
    if StartsWith(s, t) {
      assert OccursAt(s, t, 0);
    } else if |s| > 0 && Includes(s[1..], t) {
      var i :| OccursAt(s[1..], t, i);
      SliceOfTail(s, i + 1, |t|);
      assert OccursAt(s, t, i + 1);
    }
    forall i | OccursAt(s, t, i) ensures Includes(s, t) {
      if i == 0 {
        assert StartsWith(s, t);
      } else {
        SliceOfTail(s, i, |t|);
        assert OccursAt(s[1..], t, i - 1);
      }
    }
  }

  function LowerChar(c: char): char {
    if 'A' <= c <= 'Z' then (c as int + 32) as char else c
  }

  function UpperChar(c: char): char {
    if 'a' <= c <= 'z' then (c as int - 32) as char else c
  }

  /** `s.toLowerCase()` restricted to ASCII letters. */
  function Lower(s: string): (r: string)
    ensures |r| == |s|
    ensures forall i :: 0 <= i < |s| ==> r[i] == LowerChar(s[i])
  {
    if s == [] then [] else [LowerChar(s[0])] + Lower(s[1..])
  }

  lemma LowerPrefix(s: string, k: nat)
    requires k <= |s|
    ensures Lower(s)[..k] == Lower(s[..k])
  {
  }

  lemma LowerSuffix(s: string)
    requires |s| > 0
    ensures Lower(s)[1..] == Lower(s[1..])
  {
  }

  /** Lower-casing both sides never loses an occurrence: a case-sensitive hit is also a case-insensitive one. */
  lemma {:induction false} IncludesLower(s: string, t: string)
    requires Includes(s, t)
    ensures Includes(Lower(s), Lower(t))
    decreases |s|
  {
    if StartsWith(s, t) {
      LowerPrefix(s, |t|);
      assert StartsWith(Lower(s), Lower(t));
    } else {
      IncludesLower(s[1..], t);
      LowerSuffix(s);
    }
  }

  /** Every occurrence of `c` removed, as `s.replace(/c/g, '')` does. */
  function RemoveChar(s: string, c: char): (r: string)
    ensures c !in r
    ensures |r| <= |s|
    ensures c !in s ==> r == s
  {
    if s == [] then [] else (if s[0] == c then [] else [s[0]]) + RemoveChar(s[1..], c)
  }

  /** The ECMAScript WhiteSpace and LineTerminator code points, which `trim` removes. */
  predicate IsJsWhiteSpace(c: char) {
    c == '\t' || c == '\n' || c == '\U{000B}' || c == '\U{000C}' || c == '\r' || c == ' '
    || c == '\U{00A0}' || c == '\U{1680}' || ('\U{2000}' <= c <= '\U{200A}')
    || c == '\U{2028}' || c == '\U{2029}' || c == '\U{202F}' || c == '\U{205F}'
    || c == '\U{3000}' || c == '\U{FEFF}'
  }

  function TrimStart(s: string): (r: string)
    ensures |r| <= |s| && r == s[|s| - |r|..]
    ensures r == [] || !IsJsWhiteSpace(r[0])
    ensures forall i :: 0 <= i < |s| - |r| ==> IsJsWhiteSpace(s[i])
  {
    if s != [] && IsJsWhiteSpace(s[0]) then TrimStart(s[1..]) else s
  }

  function TrimEnd(s: string): (r: string)
    ensures |r| <= |s| && r == s[..|r|]
    ensures r == [] || !IsJsWhiteSpace(r[|r| - 1])
    ensures forall i :: |r| <= i < |s| ==> IsJsWhiteSpace(s[i])
  {
    if s != [] && IsJsWhiteSpace(s[|s| - 1]) then TrimEnd(s[..|s| - 1]) else s
  }

  /** `s.trim()`: the longest infix that neither starts nor ends with white space. */
  function Trim(s: string): (r: string)
    ensures r == [] || (!IsJsWhiteSpace(r[0]) && !IsJsWhiteSpace(r[|r| - 1]))
  {
    TrimEnds(s);
    TrimEnd(TrimStart(s))
  }

  /** Trimming empties exactly the all-white-space strings. */
  lemma TrimIsBlank(s: string)
    ensures Trim(s) == [] <==> forall i :: 0 <= i < |s| ==> IsJsWhiteSpace(s[i])
  {
    TrimBlank(s);
    assert Trim(s) == TrimEnd(TrimStart(s));
  }

  /** The trimmed string occurs in the original. */
  lemma TrimIsInfix(s: string)
    ensures exists i :: OccursAt(s, Trim(s), i)
  {
    TrimInfix(s);
    assert Trim(s) == TrimEnd(TrimStart(s));
  }

  lemma TrimEnds(s: string)
    ensures var r := TrimEnd(TrimStart(s));
      r == [] || (!IsJsWhiteSpace(r[0]) && !IsJsWhiteSpace(r[|r| - 1]))
  {
    var a := TrimStart(s);
    var r := TrimEnd(a);
    if r != [] {
      assert r[0] == a[0];
    }
  }

  lemma TrimBlank(s: string)
    ensures TrimEnd(TrimStart(s)) == [] <==> forall i :: 0 <= i < |s| ==> IsJsWhiteSpace(s[i])
  {
    var a := TrimStart(s);
    var r := TrimEnd(a);
    var d := |s| - |a|;
    if r == [] {
      forall i | 0 <= i < |s| ensures IsJsWhiteSpace(s[i]) {
        if i >= d {
          assert s[i] == a[i - d];
        }
      }
    } else {
      assert a[0] == s[d] && !IsJsWhiteSpace(s[d]);
    }
  }

  lemma TrimInfix(s: string)
    ensures exists i :: OccursAt(s, TrimEnd(TrimStart(s)), i)
  {
    var a := TrimStart(s);
    var r := TrimEnd(a);
    var d := |s| - |a|;
    assert a == s[d..];
    assert s[d..d + |r|] == r;
    assert OccursAt(s, r, d);
  }

  /** `s.split(sep)` for a one-character separator: never empty, `""` splits to `[""]`. */
  function Split(s: string, sep: char): (parts: seq<string>)
    ensures |parts| >= 1
    decreases |s|
  {
    if s == [] then [""]
    else
      var rest := Split(s[1..], sep);
      if s[0] == sep then [""] + rest else [[s[0]] + rest[0]] + rest[1..]
  }

  /** `parts.join(sep)`. */
  function Join(parts: seq<string>, sep: string): string {
    if |parts| == 0 then ""
    else if |parts| == 1 then parts[0]
    else parts[0] + sep + Join(parts[1..], sep)
  }

  /** No piece produced by `Split` contains the separator. */
  lemma {:induction false} SplitPiecesAvoidSeparator(s: string, sep: char)
    ensures forall k :: 0 <= k < |Split(s, sep)| ==> sep !in Split(s, sep)[k]
    decreases |s|
  {
    if s != [] {
      SplitPiecesAvoidSeparator(s[1..], sep);
    }
  }

  /** Joining the pieces back with the separator gives the original string. */
  lemma {:induction false} JoinSplit(s: string, sep: char)
    ensures Join(Split(s, sep), [sep]) == s
    decreases |s|
  {
    if s != [] {
      var rest := Split(s[1..], sep);
      JoinSplit(s[1..], sep);
      if s[0] == sep {
        assert Split(s, sep) == [""] + rest;
        assert Join(Split(s, sep), [sep]) == "" + [sep] + Join(rest, [sep]);
      } else {
        var parts := [[s[0]] + rest[0]] + rest[1..];
        assert Split(s, sep) == parts;
        if |rest| == 1 {
          assert Join(parts, [sep]) == [s[0]] + rest[0];
        } else {
          assert parts[1..] == rest[1..];
          assert Join(rest, [sep]) == rest[0] + [sep] + Join(rest[1..], [sep]);
          assert Join(parts, [sep]) == [s[0]] + rest[0] + [sep] + Join(rest[1..], [sep]);
        }
      }
    }
  }

  function CountChar(s: string, c: char): nat {
    if s == [] then 0 else (if s[0] == c then 1 else 0) + CountChar(s[1..], c)
  }

  lemma {:induction false} CountCharBound(s: string, c: char)
    ensures CountChar(s, c) <= |s|
    decreases |s|
  {
    if s != [] {
      CountCharBound(s[1..], c);
    }
  }

  /** `split` yields one more piece than there are separators. */
  lemma {:induction false} SplitLength(s: string, sep: char)
    ensures |Split(s, sep)| == CountChar(s, sep) + 1
    decreases |s|
  {
    if s != [] {
      SplitLength(s[1..], sep);
    }
  }

  /** Joining a prefix of the pieces gives a prefix of the joined string. */
  lemma {:induction false} JoinPrefix(parts: seq<string>, k: nat, sep: string)
    requires 1 <= k <= |parts|
    ensures StartsWith(Join(parts, sep), Join(parts[..k], sep))
    decreases k
  {
    if k > 1 {
      JoinPrefix(parts[1..], k - 1, sep);
      assert parts[..k][1..] == parts[1..][..k - 1];
      assert parts[..k][0] == parts[0];
      var tail := Join(parts[1..], sep);
      var head := Join(parts[1..][..k - 1], sep);
      assert tail[..|head|] == head;
      assert Join(parts, sep) == parts[0] + sep + tail;
      assert Join(parts[..k], sep) == parts[0] + sep + head;
      assert (parts[0] + sep + tail)[..|parts[0] + sep + head|] == parts[0] + sep + head;
    } else {
      assert parts[..1] == [parts[0]];
      if |parts| > 1 {
        assert Join(parts, sep) == parts[0] + sep + Join(parts[1..], sep);
        assert Join(parts, sep)[..|parts[0]|] == parts[0];
      }
    }
  }

  /** A string without the separator is a single piece. */
  lemma {:induction false} SplitNoSeparator(s: string, sep: char)
    requires sep !in s
    ensures Split(s, sep) == [s]
    decreases |s|
  {
    if s != [] {
      SplitNoSeparator(s[1..], sep);
      assert [s[0]] + s[1..] == s;
    }
  }

  /** Splitting at the first separator: the text before it is the first piece. */
  lemma {:induction false} SplitAtSeparator(a: string, b: string, sep: char)
    requires sep !in a
    ensures Split(a + [sep] + b, sep) == [a] + Split(b, sep)
    decreases |a|
  {
    var s := a + [sep] + b;
    if a == [] {
      assert s[1..] == b;
    } else {
      assert s[1..] == a[1..] + [sep] + b;
      SplitAtSeparator(a[1..], b, sep);
      assert [a[0]] + a[1..] == a;
    }
  }

  /** Pieces without the separator come back from splitting their join. */
  lemma {:induction false} SplitJoin(parts: seq<string>, sep: char)
    requires |parts| >= 1
    requires forall k :: 0 <= k < |parts| ==> sep !in parts[k]
    ensures Split(Join(parts, [sep]), sep) == parts
    decreases |parts|
  {
    if |parts| == 1 {
      SplitNoSeparator(parts[0], sep);
    } else {
      SplitJoin(parts[1..], sep);
      SplitAtSeparator(parts[0], Join(parts[1..], [sep]), sep);
      assert [parts[0]] + parts[1..] == parts;
    }
  }
}
