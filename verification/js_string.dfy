/**
 * The JavaScript string operations the front-end relies on, over `seq<char>`:
 * `indexOf`, `includes`, `startsWith`, `split`, `Array.prototype.join`, `trim`,
 * ASCII `toLowerCase`/`toUpperCase`, and number-to-decimal formatting.
 */
module JsString {
  import opened Wrappers

  /** `pat` occurs in `s` starting at index `i`. */
  predicate OccursAt(s: string, pat: string, i: nat) {
    i + |pat| <= |s| && s[i..i + |pat|] == pat
  }

  lemma OccursAtShift(s: string, pat: string, j: nat)
    requires |s| > 0
    ensures OccursAt(s, pat, j + 1) <==> OccursAt(s[1..], pat, j)
  {
    if j + 1 + |pat| <= |s| {
      assert s[1..][j..j + |pat|] == s[j + 1..j + 1 + |pat|];
    }
  }

  /** `s.indexOf(pat)`: the first index where `pat` occurs, `None` for -1. */
  function IndexOf(s: string, pat: string): (r: Option<nat>)
    ensures r.Some? ==> OccursAt(s, pat, r.value)
    ensures r.Some? ==> forall j: nat :: j < r.value ==> !OccursAt(s, pat, j)
    ensures r.None? ==> forall j: nat :: !OccursAt(s, pat, j)
    decreases |s|
  {
    if |s| < |pat| then None
    else if s[..|pat|] == pat then Some(0)
    else
      assert !OccursAt(s, pat, 0) by { assert s[0..|pat|] == s[..|pat|]; }
      match IndexOf(s[1..], pat)
      case None =>
        forall j: nat ensures !OccursAt(s, pat, j) {
          if j > 0 { OccursAtShift(s, pat, j - 1); }
        }
        None
      case Some(k) =>
        OccursAtShift(s, pat, k);
        forall j: nat | j < k + 1 ensures !OccursAt(s, pat, j) {
          if j > 0 { OccursAtShift(s, pat, j - 1); }
        }
        Some(k + 1)
  }

  /** `s.includes(pat)`. */
  predicate Includes(s: string, pat: string) {
    IndexOf(s, pat).Some?
  }

  /** `s.startsWith(p)`. */
  predicate StartsWith(s: string, p: string) {
    |p| <= |s| && s[..|p|] == p
  }

  /** `s.split(sep)` for a non-empty separator: the pieces between non-overlapping
      occurrences of `sep`, found left to right. */
  function Split(s: string, sep: string): (parts: seq<string>)
    requires |sep| > 0
    ensures |parts| >= 1
    decreases |s|
  {
    match IndexOf(s, sep)
    case None => [s]
    case Some(i) => [s[..i]] + Split(s[i + |sep|..], sep)
  }

  /** Where the separator occurs, the split is the text before it followed by the split of
      the text after it. */
  lemma SplitFound(s: string, sep: string)
    requires |sep| > 0 && IndexOf(s, sep).Some?
    ensures Split(s, sep) == [s[..IndexOf(s, sep).value]] + Split(s[IndexOf(s, sep).value + |sep|..], sep)
  {
  }

  /** A text is its three slices around `i` and `j`. */
  lemma SliceParts(s: string, i: nat, j: nat)
    requires i <= j <= |s|
    ensures s == s[..i] + s[i..j] + s[j..]
  {
  }

  /** `parts.join(sep)`. */
  function Join(parts: seq<string>, sep: string): (r: string)
    ensures |parts| == 1 ==> r == parts[0]
    decreases |parts|
  {
    if |parts| == 0 then ""
    else if |parts| == 1 then parts[0]
    else parts[0] + sep + Join(parts[1..], sep)
  }

  /** Joining a piece in front of a non-empty list puts the separator between them. */
  lemma JoinCons(p: string, rest: seq<string>, sep: string)
    requires |rest| >= 1
    ensures Join([p] + rest, sep) == p + sep + Join(rest, sep)
  {
    assert ([p] + rest)[1..] == rest;
  }

  /** A join whose first piece is non-empty is non-empty. */
  lemma JoinNonEmpty(parts: seq<string>, sep: string)
    requires |parts| >= 1 && parts[0] != ""
    ensures Join(parts, sep) != ""
  {
    if |parts| > 1 {
      assert |Join(parts, sep)| >= |parts[0]|;
    }
  }

  /** Splitting and joining with the same separator gives the text back. */
  lemma {:induction false} JoinSplit(s: string, sep: string)
    requires |sep| > 0
    ensures Join(Split(s, sep), sep) == s
    decreases |s|
  {
    var r := IndexOf(s, sep);
    if r.Some? {
      var i := r.value;
      var tail := s[i + |sep|..];
      var rest := Split(tail, sep);
      JoinSplit(tail, sep);
      SplitFound(s, sep);
      JoinCons(s[..i], rest, sep);
      assert s == s[..i] + sep + tail by {
        assert s[i..i + |sep|] == sep;
        SliceParts(s, i, i + |sep|);
      }
    }
  }

  /** The first occurrence of a one-character separator in `a + [c] + b` is right after `a`
      when `a` does not contain it. */
  lemma IndexOfAfterFree(a: string, c: char, b: string)
    requires c !in a
    ensures IndexOf(a + [c] + b, [c]) == Some(|a|)
  {
    var s := a + [c] + b;
    assert OccursAt(s, [c], |a|);
    forall j: nat | j < |a| ensures !OccursAt(s, [c], j) {
      assert s[j] == a[j];
    }
  }

  lemma CharNotIncluded(p: string, c: char)
    requires c !in p
    ensures !Includes(p, [c])
  {
    forall j: nat ensures !OccursAt(p, [c], j) {
      if j < |p| { assert p[j..j + 1] == [p[j]]; }
    }
  }

  /** Joining pieces that do not contain a one-character separator and splitting again
      gives the same pieces. */
  lemma {:induction false} SplitJoin(parts: seq<string>, c: char)
    requires |parts| >= 1
    requires forall k :: 0 <= k < |parts| ==> c !in parts[k]
    ensures Split(Join(parts, [c]), [c]) == parts
    decreases |parts|
  {
    if |parts| == 1 {
      CharNotIncluded(parts[0], c);
    } else {
      var rest := Join(parts[1..], [c]);
      assert Join(parts, [c]) == parts[0] + [c] + rest;
      IndexOfAfterFree(parts[0], c, rest);
      assert (parts[0] + [c] + rest)[|parts[0]| + 1..] == rest;
      assert (parts[0] + [c] + rest)[..|parts[0]|] == parts[0];
      SplitJoin(parts[1..], c);
      assert parts == [parts[0]] + parts[1..];
    }
  }

  /** A split has at most one piece more than the text has characters. */
  lemma {:induction false} SplitCount(s: string, sep: string)
    requires |sep| > 0
    ensures |Split(s, sep)| <= |s| + 1
    decreases |s|
  {
    match IndexOf(s, sep)
    case None =>
    case Some(i) =>
      SplitFound(s, sep);
      SplitCount(s[i + |sep|..], sep);
  }

  /** No piece of a split at a one-character separator contains that character. */
  lemma {:induction false} SplitPartsFree(s: string, c: char)
    ensures forall k :: 0 <= k < |Split(s, [c])| ==> c !in Split(s, [c])[k]
    decreases |s|
  {
    match IndexOf(s, [c])
    case None =>
      forall j | 0 <= j < |s| ensures s[j] != c {
        assert !OccursAt(s, [c], j);
        assert s[j..j + 1] == [s[j]];
      }
    case Some(i) =>
      SplitFound(s, [c]);
      var head, tail := s[..i], s[i + 1..];
      forall j | 0 <= j < i ensures head[j] != c {
        assert !OccursAt(s, [c], j);
        assert s[j..j + 1] == [s[j]];
      }
      SplitPartsFree(tail, c);
      var parts := Split(s, [c]);
      assert parts == [head] + Split(tail, [c]);
      forall k | 1 <= k < |parts| ensures c !in parts[k] {
        assert parts[k] == Split(tail, [c])[k - 1];
      }
  }

  /** A join splits at any inner boundary into the join of the pieces before it, the
      separator, and the join of the pieces after it. */
  lemma {:induction false} JoinAt(parts: seq<string>, sep: string, k: nat)
    requires 1 <= k < |parts|
    ensures Join(parts, sep) == Join(parts[..k], sep) + sep + Join(parts[k..], sep)
    decreases k
  {
    var tail := parts[1..];
    assert Join(parts, sep) == parts[0] + sep + Join(tail, sep);
    if k == 1 {
      assert parts[..k] == [parts[0]];
      assert parts[k..] == tail;
    } else {
      var before := parts[..k];
      assert before[1..] == tail[..k - 1];
      assert Join(before, sep) == parts[0] + sep + Join(tail[..k - 1], sep);
      JoinAt(tail, sep, k - 1);
      assert tail[k - 1..] == parts[k..];
      var a, b := Join(tail[..k - 1], sep), Join(parts[k..], sep);
      assert Join(parts, sep) == parts[0] + sep + (a + sep + b);
    }
  }

  /** Joining the first `k` pieces of a split gives a prefix of the text; when pieces remain,
      the separator follows that prefix. */
  lemma JoinSplitPrefix(s: string, sep: string, k: nat)
    requires |sep| > 0
    requires 1 <= k <= |Split(s, sep)|
    ensures StartsWith(s, Join(Split(s, sep)[..k], sep))
    ensures k < |Split(s, sep)| ==> StartsWith(s, Join(Split(s, sep)[..k], sep) + sep)
  {
    var parts := Split(s, sep);
    JoinSplit(s, sep);
    if k < |parts| {
      JoinAt(parts, sep, k);
      var head := Join(parts[..k], sep);
      assert s == (head + sep) + Join(parts[k..], sep);
      assert s[..|head + sep|] == head + sep;
      assert s[..|head|] == head;
    } else {
      assert parts[..k] == parts;
    }
  }

  /** The characters `String.prototype.trim` removes: ECMAScript WhiteSpace and LineTerminator. */
  predicate IsJsWhitespace(c: char) {
    c == '\t' || c == '\n' || c == '\U{000B}' || c == '\U{000C}' || c == '\r' || c == ' '
    || c == '\U{00A0}' || c == '\U{1680}' || ('\U{2000}' <= c <= '\U{200A}')
    || c == '\U{2028}' || c == '\U{2029}' || c == '\U{202F}' || c == '\U{205F}'
    || c == '\U{3000}' || c == '\U{FEFF}'
  }

  function TrimStart(s: string): (r: string)
    ensures |r| <= |s|
  {
    if |s| > 0 && IsJsWhitespace(s[0]) then TrimStart(s[1..]) else s
  }

  function TrimEnd(s: string): (r: string)
    ensures |r| <= |s|
  {
    if |s| > 0 && IsJsWhitespace(s[|s| - 1]) then TrimEnd(s[..|s| - 1]) else s
  }

  /** `s.trim()`: `s` without its leading and trailing whitespace. */
  function Trim(s: string): (r: string)
    ensures |r| <= |s|
  {
    TrimEnd(TrimStart(s))
  }

  /** Trimming only removes characters: a character absent from the text is absent from
      the trimmed text. */
  lemma TrimKeepsOut(s: string, c: char)
    requires c !in s
    ensures c !in Trim(s)
  {
    TrimStartSpec(s);
    TrimEndSpec(TrimStart(s));
  }

  /** `TrimStart` removes exactly the leading run of whitespace. */
  lemma {:induction false} TrimStartSpec(s: string)
    ensures TrimStart(s) == s[|s| - |TrimStart(s)|..]
    ensures forall k :: 0 <= k < |s| - |TrimStart(s)| ==> IsJsWhitespace(s[k])
    ensures TrimStart(s) == [] || !IsJsWhitespace(TrimStart(s)[0])
    decreases |s|
  {
    if |s| > 0 && IsJsWhitespace(s[0]) {
      TrimStartSpec(s[1..]);
      var r := TrimStart(s[1..]);
      assert s[1..][|s| - 1 - |r|..] == s[|s| - |r|..];
      forall k | 0 <= k < |s| - |r| ensures IsJsWhitespace(s[k]) {
        if k > 0 { assert s[k] == s[1..][k - 1]; }
      }
    }
  }

  /** `TrimEnd` removes exactly the trailing run of whitespace. */
  lemma {:induction false} TrimEndSpec(s: string)
    ensures TrimEnd(s) == s[..|TrimEnd(s)|]
    ensures forall k :: |TrimEnd(s)| <= k < |s| ==> IsJsWhitespace(s[k])
    ensures TrimEnd(s) == [] || !IsJsWhitespace(TrimEnd(s)[|TrimEnd(s)| - 1])
    decreases |s|
  {
    if |s| > 0 && IsJsWhitespace(s[|s| - 1]) {
      var p := s[..|s| - 1];
      TrimEndSpec(p);
      var r := TrimEnd(p);
      assert p[..|r|] == s[..|r|];
      forall k | |r| <= k < |s| ensures IsJsWhitespace(s[k]) {
        if k < |s| - 1 { assert s[k] == p[k]; }
      }
    }
  }

  /** The result of `trim` neither starts nor ends with whitespace, and text that does not
      start or end with whitespace is left as it is. */
  lemma TrimSpec(s: string)
    ensures Trim(s) == [] || (!IsJsWhitespace(Trim(s)[0]) && !IsJsWhitespace(Trim(s)[|Trim(s)| - 1]))
    ensures s == [] || (!IsJsWhitespace(s[0]) && !IsJsWhitespace(s[|s| - 1])) ==> Trim(s) == s
  {
    var t := TrimStart(s);
    TrimStartSpec(s);
    TrimEndSpec(t);
    var r := TrimEnd(t);
    if r != [] {
      assert r[0] == t[0];
    }
  }

  /** `toLowerCase` restricted to ASCII letters. */
  function LowerChar(c: char): char {
    if 'A' <= c <= 'Z' then (c as int + 32) as char else c
  }

  /** `toUpperCase` restricted to ASCII letters. */
  function UpperChar(c: char): char {
    if 'a' <= c <= 'z' then (c as int - 32) as char else c
  }

  function Lower(s: string): (r: string)
    ensures |r| == |s|
    ensures forall k :: 0 <= k < |s| ==> r[k] == LowerChar(s[k])
  {
    seq(|s|, k requires 0 <= k < |s| => LowerChar(s[k]))
  }

  predicate IsDigit(c: char) {
    '0' <= c <= '9'
  }

  /** `${n}` for a natural number: its decimal digits, without leading zeros. */
  function DecimalString(n: nat): (r: string)
    ensures |r| >= 1
    ensures forall k :: 0 <= k < |r| ==> IsDigit(r[k])
    ensures |r| > 1 ==> r[0] != '0'
  {
    var d := ['0' + (n % 10) as char];
    if n < 10 then d else DecimalString(n / 10) + d
  }
}
