/**
 * Helpers of src/lib/utils.ts: absolute URLs, the cookie getters and the highlighting of
 * sensitive words in forum text.
 */
module Utils {
  import opened Wrappers
  import opened JsString
  import Middleware
  import SiteConfig

  // ---------------------------------------------------------------------------
  // absoluteUrl
  // ---------------------------------------------------------------------------

  /** `absoluteUrl`: the Drupal base URL (an environment value, so a parameter here)
      followed by the input, with no separator added. */
  function AbsoluteUrl(baseUrl: string, input: string): (url: string)
    ensures |url| == |baseUrl| + |input|
  {
    baseUrl + input
  }

  /** The base URL can be stripped off again, giving back the input. */
  lemma AbsoluteUrlStrips(baseUrl: string, input: string)
    ensures StartsWith(AbsoluteUrl(baseUrl, input), baseUrl)
    ensures AbsoluteUrl(baseUrl, input)[|baseUrl|..] == input
  {
    var url := AbsoluteUrl(baseUrl, input);
    assert url[..|baseUrl|] == baseUrl;
  }

  // ---------------------------------------------------------------------------
  // Cookie getters
  // ---------------------------------------------------------------------------

  /** `Cookies.get(name) || null` over the browser's cookie jar. */
  function CookieValue(jar: map<string, string>, name: string): (value: Option<string>)
    ensures value.Some? <==> name in jar && jar[name] != ""
    ensures value.Some? ==> value.value == jar[name]
  {
    if name in jar && jar[name] != "" then Some(jar[name]) else None
  }

  /** `getCountryCode`: the `COUNTRY_CODE` cookie, `null` when absent or empty. */
  function GetCountryCode(jar: map<string, string>): (code: Option<string>)
    ensures code.Some? <==> "COUNTRY_CODE" in jar && jar["COUNTRY_CODE"] != ""
    ensures code.Some? ==> code.value == jar["COUNTRY_CODE"]
  {
    CookieValue(jar, "COUNTRY_CODE")
  }

  /** `getLangCode`: the `BROWSER_LANG_CODE` cookie, `null` when absent or empty. */
  function GetLangCode(jar: map<string, string>): (code: Option<string>)
    ensures code.Some? <==> "BROWSER_LANG_CODE" in jar && jar["BROWSER_LANG_CODE"] != ""
    ensures code.Some? ==> code.value == jar["BROWSER_LANG_CODE"]
  {
    CookieValue(jar, "BROWSER_LANG_CODE")
  }

  /** `getLocaleValue`: the `NEXT_LOCALE` cookie, `null` when absent or empty. */
  function GetLocaleValue(jar: map<string, string>): (locale: Option<string>)
    ensures locale.Some? <==> "NEXT_LOCALE" in jar && jar["NEXT_LOCALE"] != ""
    ensures locale.Some? ==> locale.value == jar["NEXT_LOCALE"]
  {
    CookieValue(jar, "NEXT_LOCALE")
  }

  /** The values the browser keeps from the cookies a response sets. */
  function Jar(cookies: map<string, Middleware.Cookie>): (jar: map<string, string>)
    ensures jar.Keys == cookies.Keys
  {
    map name | name in cookies :: cookies[name].value
  }

  /** After the middleware has let a request through, the getters read back the country and
      locale it chose, whatever the browser held before. */
  lemma GettersReadMiddlewareCookies(jar: map<string, string>, before: map<string, Middleware.Cookie>,
                                     req: Middleware.Request, now: int, decryption: Middleware.Decryption)
    requires Middleware.RedirectTarget(req.pathname).None?
    ensures var seen := jar + Jar(Middleware.SentCookies(req, before, now, decryption));
      GetCountryCode(seen) == Some(Middleware.CountryCode(req))
      && GetLangCode(seen) == Some(Middleware.NegotiateLocale(req))
  {
    var locale := Middleware.NegotiateLocale(req);
    assert locale in SiteConfig.Locales;
    assert locale != "";
  }

  /** A redirected request (`/` or `/{locale}`) sets no cookie, so the getters read what the
      browser already held; on a first visit that is nothing. */
  lemma RedirectLeavesGettersUnchanged(jar: map<string, string>, before: map<string, Middleware.Cookie>,
                                       req: Middleware.Request, now: int, decryption: Middleware.Decryption)
    requires Middleware.RedirectTarget(req.pathname).Some?
    ensures var seen := jar + Jar(Middleware.SentCookies(req, before, now, decryption));
      GetCountryCode(seen) == GetCountryCode(jar) && GetLangCode(seen) == GetLangCode(jar)
    ensures jar == map[] ==>
      var seen := jar + Jar(Middleware.SentCookies(req, before, now, decryption));
      GetCountryCode(seen).None? && GetLangCode(seen).None?
  {
    assert Jar(map[]) == map[];
    assert jar + map[] == jar;
  }

  // ---------------------------------------------------------------------------
  // Sensitive-word highlighting
  // ---------------------------------------------------------------------------

  /** Word characters of a regular-expression `\b`. */
  predicate IsWordChar(c: char) {
    'a' <= c <= 'z' || 'A' <= c <= 'Z' || '0' <= c <= '9' || c == '_'
  }

  predicate IsAsciiAlphanumeric(c: char) {
    'a' <= c <= 'z' || 'A' <= c <= 'Z' || '0' <= c <= '9'
  }

  /** The word lists this model covers: non-empty, and every word non-empty and plain
      ASCII letters and digits, so that it stands for itself inside the pattern. */
  predicate PlainWords(words: seq<string>) {
    words != [] && forall w :: w in words ==> w != [] && forall c :: c in w ==> IsAsciiAlphanumeric(c)
  }

  /** `\bw\b` with the `i` flag matches at `start`: the text there equals `w` up to ASCII
      case, and neither neighbour is a word character. */
  predicate WholeWordAt(text: string, w: string, start: nat) {
    start + |w| <= |text|
    && (forall k :: 0 <= k < |w| ==> LowerChar(text[start + k]) == LowerChar(w[k]))
    && (start == 0 || !IsWordChar(text[start - 1]))
    && (start + |w| == |text| || !IsWordChar(text[start + |w|]))
  }

  /** The alternation tries the words in list order; the result is where the first one
      that matches ends. */
  function FirstMatch(text: string, words: seq<string>, start: nat): (end: Option<nat>)
    requires forall w :: w in words ==> w != []
    ensures end.Some? ==> start < end.value <= |text|
    decreases |words|
  {
    if words == [] then None
    else if assert words[0] in words; WholeWordAt(text, words[0], start) then Some(start + |words[0]|)
    else
      assert forall w :: w in words[1..] ==> w in words;
      FirstMatch(text, words[1..], start)
  }

  /** The alternation finds a match exactly when some word occurs there as a whole word. */
  lemma {:induction false} FirstMatchSound(text: string, words: seq<string>, start: nat)
    requires forall w :: w in words ==> w != []
    ensures FirstMatch(text, words, start).None? <==> forall w :: w in words ==> !WholeWordAt(text, w, start)
    ensures FirstMatch(text, words, start).Some? ==>
      exists w :: w in words && WholeWordAt(text, w, start) && FirstMatch(text, words, start).value == start + |w|
    decreases |words|
  {
    if words != [] && !WholeWordAt(text, words[0], start) {
      var tail := words[1..];
      assert forall w :: w in tail ==> w in words;
      assert forall w :: w in words ==> w == words[0] || w in tail;
      FirstMatchSound(text, tail, start);
    }
  }

  /** A piece of the scanned text: one character left alone, or a matched word, with the
      position(s) it was taken from. */
  datatype Piece = Plain(pos: nat, ch: char) | Hit(start: nat, end: nat, matched: string)

  /** One attempt of the pattern at position `i`: the matched word, or the character there. */
  function Step(text: string, words: seq<string>, i: nat): (piece: Piece)
    requires forall w :: w in words ==> w != []
    requires i < |text|
    ensures piece.Hit? ==> piece.start == i && i < piece.end <= |text| && piece.matched == text[i..piece.end]
    ensures piece.Plain? ==> piece.pos == i && piece.ch == text[i]
  {
    match FirstMatch(text, words, i)
    case Some(end) => Hit(i, end, text[i..end])
    case None => Plain(i, text[i])
  }

  /** Where the scan resumes after a piece. */
  function After(piece: Piece): nat {
    match piece
    case Plain(p, _) => p + 1
    case Hit(_, e, _) => e
  }

  /** How `replace` with a global pattern walks the text: at each position either a match
      is taken and the scan resumes after it, or the scan moves on one character. */
  function ScanFrom(text: string, words: seq<string>, i: nat): (pieces: seq<Piece>)
    requires forall w :: w in words ==> w != []
    decreases |text| - i
  {
    if i >= |text| then []
    else
      var piece := Step(text, words, i);
      [piece] + ScanFrom(text, words, After(piece))
  }

  const SpanOpen: string := "<span style=\"background-color: yellow; color: red; padding:4px\">"
  const SpanClose: string := "</span>"

  /** The text of a piece as it appears in the input. */
  function RawOf(piece: Piece): string {
    match piece
    case Plain(_, c) => [c]
    case Hit(_, _, m) => m
  }

  /** The text of a piece as it appears in the output. */
  function RenderOf(piece: Piece): string {
    match piece
    case Plain(_, c) => [c]
    case Hit(_, _, m) => SpanOpen + m + SpanClose
  }

  function Raw(pieces: seq<Piece>): string
    decreases |pieces|
  {
    if pieces == [] then [] else RawOf(pieces[0]) + Raw(pieces[1..])
  }

  function Render(pieces: seq<Piece>): string
    decreases |pieces|
  {
    if pieces == [] then [] else RenderOf(pieces[0]) + Render(pieces[1..])
  }

  /** `wordCounts[word] = (wordCounts[word] || 0) + 1`. */
  function Bump(counts: map<string, nat>, word: string): (bumped: map<string, nat>)
    ensures bumped.Keys == counts.Keys + {word}
  {
    counts[word := (if word in counts then counts[word] else 0) + 1]
  }

  /** The `replace` callback: counts the lower-cased match and wraps it in the highlight span. */
  method HighlightMatch(matched: string, wordCounts: map<string, nat>) returns (span: string, counts: map<string, nat>)
    ensures span == SpanOpen + matched + SpanClose
    ensures counts == Bump(wordCounts, Lower(matched))
  {
    var word := Lower(matched);
    counts := wordCounts[word := (if word in wordCounts then wordCounts[word] else 0) + 1];
    span := SpanOpen + matched + SpanClose;
  }

  /** `wordCounts` after the callback has run for each matched piece. */
  function CountsOf(pieces: seq<Piece>): map<string, nat>
    decreases |pieces|
  {
    if pieces == [] then map[]
    else
      var counts := CountsOf(pieces[..|pieces| - 1]);
      var last := pieces[|pieces| - 1];
      if last.Hit? then Bump(counts, Lower(last.matched)) else counts
  }

  /** How many matched pieces have the key `word`. */
  function HitCount(pieces: seq<Piece>, word: string): nat
    decreases |pieces|
  {
    if pieces == [] then 0
    else
      var last := pieces[|pieces| - 1];
      HitCount(pieces[..|pieces| - 1], word) + (if last.Hit? && Lower(last.matched) == word then 1 else 0)
  }

  function NumHits(pieces: seq<Piece>): nat
    decreases |pieces|
  {
    if pieces == [] then 0 else NumHits(pieces[..|pieces| - 1]) + (if pieces[|pieces| - 1].Hit? then 1 else 0)
  }

  /** `highlightAndCountSensitiveWords`: the `replace` callback wraps each match in the
      highlight span and bumps the count of its lower-cased text. */
  method HighlightAndCount(text: string, sensitiveWords: seq<string>)
    returns (highlightedText: string, wordCounts: map<string, nat>)
    requires PlainWords(sensitiveWords)
    ensures highlightedText == Render(ScanFrom(text, sensitiveWords, 0))
    ensures wordCounts == CountsOf(ScanFrom(text, sensitiveWords, 0))
  {
    ghost var all := ScanFrom(text, sensitiveWords, 0);
    highlightedText := "";
    wordCounts := map[];
    ghost var done: seq<Piece> := [];
    var i := 0;
    while i < |text|
      invariant 0 <= i <= |text|
      invariant done + ScanFrom(text, sensitiveWords, i) == all
      invariant highlightedText + Render(ScanFrom(text, sensitiveWords, i)) == Render(all)
      invariant wordCounts == CountsOf(done)
      decreases |text| - i
    {
      var piece := Step(text, sensitiveWords, i);
      ScanAdvance(text, sensitiveWords, i, highlightedText, done);
      match piece {
        case Hit(_, _, matched) =>
          var span;
          span, wordCounts := HighlightMatch(matched, wordCounts);
          highlightedText := highlightedText + span;
        case Plain(_, c) =>
          highlightedText := highlightedText + [c];
      }
      // the engine resumes after a match, or one character further on
      i := After(piece);
      done := done + [piece];
    }
    assert done + [] == done;
  }

  // ---------------------------------------------------------------------------
  // Properties of the scan
  // ---------------------------------------------------------------------------

  /** One step of the scan, and what it renders. */
  lemma ScanStep(text: string, words: seq<string>, i: nat)
    requires forall w :: w in words ==> w != []
    requires i < |text|
    ensures ScanFrom(text, words, i) == [Step(text, words, i)] + ScanFrom(text, words, After(Step(text, words, i)))
    ensures Render(ScanFrom(text, words, i))
      == RenderOf(Step(text, words, i)) + Render(ScanFrom(text, words, After(Step(text, words, i))))
  {
    var pieces := ScanFrom(text, words, i);
    assert pieces[1..] == ScanFrom(text, words, After(Step(text, words, i)));
  }

  /** One more piece taken: the loop's record of what is done, written and counted moves
      forward by exactly that piece. */
  lemma ScanAdvance(text: string, words: seq<string>, i: nat, written: string, done: seq<Piece>)
    requires forall w :: w in words ==> w != []
    requires i < |text|
    requires done + ScanFrom(text, words, i) == ScanFrom(text, words, 0)
    requires written + Render(ScanFrom(text, words, i)) == Render(ScanFrom(text, words, 0))
    ensures var piece := Step(text, words, i);
      && (done + [piece]) + ScanFrom(text, words, After(piece)) == ScanFrom(text, words, 0)
      && (written + RenderOf(piece)) + Render(ScanFrom(text, words, After(piece))) == Render(ScanFrom(text, words, 0))
      && CountsOf(done + [piece]) == if piece.Hit? then Bump(CountsOf(done), Lower(piece.matched)) else CountsOf(done)
  {
    var piece := Step(text, words, i);
    var rest := ScanFrom(text, words, After(piece));
    ScanStep(text, words, i);
    Associative(written, RenderOf(piece), Render(rest));
    Associative3(done, [piece], rest);
    assert (done + [piece])[..|done|] == done;
  }

  lemma Associative(a: string, b: string, c: string)
    ensures (a + b) + c == a + (b + c)
  {
  }

  lemma Associative3(a: seq<Piece>, b: seq<Piece>, c: seq<Piece>)
    ensures (a + b) + c == a + (b + c)
  {
  }

  lemma SliceSplit(s: string, i: nat, j: nat)
    requires i <= j <= |s|
    ensures s[i..] == s[i..j] + s[j..]
  {
  }

  /** The scan covers the rest of the text: the pieces' raw texts concatenate back to it. */
  lemma {:induction false} ScanCoversText(text: string, words: seq<string>, i: nat)
    requires forall w :: w in words ==> w != []
    requires i <= |text|
    ensures Raw(ScanFrom(text, words, i)) == text[i..]
    decreases |text| - i
  {
    if i < |text| {
      var piece := Step(text, words, i);
      var next := After(piece);
      var rest := ScanFrom(text, words, next);
      assert Raw(ScanFrom(text, words, i)) == RawOf(piece) + Raw(rest) by {
        var pieces := ScanFrom(text, words, i);
        assert pieces[0] == piece && pieces[1..] == rest;
      }
      assert RawOf(piece) == text[i..next];
      ScanCoversText(text, words, next);
      SliceSplit(text, i, next);
    }
  }

  /** A highlighted piece is a whole-word, case-insensitive occurrence of some sensitive
      word; a character left alone starts no such occurrence. */
  predicate PieceSound(text: string, words: seq<string>, piece: Piece)
    requires forall w :: w in words ==> w != []
  {
    match piece
    case Hit(s, e, m) =>
      && e <= |text|
      && (exists w :: w in words && WholeWordAt(text, w, s) && e == s + |w|)
      && s <= e && m == text[s..e]
    case Plain(p, c) => p < |text| && c == text[p] && forall w :: w in words ==> !WholeWordAt(text, w, p)
  }

  lemma StepSound(text: string, words: seq<string>, i: nat)
    requires forall w :: w in words ==> w != []
    requires i < |text|
    ensures PieceSound(text, words, Step(text, words, i))
  {
    FirstMatchSound(text, words, i);
  }

  /** Every piece of the scan is sound: the highlighting finds exactly the whole-word
      occurrences at the positions where the scan looks. */
  lemma {:induction false} ScanSoundAndComplete(text: string, words: seq<string>, i: nat)
    requires forall w :: w in words ==> w != []
    ensures forall k :: 0 <= k < |ScanFrom(text, words, i)| ==> PieceSound(text, words, ScanFrom(text, words, i)[k])
    decreases |text| - i
  {
    if i < |text| {
      var piece := Step(text, words, i);
      StepSound(text, words, i);
      ScanSoundAndComplete(text, words, After(piece));
      var pieces := ScanFrom(text, words, i);
      assert pieces[0] == piece;
      forall k | 1 <= k < |pieces| ensures pieces[k] == ScanFrom(text, words, After(piece))[k - 1] {
      }
    }
  }

  /** Inside an occurrence of a word made of letters and digits, every character is a word
      character, whatever its case. */
  lemma InsideOccurrenceIsWordChar(text: string, w: string, s: nat, q: nat)
    requires forall c :: c in w ==> IsAsciiAlphanumeric(c)
    requires WholeWordAt(text, w, s)
    requires s <= q < s + |w|
    ensures IsWordChar(text[q])
  {
    assert LowerChar(text[q]) == LowerChar(w[q - s]);
    assert w[q - s] in w;
  }

  /** Some piece is a match that starts at `p`. */
  predicate HitStartsAt(pieces: seq<Piece>, p: nat) {
    exists k :: 0 <= k < |pieces| && pieces[k].Hit? && pieces[k].start == p
  }

  /** An occurrence at `p` at or after the scan position is never swallowed by an earlier
      piece: the scan reaches `p` and takes a match there. */
  lemma {:induction false} ScanFindsOccurrence(text: string, words: seq<string>, i: nat, w: string, p: nat)
    requires PlainWords(words)
    requires w in words && WholeWordAt(text, w, p) && i <= p
    ensures HitStartsAt(ScanFrom(text, words, i), p)
    decreases |text| - i
  {
    var pieces := ScanFrom(text, words, i);
    var piece := Step(text, words, i);
    StepSound(text, words, i);
    assert pieces[0] == piece;
    if !(piece.Hit? && piece.start == p) {
      assert After(piece) <= p by {
        match piece
        case Plain(_, _) =>
          assert !WholeWordAt(text, w, i);
        case Hit(s, e, _) =>
          var v :| v in words && WholeWordAt(text, v, s) && e == s + |v|;
          if p < e {
            InsideOccurrenceIsWordChar(text, v, s, p - 1);
          }
      }
      ScanFindsOccurrence(text, words, After(piece), w, p);
      var rest := ScanFrom(text, words, After(piece));
      var k :| 0 <= k < |rest| && rest[k].Hit? && rest[k].start == p;
      assert pieces[k + 1] == rest[k];
    }
  }

  /** Every whole-word, case-insensitive occurrence of a sensitive word in the text is
      highlighted: some piece of the scan is a match starting there. */
  lemma EveryOccurrenceHighlighted(text: string, words: seq<string>)
    requires PlainWords(words)
    ensures forall w, p: nat :: w in words && WholeWordAt(text, w, p) ==> HitStartsAt(ScanFrom(text, words, 0), p)
  {
    forall w, p: nat | w in words && WholeWordAt(text, w, p) ensures HitStartsAt(ScanFrom(text, words, 0), p) {
      ScanFindsOccurrence(text, words, 0, w, p);
    }
  }

  /** The counts are keyed by the lower-cased matched text, and each value is the number of
      matches with that key. */
  lemma {:induction false} CountsAreHitCounts(text: string, pieces: seq<Piece>, word: string)
    ensures word in CountsOf(pieces) <==> HitCount(pieces, word) > 0
    ensures word in CountsOf(pieces) ==> CountsOf(pieces)[word] == HitCount(pieces, word)
    decreases |pieces|
  {
    if pieces != [] {
      CountsAreHitCounts(text, pieces[..|pieces| - 1], word);
    }
  }

  /** The sum of the values of a map of counts. */
  ghost function SumValues(m: map<string, nat>): nat
    decreases |m|
  {
    if m == map[] then 0
    else
      var k :| k in m;
      m[k] + SumValues(m - {k})
  }

  lemma {:induction false} SumValuesRemove(m: map<string, nat>, k: string)
    requires k in m
    ensures SumValues(m) == m[k] + SumValues(m - {k})
    decreases |m|
  {
    var j :| j in m && SumValues(m) == m[j] + SumValues(m - {j});
    if j != k {
      var m1 := m - {j};
      SumValuesRemove(m1, k);
      var m2 := m - {k};
      SumValuesRemove(m2, j);
      assert m1 - {k} == m2 - {j};
    }
  }

  lemma SumValuesBump(m: map<string, nat>, k: string)
    ensures SumValues(m[k := (if k in m then m[k] else 0) + 1]) == SumValues(m) + 1
  {
    var m' := m[k := (if k in m then m[k] else 0) + 1];
    SumValuesRemove(m', k);
    if k in m {
      SumValuesRemove(m, k);
      assert m' - {k} == m - {k};
    } else {
      assert m' - {k} == m;
    }
  }

  /** The counts add up to the number of spans inserted. */
  lemma {:induction false} CountsSumToHits(text: string, pieces: seq<Piece>)
    ensures SumValues(CountsOf(pieces)) == NumHits(pieces)
    decreases |pieces|
  {
    if pieces != [] {
      var prefix := pieces[..|pieces| - 1];
      CountsSumToHits(text, prefix);
      var last := pieces[|pieces| - 1];
      if last.Hit? {
        SumValuesBump(CountsOf(prefix), Lower(last.matched));
      }
    }
  }

  lemma {:induction false} RenderAllPlain(pieces: seq<Piece>)
    requires forall k :: 0 <= k < |pieces| ==> pieces[k].Plain?
    ensures Render(pieces) == Raw(pieces)
    decreases |pieces|
  {
    if pieces != [] {
      RenderAllPlain(pieces[1..]);
    }
  }

  lemma {:induction false} CountAllPlain(pieces: seq<Piece>)
    requires forall k :: 0 <= k < |pieces| ==> pieces[k].Plain?
    ensures CountsOf(pieces) == map[]
    decreases |pieces|
  {
    if pieces != [] {
      CountAllPlain(pieces[..|pieces| - 1]);
    }
  }

  lemma NoOccurrenceAllPlain(text: string, words: seq<string>)
    requires forall w :: w in words ==> w != []
    requires forall p: nat, w :: p < |text| && w in words ==> !WholeWordAt(text, w, p)
    ensures forall k :: 0 <= k < |ScanFrom(text, words, 0)| ==> ScanFrom(text, words, 0)[k].Plain?
  {
    var pieces := ScanFrom(text, words, 0);
    ScanSoundAndComplete(text, words, 0);
    forall k | 0 <= k < |pieces| ensures pieces[k].Plain? {
      assert PieceSound(text, words, pieces[k]);
    }
  }

  /** Text in which no sensitive word occurs as a whole word comes back unchanged, with no
      counts. */
  lemma NoOccurrenceUnchanged(text: string, words: seq<string>)
    requires PlainWords(words)
    requires forall p: nat, w :: p < |text| && w in words ==> !WholeWordAt(text, w, p)
    ensures Render(ScanFrom(text, words, 0)) == text
    ensures CountsOf(ScanFrom(text, words, 0)) == map[]
  {
    var pieces := ScanFrom(text, words, 0);
    NoOccurrenceAllPlain(text, words);
    RenderAllPlain(pieces);
    CountAllPlain(pieces);
    ScanCoversText(text, words, 0);
    assert text[0..] == text;
  }
}
