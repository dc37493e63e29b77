/** The JavaScript string operations the pages use: `trim`, `split(/\s+/)`, `split(' ')`,
    `toLowerCase` and `includes`, with the word count built from them. */
module Text {
  import opened Seqs

  /** JavaScript's WhiteSpace and LineTerminator characters: what `trim` strips and `\s` matches. */
  predicate IsWs(c: char) {
    || c == '\t' || c == '\n' || c == '\U{000B}' || c == '\U{000C}' || c == '\r' || c == ' '
    || c == '\U{00A0}' || c == '\U{1680}' || ('\U{2000}' <= c <= '\U{200A}')
    || c == '\U{2028}' || c == '\U{2029}' || c == '\U{202F}' || c == '\U{205F}'
    || c == '\U{3000}' || c == '\U{FEFF}'
  }

  /** Every character is whitespace (the empty string included). */
  predicate IsBlank(s: string) {
    forall i :: 0 <= i < |s| ==> IsWs(s[i])
  }

  /** Where the whitespace run starting at position `i` of `s` ends. */
  function SkipWs(s: string, i: nat): (j: nat)
    requires i <= |s|
    ensures i <= j <= |s|
    ensures forall k :: i <= k < j ==> IsWs(s[k])
    ensures j < |s| ==> !IsWs(s[j])
    decreases |s| - i
  {
    if i < |s| && IsWs(s[i]) then SkipWs(s, i + 1) else i
  }

  /** Where the whitespace at the end of `s` begins. */
  function TrailingWsStart(s: string): (n: nat)
    ensures n <= |s|
    ensures forall i :: n <= i < |s| ==> IsWs(s[i])
    ensures n > 0 ==> !IsWs(s[n - 1])
    decreases |s|
  {
    if s != [] && IsWs(s[|s| - 1]) then TrailingWsStart(s[..|s| - 1]) else |s|
  }

  /** `trimStart`: the suffix left after the leading whitespace. */
  function TrimStart(s: string): string {
    s[SkipWs(s, 0)..]
  }

  /** `trimEnd`: the prefix left before the trailing whitespace. */
  function TrimEnd(s: string): string {
    s[..TrailingWsStart(s)]
  }

  /** `trim`: both ends stripped. The result is empty exactly when the input is blank, which is
      how `!text.trim()` tests for a blank comment. */
  function Trim(s: string): (r: string)
    ensures r == [] <==> IsBlank(s)
  {
    var a := SkipWs(s, 0);
    var t := TrimStart(s);
    var r := TrimEnd(t);
    assert IsBlank(s) ==> a == |s|;
    assert r == [] ==> a == |s|;
    r
  }

  /** Length of the longest prefix of `s` without whitespace. */
  function NonWsPrefix(s: string): (n: nat)
    ensures n <= |s|
    ensures forall i :: 0 <= i < n ==> !IsWs(s[i])
    ensures n < |s| ==> IsWs(s[n])
    decreases |s|
  {
    if s == [] || IsWs(s[0]) then 0 else 1 + NonWsPrefix(s[1..])
  }

  /** `s.split(/\s+/)`: the pieces between maximal runs of whitespace. A leading or trailing run
      gives an empty first or last piece, and the empty string gives `[""]`. */
  function SplitWs(s: string): (r: seq<string>)
    ensures |r| >= 1
    decreases |s|
  {
    var n := NonWsPrefix(s);
    if n == |s| then [s] else [s[..n]] + SplitWs(s[SkipWs(s, n)..])
  }

  /** `filter(Boolean)` on strings: the non-empty ones. */
  function NonEmpty(pieces: seq<string>): seq<string> {
    Filter(pieces, (w: string) => w != "")
  }

  /** `text.trim().split(/\s+/).filter(Boolean).length`, the word count of the review form. */
  function WordCount(s: string): nat {
    |NonEmpty(SplitWs(Trim(s)))|
  }

  /** Number of words of `s`, counted independently of any splitting: the positions holding a
      non-whitespace character whose predecessor is whitespace or the start of the text.
      `afterWs` says whether the character before `s` was whitespace (true at the start). */
  function WordStarts(s: string, afterWs: bool): nat
    decreases |s|
  {
    if s == [] then 0
    else (if afterWs && !IsWs(s[0]) then 1 else 0) + WordStarts(s[1..], IsWs(s[0]))
  }

  /** Blank text holds no word start. */
  lemma {:induction false} BlankHasNoStarts(w: string, b: bool)
    requires IsBlank(w)
    ensures WordStarts(w, b) == 0
    decreases |w|
  {
    if w != [] {
      BlankHasNoStarts(w[1..], true);
    }
  }

  /** A non-empty run of whitespace resets the count to "after whitespace". */
  lemma {:induction false} StartsAfterBlank(w: string, t: string, b: bool)
    requires w != [] && IsBlank(w)
    ensures WordStarts(w + t, b) == WordStarts(t, true)
    decreases |w|
  {
    assert (w + t)[0] == w[0];
    assert (w + t)[1..] == w[1..] + t;
    if |w| > 1 {
      StartsAfterBlank(w[1..], t, true);
    } else {
      assert w[1..] + t == t;
    }
  }

  /** A non-empty run without whitespace holds exactly one start when it follows whitespace. */
  lemma {:induction false} StartsAfterWord(u: string, t: string, b: bool)
    requires u != [] && forall i :: 0 <= i < |u| ==> !IsWs(u[i])
    ensures WordStarts(u + t, b) == (if b then 1 else 0) + WordStarts(t, false)
    decreases |u|
  {
    assert (u + t)[0] == u[0];
    assert (u + t)[1..] == u[1..] + t;
    if |u| > 1 {
      StartsAfterWord(u[1..], t, false);
    } else {
      assert u[1..] + t == t;
    }
  }

  /** Trailing whitespace adds no start. */
  lemma {:induction false} StartsBeforeBlank(u: string, w: string, b: bool)
    requires IsBlank(w)
    ensures WordStarts(u + w, b) == WordStarts(u, b)
    decreases |u|
  {
    if u == [] {
      assert u + w == w;
      BlankHasNoStarts(w, b);
    } else {
      assert (u + w)[0] == u[0];
      assert (u + w)[1..] == u[1..] + w;
      StartsBeforeBlank(u[1..], w, IsWs(u[0]));
    }
  }

  /** The non-empty pieces of `split(/\s+/)` are exactly the words: one per word start. */
  lemma {:induction false} SplitWsCountsStarts(s: string)
    ensures |NonEmpty(SplitWs(s))| == WordStarts(s, true)
    decreases |s|
  {
    var n := NonWsPrefix(s);
    if n == |s| {
      assert SplitWs(s) == [s];
      FilterSingleton(s, (w: string) => w != "");
      if s != [] {
        assert s + [] == s;
        StartsAfterWord(s, [], true);
      }
    } else {
      var m := SkipWs(s, n);
      SplitWsStep(s, n, m);
      WordStartsStep(s, n, m);
      SplitWsCountsStarts(s[m..]);
    }
  }

  /** Splitting at the first whitespace run: the first piece, non-empty unless the text starts
      with whitespace, and then the pieces of the text after the run. */
  lemma SplitWsStep(s: string, n: nat, m: nat)
    requires n == NonWsPrefix(s) < |s|
    requires m == SkipWs(s, n)
    ensures |NonEmpty(SplitWs(s))| == (if n > 0 then 1 else 0) + |NonEmpty(SplitWs(s[m..]))|
  {
    var rest := s[m..];
    assert SplitWs(s) == [s[..n]] + SplitWs(rest);
    FilterConcat([s[..n]], SplitWs(rest), (w: string) => w != "");
    FilterSingleton(s[..n], (w: string) => w != "");
  }

  /** Counting starts across the first whitespace run: one for the leading word, if any, and then
      the starts of the text after the run. */
  lemma WordStartsStep(s: string, n: nat, m: nat)
    requires n == NonWsPrefix(s) < |s|
    requires m == SkipWs(s, n)
    ensures WordStarts(s, true) == (if n > 0 then 1 else 0) + WordStarts(s[m..], true)
  {
    StartsAcrossGap(s, n, m);
  }

  /** A word `s[..n]`, then a non-empty whitespace run `s[n..m]`, then the rest: the word adds
      one start when it is not empty, and the count carries on from the rest. */
  lemma StartsAcrossGap(s: string, n: nat, m: nat)
    requires n < m <= |s|
    requires forall i :: 0 <= i < n ==> !IsWs(s[i])
    requires forall i :: n <= i < m ==> IsWs(s[i])
    ensures WordStarts(s, true) == (if n > 0 then 1 else 0) + WordStarts(s[m..], true)
  {
    var word, gap, rest := s[..n], s[n..m], s[m..];
    SliceParts(s, n, m);
    StartsAfterBlank(gap, rest, true);
    StartsAfterBlank(gap, rest, false);
    if n > 0 {
      StartsAfterWord(word, gap + rest, true);
    } else {
      assert word + (gap + rest) == gap + rest;
    }
  }

  /** Trimming does not change the number of words. */
  lemma TrimKeepsStarts(s: string)
    ensures WordStarts(Trim(s), true) == WordStarts(s, true)
  {
    var a := SkipWs(s, 0);
    var lead, t := s[..a], s[a..];
    assert s == lead + t;
    assert IsBlank(lead);
    if lead != [] {
      StartsAfterBlank(lead, t, true);
    }
    var e := TrailingWsStart(t);
    var r, trail := t[..e], t[e..];
    assert t == r + trail;
    assert IsBlank(trail);
    assert Trim(s) == r;
    StartsBeforeBlank(r, trail, true);
  }

  /** The word count is the number of word starts in the untrimmed text. */
  lemma WordCountIsWordStarts(s: string)
    ensures WordCount(s) == WordStarts(s, true)
  {
    SplitWsCountsStarts(Trim(s));
    TrimKeepsStarts(s);
  }

  /** Text has no word start iff it is blank. */
  lemma {:induction false} NoStartsIffBlank(s: string)
    ensures WordStarts(s, true) == 0 <==> IsBlank(s)
    decreases |s|
  {
    if IsBlank(s) {
      BlankHasNoStarts(s, true);
    } else if s != [] && IsWs(s[0]) {
      assert !IsBlank(s[1..]);
      NoStartsIffBlank(s[1..]);
    }
  }

  /** The word count is 0 exactly for blank text. */
  lemma WordCountZeroIffBlank(s: string)
    ensures WordCount(s) == 0 <==> IsBlank(s)
  {
    WordCountIsWordStarts(s);
    NoStartsIffBlank(s);
  }

  /** Length of the longest prefix of `s` without `sep`. */
  function PrefixWithout(s: string, sep: char): (n: nat)
    ensures n <= |s|
    ensures sep !in s[..n]
    ensures n < |s| ==> s[n] == sep
    decreases |s|
  {
    if s == [] || s[0] == sep then 0
    else
      var m := PrefixWithout(s[1..], sep);
      assert s[..1 + m] == [s[0]] + s[1..][..m];
      1 + m
  }

  /** `s.split(sep)` for a one-character separator: the pieces between the occurrences of `sep`,
      empty pieces kept, so that `"".split(' ')` is `[""]`. */
  function SplitOn(s: string, sep: char): (r: seq<string>)
    ensures |r| >= 1
    ensures forall i :: 0 <= i < |r| ==> sep !in r[i]
    decreases |s|
  {
    var n := PrefixWithout(s, sep);
    if n == |s| then [s] else [s[..n]] + SplitOn(s[n + 1..], sep)
  }

  /** `pieces.join(sep)`. */
  function Join(pieces: seq<string>, sep: char): string
    requires |pieces| >= 1
    decreases |pieces|
  {
    if |pieces| == 1 then pieces[0] else pieces[0] + [sep] + Join(pieces[1..], sep)
  }

  /** Splitting loses nothing: joining the pieces back gives the original string. */
  lemma {:induction false} JoinSplitOn(s: string, sep: char)
    ensures Join(SplitOn(s, sep), sep) == s
    decreases |s|
  {
    var n := PrefixWithout(s, sep);
    if n < |s| {
      JoinSplitOnStep(s, sep);
      JoinSplitOn(s[n + 1..], sep);
      assert s == s[..n] + [sep] + s[n + 1..];
    } else {
      assert SplitOn(s, sep) == [s];
    }
  }

  /** One step of the round trip: the first piece, the separator, and the rest joined. */
  lemma JoinSplitOnStep(s: string, sep: char)
    requires PrefixWithout(s, sep) < |s|
    ensures var n := PrefixWithout(s, sep);
      Join(SplitOn(s, sep), sep) == s[..n] + [sep] + Join(SplitOn(s[n + 1..], sep), sep)
  {
    var n := PrefixWithout(s, sep);
    var tail := SplitOn(s[n + 1..], sep);
    var r := SplitOn(s, sep);
    assert r == [s[..n]] + tail;
    assert r[1..] == tail;
  }

  /** `toLowerCase` on one character, for the Basic Latin and Latin-1 letters. */
  function LowerChar(c: char): char {
    if 'A' <= c <= 'Z' || ('\U{00C0}' <= c <= '\U{00DE}' && c != '\U{00D7}')
    then (c as int + 32) as char
    else c
  }

  /** `toLowerCase`, character by character. */
  function ToLower(s: string): (r: string)
    ensures |r| == |s|
    ensures forall i :: 0 <= i < |s| ==> r[i] == LowerChar(s[i])
  {
    seq(|s|, i requires 0 <= i < |s| => LowerChar(s[i]))
  }

  /** Lower-casing twice is lower-casing once. */
  lemma ToLowerIdempotent(s: string)
    ensures ToLower(ToLower(s)) == ToLower(s)
  {
  }

  /** `needle` occurs in `hay` starting at position `i`. */
  ghost predicate OccursAt(needle: string, hay: string, i: int) {
    0 <= i && i + |needle| <= |hay| && hay[i..i + |needle|] == needle
  }

  /** `needle` occurs in `hay` at some position: the meaning of `hay.includes(needle)`. */
  ghost predicate IsSubstring(needle: string, hay: string) {
    exists i :: OccursAt(needle, hay, i)
  }

  /** `hay.includes(needle)`, by trying each starting position in turn. */
  function Includes(hay: string, needle: string): bool
    decreases |hay|
  {
    if |needle| <= |hay| && hay[..|needle|] == needle then true
    else if hay == [] then false
    else Includes(hay[1..], needle)
  }

  /** The search by positions finds exactly the occurrences. */
  lemma {:induction false} IncludesIff(hay: string, needle: string)
    ensures Includes(hay, needle) <==> IsSubstring(needle, hay)
    decreases |hay|
  {
    if |needle| <= |hay| && hay[..|needle|] == needle {
      assert OccursAt(needle, hay, 0);
    } else if hay != [] {
      IncludesIff(hay[1..], needle);
      if IsSubstring(needle, hay) {
        var i :| OccursAt(needle, hay, i);
        assert i != 0;
        assert hay[1..][i - 1..i - 1 + |needle|] == hay[i..i + |needle|];
        assert OccursAt(needle, hay[1..], i - 1);
      }
      if IsSubstring(needle, hay[1..]) {
        var i :| OccursAt(needle, hay[1..], i);
        assert hay[i + 1..i + 1 + |needle|] == hay[1..][i..i + |needle|];
        assert OccursAt(needle, hay, i + 1);
      }
    } else {
      assert !OccursAt(needle, hay, 0);
      assert forall i :: !OccursAt(needle, hay, i);
    }
  }

  /** The empty string occurs in every string. */
  lemma IncludesEmpty(hay: string)
    ensures Includes(hay, "")
  {
  }
}
