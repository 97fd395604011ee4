/** The string helpers of Go's `strings` and `unicode` packages the repository uses. */
module Text {
  import opened Errors

  /** `unicode.IsSpace`. */
  predicate IsSpace(c: char) {
    || '\t' <= c <= '\r' || c == ' '
    || c == '\U{85}' || c == '\U{A0}' || c == '\U{1680}'
    || '\U{2000}' <= c <= '\U{200A}'
    || c == '\U{2028}' || c == '\U{2029}' || c == '\U{202F}' || c == '\U{205F}' || c == '\U{3000}'
  }

  predicate HasSpace(s: string) {
    exists i :: 0 <= i < |s| && IsSpace(s[i])
  }

  function Lower(c: char): char {
    if 'A' <= c <= 'Z' then (c as int + 32) as char else c
  }

  /** `strings.EqualFold` against a constant whose letters fold within ASCII only. */
  predicate EqualFold(s: string, constant: string) {
    |s| == |constant| && forall i :: 0 <= i < |s| ==> Lower(s[i]) == Lower(constant[i])
  }

  /** The first space splits; `None` when there is none. */
  function Cut(s: string): Option<(string, string)> {
    if s == "" then None
    else if s[0] == ' ' then Some(("", s[1..]))
    else match Cut(s[1..])
      case None => None
      case Some((before, after)) => Some(([s[0]] + before, after))
  }

  lemma {:induction false} CutSplits(s: string)
    ensures Cut(s).None? <==> ' ' !in s
    ensures Cut(s).Some? ==>
              s == Cut(s).value.0 + " " + Cut(s).value.1 && ' ' !in Cut(s).value.0
  {
    if s != "" {
      assert s == [s[0]] + s[1..];
      CutSplits(s[1..]);
      if s[0] != ' ' && Cut(s[1..]).Some? {
        var (before, after) := Cut(s[1..]).value;
        assert [s[0]] + before + " " + after == [s[0]] + (before + " " + after);
      }
    }
  }

  lemma {:induction false} CutAt(before: string, after: string)
    requires ' ' !in before
    ensures Cut(before + " " + after) == Some((before, after))
  {
    var s := before + " " + after;
    if before == "" {
      assert s[1..] == after;
    } else {
      assert s[0] == before[0] && s[1..] == before[1..] + " " + after;
      assert [before[0]] + before[1..] == before;
      CutAt(before[1..], after);
    }
  }

  /** `strings.Fields`: the maximal runs of non-space characters, in order. */
  function Fields(s: string): seq<string> {
    FieldsFrom(s, "")
  }

  function FieldsFrom(s: string, word: string): seq<string> {
    if s == "" then Flush(word)
    else if IsSpace(s[0]) then Flush(word) + FieldsFrom(s[1..], "")
    else FieldsFrom(s[1..], word + [s[0]])
  }

  function Flush(word: string): seq<string> {
    if word == "" then [] else [word]
  }

  predicate Words(words: seq<string>) {
    forall i :: 0 <= i < |words| ==> words[i] != "" && !HasSpace(words[i])
  }

  // ---- Fields by position -----------------------------------------------------------------------

  /** A stretch of the text without white space, with the text's edge or white space on both sides. */
  predicate WordAt(s: string, i: nat, j: nat) {
    && i < j <= |s|
    && (forall k :: i <= k < j ==> !IsSpace(s[k]))
    && (i == 0 || IsSpace(s[i - 1])) && (j == |s| || IsSpace(s[j]))
  }

  type Span = (nat, nat)

  /** These are all the words of the text from a place on, in order of position. */
  ghost predicate AllWords(s: string, from: nat, spans: seq<Span>) {
    && (forall k :: 0 <= k < |spans| ==> from <= spans[k].0 && WordAt(s, spans[k].0, spans[k].1))
    && (forall k, l :: 0 <= k < l < |spans| ==> spans[k].1 < spans[l].0)
    && (forall i: nat, j: nat :: from <= i && WordAt(s, i, j) ==> (i, j) in spans)
  }

  /** What stands at these places. */
  predicate StandsAt(s: string, spans: seq<Span>, words: seq<string>) {
    && |spans| == |words|
    && forall k :: 0 <= k < |spans| ==> spans[k].0 <= spans[k].1 <= |s| && words[k] == s[spans[k].0..spans[k].1]
  }

  lemma WordBefore(s: string, from: nat, end: nat, rest: seq<Span>)
    requires WordAt(s, from, end) && (end == |s| ==> rest == []) && (end < |s| ==> AllWords(s, end + 1, rest))
    ensures AllWords(s, from, [(from, end)] + rest)
  {
    var spans := [(from, end)] + rest;
    forall i: nat, j: nat | from <= i && WordAt(s, i, j) ensures (i, j) in spans {
      if i > end {
        assert (i, j) in rest;
      } else {
        SameWord(s, from, end, i, j);
        assert spans[0] == (from, end);
      }
    }
  }

  lemma SameWord(s: string, from: nat, end: nat, i: nat, j: nat)
    requires WordAt(s, from, end) && WordAt(s, i, j) && from <= i <= end
    ensures i == from && j == end
  {}

  lemma NoWordBefore(s: string, at: nat, rest: seq<Span>)
    requires at < |s| && IsSpace(s[at]) && AllWords(s, at + 1, rest)
    ensures AllWords(s, at, rest)
  {}

  /** The words of the text from a place on, and what stands there. */
  ghost predicate Found(s: string, from: nat, spans: seq<Span>, words: seq<string>) {
    AllWords(s, from, spans) && StandsAt(s, spans, words)
  }

  lemma FoundAtEnd(s: string, from: nat)
    requires from <= |s| && (from == 0 || IsSpace(s[from - 1]))
    requires forall k :: from <= k < |s| ==> !IsSpace(s[k])
    ensures Found(s, from, if from < |s| then [(from, |s|)] else [], Flush(s[from..]))
  {
    if from < |s| {
      WordBefore(s, from, |s|, []);
      assert [(from, |s|)] + [] == [(from, |s|)];
      StandsBefore(s, (from, |s|), [], []);
      assert [s[from..|s|]] + [] == [s[from..|s|]] && s[from..|s|] == s[from..];
    }
  }

  lemma FoundBefore(s: string, from: nat, at: nat, rest: seq<Span>, words: seq<string>)
    requires from <= at < |s| && IsSpace(s[at]) && (from == 0 || IsSpace(s[from - 1]))
    requires forall k :: from <= k < at ==> !IsSpace(s[k])
    requires Found(s, at + 1, rest, words)
    ensures Found(s, from, (if from < at then [(from, at)] else []) + rest, Flush(s[from..at]) + words)
  {
    if from < at {
      WordBefore(s, from, at, rest);
      StandsBefore(s, (from, at), rest, words);
    } else {
      NoWordBefore(s, at, rest);
      assert [] + rest == rest && [] + words == words;
    }
  }

  lemma StandsBefore(s: string, span: Span, rest: seq<Span>, words: seq<string>)
    requires span.0 <= span.1 <= |s| && StandsAt(s, rest, words)
    ensures StandsAt(s, [span] + rest, [s[span.0..span.1]] + words)
  {}

  /** The scan, having read the word that begins at `from` up to `at`. */
  lemma {:induction false} ScanFinds(s: string, from: nat, at: nat) returns (spans: seq<Span>)
    requires from <= at <= |s| && (from == 0 || IsSpace(s[from - 1]))
    requires forall k :: from <= k < at ==> !IsSpace(s[k])
    ensures Found(s, from, spans, FieldsFrom(s[at..], s[from..at]))
    decreases |s| - at
  {
    if at == |s| {
      FoundAtEnd(s, from);
      assert s[from..at] == s[from..];
      spans := if from < at then [(from, at)] else [];
    } else {
      ScanStep(s, from, at);
      if IsSpace(s[at]) {
        var rest := ScanFinds(s, at + 1, at + 1);
        FoundBefore(s, from, at, rest, FieldsFrom(s[at + 1..], ""));
        spans := (if from < at then [(from, at)] else []) + rest;
      } else {
        spans := ScanFinds(s, from, at + 1);
      }
    }
  }

  lemma ScanStep(s: string, from: nat, at: nat)
    requires from <= at < |s|
    ensures FieldsFrom(s[at..], s[from..at]) ==
            if IsSpace(s[at]) then Flush(s[from..at]) + FieldsFrom(s[at + 1..], "")
            else FieldsFrom(s[at + 1..], s[from..at + 1])
    ensures s[at + 1..at + 1] == ""
  {
    assert s[at..][0] == s[at] && s[at..][1..] == s[at + 1..];
    assert s[from..at] + [s[at]] == s[from..at + 1];
  }

  /** `Fields` gives every word of the text, each once, in order of position, and nothing else. */
  lemma FieldsAreTheWords(s: string) returns (spans: seq<Span>)
    ensures Found(s, 0, spans, Fields(s))
  {
    assert s[0..] == s && s[0..0] == "";
    spans := ScanFinds(s, 0, 0);
  }

  // ---- White space does not matter --------------------------------------------------------------

  predicate Blank(s: string) {
    forall i :: 0 <= i < |s| ==> IsSpace(s[i])
  }

  /** Words with white space around them: `gaps[k]` before the k-th, the last gap after all. */
  function Spread(gaps: seq<string>, words: seq<string>): string
    requires |gaps| == |words| + 1
  {
    if words == [] then gaps[0] else gaps[0] + words[0] + Spread(gaps[1..], words[1..])
  }

  /** White space of any kind and amount, some of it between any two words. */
  predicate Spacing(gaps: seq<string>, words: seq<string>) {
    && |gaps| == |words| + 1
    && (forall k :: 0 <= k < |gaps| ==> Blank(gaps[k]))
    && forall k :: 0 < k < |words| ==> gaps[k] != ""
  }

  lemma {:induction false} SkipBlank(gap: string, rest: string)
    requires Blank(gap)
    ensures FieldsFrom(gap + rest, "") == FieldsFrom(rest, "")
  {
    if gap == "" {
      assert gap + rest == rest;
    } else {
      assert (gap + rest)[0] == gap[0] && (gap + rest)[1..] == gap[1..] + rest;
      SkipBlank(gap[1..], rest);
      assert Flush("") == [];
    }
  }

  lemma {:induction false} TakeWord(w: string, rest: string, word: string)
    requires !HasSpace(w) && word + w != "" && (rest == "" || IsSpace(rest[0]))
    ensures FieldsFrom(w + rest, word) == [word + w] + Fields(rest)
  {
    if w == "" {
      assert w + rest == rest && word + w == word;
      if rest != "" { SkipBlank(rest[..1], rest[1..]); assert rest[..1] + rest[1..] == rest; }
    } else {
      assert !IsSpace(w[0]) && !HasSpace(w[1..]);
      assert (w + rest)[0] == w[0] && (w + rest)[1..] == w[1..] + rest;
      assert word + [w[0]] + w[1..] == word + w;
      TakeWord(w[1..], rest, word + [w[0]]);
    }
  }

  /** Any list of words, written with any white space before, between and after, is read back
      unchanged; so what stands between words, and whether anything follows the last, is no matter. */
  lemma {:induction false} FieldsRoundTrip(gaps: seq<string>, words: seq<string>)
    requires Words(words) && Spacing(gaps, words)
    ensures Fields(Spread(gaps, words)) == words
  {
    if words == [] {
      SkipBlank(gaps[0], "");
      assert gaps[0] + "" == gaps[0];
    } else {
      var rest := Spread(gaps[1..], words[1..]);
      assert Words(words[1..]) && Spacing(gaps[1..], words[1..]);
      FieldsRoundTrip(gaps[1..], words[1..]);
      assert rest == "" || IsSpace(rest[0]) by {
        assert |gaps[1..]| > 0 && Blank(gaps[1..][0]);
        if |words| > 1 { assert gaps[1] != ""; }
      }
      assert Spread(gaps, words) == gaps[0] + (words[0] + rest);
      SkipBlank(gaps[0], words[0] + rest);
      TakeWord(words[0], rest, "");
      assert "" + words[0] == words[0];
    }
  }

  /** A text that is one word gives that word. */
  lemma OneWord(w: string)
    requires w != "" && !HasSpace(w)
    ensures Fields(w) == [w]
  {
    FieldsRoundTrip(["", ""], [w]);
    assert ["", ""][1..] == [""] && [w][1..] == [];
    assert Spread([""], []) == "";
    assert Spread(["", ""], [w]) == w;
  }

  // ---- Letters in any case ------------------------------------------------------------------------

  /** The characters that fold together with a letter of the constants used. */
  predicate SameLetter(c: char, upper: char, lower: char) {
    c == upper || c == lower
  }

  lemma BearerInAnyCase(s: string)
    ensures EqualFold(s, "Bearer") <==>
            && |s| == 6
            && SameLetter(s[0], 'B', 'b') && SameLetter(s[1], 'E', 'e') && SameLetter(s[2], 'A', 'a')
            && SameLetter(s[3], 'R', 'r') && SameLetter(s[4], 'E', 'e') && SameLetter(s[5], 'R', 'r')
  {}

  lemma JwtInAnyCase(s: string)
    ensures EqualFold(s, "JWT") <==>
            && |s| == 3
            && SameLetter(s[0], 'J', 'j') && SameLetter(s[1], 'W', 'w') && SameLetter(s[2], 'T', 't')
  {}

  /** White space by code point. */
  lemma SpacesAre(c: char)
    ensures IsSpace(c) <==>
            || 9 <= c as int <= 13 || 8192 <= c as int <= 8202
            || c as int in {32, 133, 160, 5760, 8232, 8233, 8239, 8287, 12288}
  {}
}
