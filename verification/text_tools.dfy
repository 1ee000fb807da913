/** The Python text helpers: a stop-word-filtering tokenizer, a sentence
    splitter, a top-n keyword extractor and an extractive summarizer.

    Python's `\w` is the parameter `isWord`; `str.lower()` is modelled on
    the ASCII letters; the frequencies divided in the summarizer are reals. */
module TextTools {
  import Text
  import Seqs
  import Ranking

  const Stopwords: set<string> := {
    "the", "and", "is", "in", "it", "of", "to", "a", "that", "this", "for", "on", "with",
    "as", "are", "was", "were", "be", "by", "an", "or", "from", "at", "which", "but", "have", "has"
  }

  // ---------------------------------------------------------------- tokenizer

  /** `re.findall(r"\w+", s)`: the maximal runs of word characters, left to right. */
  function Words(s: string, isWord: char -> bool): (r: seq<string>)
    ensures forall i :: 0 <= i < |r| ==> r[i] != []
    decreases |s|
  {
    if s == [] then []
    else if !isWord(s[0]) then Words(s[1..], isWord)
    else
      var n := Text.Span(s, 0, isWord);
      [s[..n]] + Words(s[n..], isWord)
  }

  /** Every character of every word is a word character taken from the text. */
  lemma {:induction false} WordsChars(s: string, isWord: char -> bool)
    ensures forall i, k :: 0 <= i < |Words(s, isWord)| && 0 <= k < |Words(s, isWord)[i]| ==>
              isWord(Words(s, isWord)[i][k]) && Words(s, isWord)[i][k] in s
    decreases |s|
  {
    if s != [] {
      var r := Words(s, isWord);
      if !isWord(s[0]) {
        WordsChars(s[1..], isWord);
        assert forall c :: c in s[1..] ==> c in s;
      } else {
        var n := Text.Span(s, 0, isWord);
        WordsChars(s[n..], isWord);
        assert forall c :: c in s[n..] ==> c in s;
        forall i, k | 0 <= i < |r| && 0 <= k < |r[i]| ensures isWord(r[i][k]) && r[i][k] in s {
          if i == 0 {
            assert r[0] == s[..n] && r[0][k] == s[k];
          } else {
            assert r[i] == Words(s[n..], isWord)[i - 1];
          }
        }
      }
    }
  }

  /** A non-word character separates: the words on either side are found independently. */
  lemma {:induction false} WordsSplit(a: string, c: char, b: string, isWord: char -> bool)
    requires !isWord(c)
    ensures Words(a + [c] + b, isWord) == Words(a, isWord) + Words(b, isWord)
    decreases |a|
  {
    if a == [] {
      assert (a + [c] + b)[1..] == b;
    } else if !isWord(a[0]) {
      WordsSplit(a[1..], c, b, isWord);
      WordsSkip(a, c, b, isWord);
    } else {
      var n := Text.Span(a, 0, isWord);
      WordsSplit(a[n..], c, b, isWord);
      WordsRun(a, c, b, isWord);
    }
  }

  /** The step of `WordsSplit` past a leading non-word character. */
  lemma WordsSkip(a: string, c: char, b: string, isWord: char -> bool)
    requires a != [] && !isWord(a[0])
    requires Words(a[1..] + [c] + b, isWord) == Words(a[1..], isWord) + Words(b, isWord)
    ensures Words(a + [c] + b, isWord) == Words(a, isWord) + Words(b, isWord)
  {
    assert (a + [c] + b)[1..] == a[1..] + [c] + b;
  }

  /** The first word of `a + [c] + b` is the run that opens `a`, which `c` cannot extend. */
  lemma WordsRunHead(a: string, c: char, b: string, isWord: char -> bool)
    requires a != [] && isWord(a[0]) && !isWord(c)
    ensures Words(a + [c] + b, isWord) ==
              [a[..Text.Span(a, 0, isWord)]] + Words(a[Text.Span(a, 0, isWord)..] + [c] + b, isWord)
  {
    var s, n := a + [c] + b, Text.Span(a, 0, isWord);
    assert s == a + ([c] + b);
    Text.SpanStops(a, [c] + b, 0, isWord);
    assert s[..n] == a[..n];
    assert s[n..] == a[n..] + [c] + b;
  }

  /** The step of `WordsSplit` past a leading run of word characters. */
  lemma WordsRun(a: string, c: char, b: string, isWord: char -> bool)
    requires a != [] && isWord(a[0]) && !isWord(c)
    requires Words(a[Text.Span(a, 0, isWord)..] + [c] + b, isWord)
             == Words(a[Text.Span(a, 0, isWord)..], isWord) + Words(b, isWord)
    ensures Words(a + [c] + b, isWord) == Words(a, isWord) + Words(b, isWord)
  {
    var n := Text.Span(a, 0, isWord);
    WordsRunHead(a, c, b, isWord);
    assert Words(a, isWord) == [a[..n]] + Words(a[n..], isWord);
  }

  /** A non-empty run of word characters is a single word. */
  lemma WordsOfWord(w: string, isWord: char -> bool)
    requires w != []
    requires forall k :: 0 <= k < |w| ==> isWord(w[k])
    ensures Words(w, isWord) == [w]
  {
    var n := Text.Span(w, 0, isWord);
    assert n == |w|;
    assert w[n..] == [];
    assert w[..n] == w;
  }

  /** The words that are not in `stop`, in order. */
  function DropStopwords(ws: seq<string>, stop: set<string>): (r: seq<string>)
    ensures |r| <= |ws|
    ensures forall i :: 0 <= i < |r| ==> r[i] !in stop && r[i] in ws
    ensures forall i :: 0 <= i < |ws| && ws[i] !in stop ==> ws[i] in r
    ensures forall w :: w !in stop ==> Seqs.Count(r, w) == Seqs.Count(ws, w)
    ensures forall w :: w in stop ==> w !in r
  {
    if ws == [] then []
    else
      var init, last := ws[..|ws| - 1], ws[|ws| - 1];
      var r := DropStopwords(init, stop);
      assert ws == init + [last];
      if last in stop then r
      else
        assert (r + [last])[..|r|] == r;
        r + [last]
  }

  /** One more word is kept at the end exactly when it is not a stop word. */
  lemma DropStopwordsSnoc(ws: seq<string>, w: string, stop: set<string>)
    ensures DropStopwords(ws + [w], stop) == DropStopwords(ws, stop) + (if w in stop then [] else [w])
  {
    assert (ws + [w])[..|ws|] == ws;
    if w in stop {
      assert DropStopwords(ws, stop) + [] == DropStopwords(ws, stop);
    }
  }

  /** `_tokenize_words`: the words of the lower-cased text, stop words removed. */
  function Tokens(text: string, isWord: char -> bool): (r: seq<string>)
    ensures forall w :: w in r <==> w in Words(Text.Lower(text), isWord) && w !in Stopwords
    ensures forall i :: 0 <= i < |r| ==> r[i] != [] && r[i] !in Stopwords
    ensures forall i, k :: 0 <= i < |r| && 0 <= k < |r[i]| ==>
              isWord(r[i][k]) && !Text.IsAsciiUpper(r[i][k])
  {
    var lower := Text.Lower(text);
    var ws := Words(lower, isWord);
    var r := DropStopwords(ws, Stopwords);
    WordsChars(lower, isWord);
    assert forall i, k :: 0 <= i < |r| && 0 <= k < |r[i]| ==> r[i][k] in lower by {
      forall i, k | 0 <= i < |r| && 0 <= k < |r[i]| ensures r[i][k] in lower {
        var j :| 0 <= j < |ws| && ws[j] == r[i];
      }
    }
    r
  }

  // ---------------------------------------------------------------- sentence splitter

  predicate IsTerminator(c: char) {
    c == '.' || c == '!' || c == '?'
  }

  predicate IsNewline(c: char) {
    c == '\n'
  }

  /** Length of the match of `(?<=[.!?])\s+|\n+` at index `i`, 0 when there is none. */
  function SeparatorAt(s: string, i: nat): (n: nat)
    requires i < |s|
    ensures i + n <= |s|
    ensures n > 0 <==> s[i] == '\n' || (0 < i && IsTerminator(s[i - 1]) && Text.IsPySpace(s[i]))
  {
    if 0 < i && IsTerminator(s[i - 1]) && Text.IsPySpace(s[i]) then Text.Span(s, i, Text.IsPySpace)
    else if s[i] == '\n' then Text.Span(s, i, IsNewline)
    else 0
  }

  /** Position `k` of `p` is not a newline, nor whitespace right after a terminator. */
  predicate NoBreakAt(p: string, k: nat)
    requires k < |p|
  {
    p[k] != '\n' && (0 < k && IsTerminator(p[k - 1]) ==> !Text.IsPySpace(p[k]))
  }

  /** Nothing in `p` would be split: no newline and no terminator followed by whitespace. */
  predicate NoBreak(p: string) {
    forall k :: 0 <= k < |p| ==> NoBreakAt(p, k)
  }

  lemma NoBreakBetweenSeparators(s: string, a: nat, b: nat)
    requires a <= b <= |s|
    requires forall k :: a <= k < b ==> SeparatorAt(s, k) == 0
    ensures NoBreak(s[a..b])
  {
    var p := s[a..b];
    forall k | 0 <= k < |p| ensures NoBreakAt(p, k) {
      assert SeparatorAt(s, a + k) == 0;
      assert p[k] == s[a + k];
      if 0 < k {
        assert p[k - 1] == s[a + k - 1];
      }
    }
  }

  lemma NoBreakOfSlice(p: string, a: nat, b: nat)
    requires a <= b <= |p| && NoBreak(p)
    ensures NoBreak(p[a..b])
  {
    var q := p[a..b];
    forall k | 0 <= k < |q| ensures NoBreakAt(q, k) {
      assert NoBreakAt(p, a + k);
      assert q[k] == p[a + k];
      if 0 < k {
        assert q[k - 1] == p[a + k - 1];
      }
    }
  }

  lemma NoBreakOfTrim(p: string, sp: char -> bool)
    requires NoBreak(p)
    ensures NoBreak(Text.Trim(p, sp))
  {
    var a := Text.TrimIsSlice(p, sp);
    NoBreakOfSlice(p, a, a + |Text.Trim(p, sp)|);
  }

  /** `re.split` from index `i`, the current piece having begun at `start`. */
  function Pieces(s: string, start: nat, i: nat): (r: seq<string>)
    requires start <= i <= |s|
    requires forall k :: start <= k < i ==> SeparatorAt(s, k) == 0
    ensures r != []
    ensures forall p :: 0 <= p < |r| ==> NoBreak(r[p])
    decreases |s| - i
  {
    if i == |s| then
      NoBreakBetweenSeparators(s, start, i);
      assert s[start..] == s[start..i];
      [s[start..]]
    else
      var n := SeparatorAt(s, i);
      if n == 0 then Pieces(s, start, i + 1)
      else
        NoBreakBetweenSeparators(s, start, i);
        [s[start..i]] + Pieces(s, i + n, i + n)
  }

  /** A position without a separator only extends the current piece. */
  lemma PiecesSkip(s: string, start: nat, j: nat)
    requires start <= j < |s|
    requires forall k :: start <= k <= j ==> SeparatorAt(s, k) == 0
    ensures Pieces(s, start, j) == Pieces(s, start, j + 1)
  {
  }

  /** At a separator the current piece closes and splitting resumes after it. */
  lemma PiecesAtSeparator(s: string, start: nat, i: nat, n: nat)
    requires start <= i < |s|
    requires forall k :: start <= k < i ==> SeparatorAt(s, k) == 0
    requires n == SeparatorAt(s, i) > 0
    ensures Pieces(s, start, i) == [s[start..i]] + Pieces(s, i + n, i + n)
  {
  }

  /** Up to the first separator, at `i`, the text gives one piece, and splitting resumes
      after the separator. */
  lemma {:induction false} PiecesSplitAt(s: string, start: nat, j: nat, i: nat)
    requires start <= j <= i < |s|
    requires forall k :: start <= k < i ==> SeparatorAt(s, k) == 0
    requires SeparatorAt(s, i) > 0
    ensures Pieces(s, start, j) == [s[start..i]] + Pieces(s, i + SeparatorAt(s, i), i + SeparatorAt(s, i))
    decreases i - j
  {
    if j < i {
      PiecesSkip(s, start, j);
      PiecesSplitAt(s, start, j + 1, i);
    } else {
      PiecesAtSeparator(s, start, i, SeparatorAt(s, i));
    }
  }

  /** Every piece is a part of the text. */
  lemma {:induction false} PiecesInText(s: string, start: nat, i: nat)
    requires start <= i <= |s|
    requires forall k :: start <= k < i ==> SeparatorAt(s, k) == 0
    ensures forall p :: 0 <= p < |Pieces(s, start, i)| ==> Text.Contains(s, Pieces(s, start, i)[p])
    decreases |s| - i
  {
    var r := Pieces(s, start, i);
    if i == |s| {
      assert s[start..] == s[start..i];
      Text.ContainsSlice(s, start, i);
    } else {
      var n := SeparatorAt(s, i);
      if n == 0 {
        PiecesInText(s, start, i + 1);
      } else {
        PiecesInText(s, i + n, i + n);
        Text.ContainsSlice(s, start, i);
        var rest := Pieces(s, i + n, i + n);
        assert r == [s[start..i]] + rest;
        forall p | 0 <= p < |r| ensures Text.Contains(s, r[p]) {
          if 0 < p { assert r[p] == rest[p - 1]; }
        }
      }
    }
  }

  /** A text with no separator in it is a single piece. */
  lemma {:induction false} PiecesWithoutSeparator(s: string, start: nat, i: nat)
    requires start <= i <= |s|
    requires forall k :: start <= k < |s| ==> SeparatorAt(s, k) == 0
    ensures Pieces(s, start, i) == [s[start..]]
    decreases |s| - i
  {
    if i < |s| {
      PiecesWithoutSeparator(s, start, i + 1);
    }
  }

  /** `[p.strip() for p in parts if p.strip()]`. */
  function StripNonEmpty(ps: seq<string>): (r: seq<string>)
    ensures |r| <= |ps|
    ensures forall p :: 0 <= p < |r| ==> r[p] != [] && Text.Trimmed(r[p], Text.IsPySpace)
  {
    if ps == [] then []
    else
      var r := StripNonEmpty(ps[..|ps| - 1]);
      var t := Text.Trim(ps[|ps| - 1], Text.IsPySpace);
      if t == [] then r else r + [t]
  }

  /** One more piece adds its stripped form at the end exactly when that is non-empty. */
  lemma StripNonEmptySnoc(ps: seq<string>, p: string)
    ensures StripNonEmpty(ps + [p]) == StripNonEmpty(ps) +
              (if Text.Trim(p, Text.IsPySpace) == [] then [] else [Text.Trim(p, Text.IsPySpace)])
  {
    assert (ps + [p])[..|ps|] == ps;
    if Text.Trim(p, Text.IsPySpace) == [] {
      assert StripNonEmpty(ps) + [] == StripNonEmpty(ps);
    }
  }

  /** Every kept piece is a part of some text that holds all the pieces. */
  lemma {:induction false} StripInText(ps: seq<string>, s: string)
    requires forall p :: 0 <= p < |ps| ==> Text.Contains(s, ps[p])
    ensures forall p :: 0 <= p < |StripNonEmpty(ps)| ==> Text.Contains(s, StripNonEmpty(ps)[p])
  {
    if ps != [] {
      var init, last := ps[..|ps| - 1], ps[|ps| - 1];
      StripInText(init, s);
      var r, t := StripNonEmpty(init), Text.Trim(last, Text.IsPySpace);
      if t != [] {
        Text.ContainsTrim(last, Text.IsPySpace);
        Text.ContainsTransitive(s, last, t);
        var out := r + [t];
        assert StripNonEmpty(ps) == out;
        forall p | 0 <= p < |out| ensures Text.Contains(s, out[p]) {
          if p < |r| { assert out[p] == r[p]; }
        }
      }
    }
  }

  /** Stripping keeps pieces without a break free of breaks. */
  lemma {:induction false} StripNoBreak(ps: seq<string>)
    requires forall p :: 0 <= p < |ps| ==> NoBreak(ps[p])
    ensures forall p :: 0 <= p < |StripNonEmpty(ps)| ==> NoBreak(StripNonEmpty(ps)[p])
  {
    if ps != [] {
      var init, last := ps[..|ps| - 1], ps[|ps| - 1];
      StripNoBreak(init);
      var r, t := StripNonEmpty(init), Text.Trim(last, Text.IsPySpace);
      if t != [] {
        NoBreakOfTrim(last, Text.IsPySpace);
        var out := r + [t];
        assert StripNonEmpty(ps) == out;
        forall p | 0 <= p < |out| ensures NoBreak(out[p]) {
          if p < |r| { assert out[p] == r[p]; }
        }
      }
    }
  }

  /** `_split_sentences`: strip the text, split it, keep the stripped non-empty pieces. */
  function Sentences(text: string): (r: seq<string>)
    ensures forall p :: 0 <= p < |r| ==>
              r[p] != [] && Text.Trimmed(r[p], Text.IsPySpace) && NoBreak(r[p])
    ensures forall p :: 0 <= p < |r| ==> Text.Contains(text, r[p])
  {
    var t := Text.Trim(text, Text.IsPySpace);
    var ps := Pieces(t, 0, 0);
    StripNoBreak(ps);
    PiecesInText(t, 0, 0);
    Text.ContainsTrim(text, Text.IsPySpace);
    assert forall p :: 0 <= p < |ps| ==> Text.Contains(text, ps[p]) by {
      forall p | 0 <= p < |ps| ensures Text.Contains(text, ps[p]) {
        Text.ContainsTransitive(text, t, ps[p]);
      }
    }
    StripInText(ps, text);
    StripNonEmpty(ps)
  }

  /** A stripped, non-empty text without a break is one sentence: sentences split no further. */
  lemma SentenceIsFixpoint(p: string)
    requires p != [] && Text.Trimmed(p, Text.IsPySpace) && NoBreak(p)
    ensures Sentences(p) == [p]
  {
    Text.TrimOfTrimmed(p, Text.IsPySpace);
    forall k | 0 <= k < |p| ensures SeparatorAt(p, k) == 0 {
      assert NoBreakAt(p, k);
      if 0 < k {
        assert p[k - 1] == p[(k - 1) + 1 - 1];
      }
    }
    PiecesWithoutSeparator(p, 0, 0);
    assert p[0..] == p;
  }

  /** A text that is whitespace only has no sentences. */
  lemma BlankHasNoSentences(text: string)
    requires Text.Blank(text, Text.IsPySpace)
    ensures Sentences(text) == []
  {
    Text.TrimEmptyIffBlank(text, Text.IsPySpace);
    var t := Text.Trim(text, Text.IsPySpace);
    assert t == [];
    var ps := Pieces(t, 0, 0);
    assert ps == [[]];
    assert Text.Trim(ps[0], Text.IsPySpace) == [];
    assert StripNonEmpty(ps) == StripNonEmpty(ps[..0]);
  }

  // ---------------------------------------------------------------- keywords

  /** The frequency of each candidate among `words`, as the sort key. */
  function Frequencies(words: seq<string>, cands: seq<string>): (key: seq<real>)
    ensures |key| == |cands|
    ensures forall i :: 0 <= i < |cands| ==> key[i] == Seqs.Count(words, cands[i]) as real
  {
    seq(|cands|, i requires 0 <= i < |cands| => Seqs.Count(words, cands[i]) as real)
  }

  /** `Counter(words).most_common(n)`: a stable descending sort of the distinct words
      (first-occurrence order) by count, cut to `n`; nothing when `n <= 0`. */
  function MostCommon(words: seq<string>, n: int): (r: seq<string>)
    ensures n <= 0 ==> r == []
    ensures 0 < n ==> |r| == if n < |Seqs.Dedup(words)| then n else |Seqs.Dedup(words)|
    ensures Seqs.Distinct(r)
    ensures forall i :: 0 <= i < |r| ==> r[i] in words
  {
    var cands := Seqs.Dedup(words);
    var top := if n <= 0 then [] else Ranking.Top(Frequencies(words, cands), n);
    assert forall p :: 0 <= p < |top| ==> top[p] < |cands| by {
      forall p | 0 <= p < |top| ensures top[p] < |cands| {
        assert top[p] == Ranking.Order(Frequencies(words, cands))[p];
      }
    }
    var r := seq(|top|, p requires 0 <= p < |top| => cands[top[p]]);
    assert Seqs.Distinct(r) by {
      forall p, q | 0 <= p < q < |r| ensures r[p] != r[q] {
        var o := Ranking.Order(Frequencies(words, cands));
        assert top[p] == o[p] && top[q] == o[q];
      }
    }
    r
  }

  /** The default `n` of `extract_keywords` and `max_sentences` of `summarize`. */
  const DefaultKeywordCount: int := 10
  const DefaultSummarySentences: int := 3

  /** `extract_keywords`: the top-n tokens by frequency, or nothing when there are no tokens. */
  function ExtractKeywords(text: string, n: int, isWord: char -> bool): (r: seq<string>)
    ensures Tokens(text, isWord) == [] ==> r == []
    ensures Tokens(text, isWord) != [] ==> r == MostCommon(Tokens(text, isWord), n)
    ensures n <= 0 ==> r == []
    ensures 0 < n ==> |r| <= n
    ensures Seqs.Distinct(r)
    ensures forall i :: 0 <= i < |r| ==> r[i] in Tokens(text, isWord)
  {
    var words := Tokens(text, isWord);
    if words == [] then [] else MostCommon(words, n)
  }

  /** Keywords come in non-increasing frequency; equal frequencies in order of first occurrence. */
  lemma MostCommonRanked(words: seq<string>, n: int)
    ensures forall p, q :: 0 <= p < q < |MostCommon(words, n)| ==>
              var r := MostCommon(words, n);
              Seqs.Count(words, r[p]) > Seqs.Count(words, r[q])
              || (Seqs.Count(words, r[p]) == Seqs.Count(words, r[q])
                  && Seqs.FirstIndex(words, r[p]) < Seqs.FirstIndex(words, r[q]))
  {
    var r := MostCommon(words, n);
    if 0 < n {
      var cands := Seqs.Dedup(words);
      var key := Frequencies(words, cands);
      var o := Ranking.Order(key);
      Seqs.DedupFirstOccurrenceOrder(words);
      forall p, q | 0 <= p < q < |r|
        ensures Seqs.Count(words, r[p]) > Seqs.Count(words, r[q])
                || (Seqs.Count(words, r[p]) == Seqs.Count(words, r[q])
                    && Seqs.FirstIndex(words, r[p]) < Seqs.FirstIndex(words, r[q]))
      {
        assert r[p] == cands[o[p]] && r[q] == cands[o[q]];
        assert Ranking.Before(key, o[p], o[q]);
      }
    }
  }

  /** No word left out beats a chosen keyword: each chosen one is more frequent, or as
      frequent and seen first. */
  lemma MostCommonComplete(words: seq<string>, n: int, w: string)
    requires w in words && w !in MostCommon(words, n)
    ensures forall p :: 0 <= p < |MostCommon(words, n)| ==>
              var r := MostCommon(words, n);
              Seqs.Count(words, r[p]) > Seqs.Count(words, w)
              || (Seqs.Count(words, r[p]) == Seqs.Count(words, w)
                  && Seqs.FirstIndex(words, r[p]) < Seqs.FirstIndex(words, w))
  {
    var r := MostCommon(words, n);
    if 0 < n {
      var cands := Seqs.Dedup(words);
      var key := Frequencies(words, cands);
      var top := Ranking.Top(key, n);
      var o := Ranking.Order(key);
      var j := Seqs.FirstIndex(cands, w);
      Seqs.DedupFirstOccurrenceOrder(words);
      forall p | 0 <= p < |top| ensures top[p] != j {
        assert r[p] in r;
      }
      forall p | 0 <= p < |r|
        ensures Seqs.Count(words, r[p]) > Seqs.Count(words, w)
                || (Seqs.Count(words, r[p]) == Seqs.Count(words, w)
                    && Seqs.FirstIndex(words, r[p]) < Seqs.FirstIndex(words, w))
      {
        assert top[p] == o[p];
        assert r[p] == cands[top[p]];
        Ranking.TopDominates(key, n, top[p], j);
      }
    }
  }

  // ---------------------------------------------------------------- summarizer

  /** `sum(freqs.get(w, 0) for w in s_words)`. */
  function SumCounts(words: seq<string>, sw: seq<string>): (t: nat)
    ensures t <= |sw| * |words|
  {
    if sw == [] then 0
    else
      var t := Seqs.Count(words, sw[0]) + SumCounts(words, sw[1..]);
      assert |sw| * |words| == |words| + |sw[1..]| * |words|;
      t
  }

  /** The sentence score: summed frequencies over one more than the sentence's token count. */
  function SentenceScore(words: seq<string>, sentence: string, isWord: char -> bool): (v: real)
    ensures 0.0 <= v
  {
    var sw := Tokens(sentence, isWord);
    PerToken(SumCounts(words, sw), |sw|)
  }

  /** A summed frequency over one more than the token count. */
  function PerToken(total: nat, tokens: nat): (v: real)
    ensures 0.0 <= v <= total as real
  {
    total as real / (tokens + 1) as real
  }

  function Scores(words: seq<string>, sentences: seq<string>, isWord: char -> bool): (key: seq<real>)
    ensures |key| == |sentences|
    ensures forall i :: 0 <= i < |sentences| ==> key[i] == SentenceScore(words, sentences[i], isWord)
  {
    seq(|sentences|, i requires 0 <= i < |sentences| => SentenceScore(words, sentences[i], isWord))
  }

  /** The positions of the chosen sentences, in their original order. */
  function Picked(text: string, maxSentences: int, isWord: char -> bool): (ix: seq<nat>)
    ensures forall p, q :: 0 <= p < q < |ix| ==> ix[p] < ix[q]
    ensures forall p :: 0 <= p < |ix| ==> ix[p] < |Sentences(text)|
    ensures 0 <= maxSentences ==> |ix| <= maxSentences
    ensures |ix| <= |Sentences(text)|
    ensures 0 <= maxSentences ==>
              |ix| == if maxSentences < |Sentences(text)| then maxSentences else |Sentences(text)|
    ensures maxSentences < 0 ==>
              |ix| == if |Sentences(text)| + maxSentences < 0 then 0 else |Sentences(text)| + maxSentences
  {
    var sentences := Sentences(text);
    var key := Scores(Tokens(text, isWord), sentences, isWord);
    var top := Ranking.Top(key, maxSentences);
    Ranking.TopDistinct(key, maxSentences);
    Ranking.AscendingLength(top, |sentences|);
    Ranking.AscendingBelow(top, |sentences|);
    Ranking.Ascending(top, |sentences|)
  }

  /** A chosen sentence scores higher than every sentence left out, or the same and comes first. */
  lemma PickedAreBest(text: string, maxSentences: int, isWord: char -> bool, i: nat, j: nat)
    requires i in Picked(text, maxSentences, isWord)
    requires j < |Sentences(text)| && j !in Picked(text, maxSentences, isWord)
    ensures i < |Sentences(text)|
    ensures var key := Scores(Tokens(text, isWord), Sentences(text), isWord);
            key[i] > key[j] || (key[i] == key[j] && i < j)
  {
    var sentences := Sentences(text);
    var key := Scores(Tokens(text, isWord), sentences, isWord);
    var top := Ranking.Top(key, maxSentences);
    assert i in top;
    assert j !in top;
    Ranking.TopDominates(key, maxSentences, i, j);
  }

  /** `summarize`. */
  function Summarize(text: string, maxSentences: int, isWord: char -> bool): (r: string)
    ensures Sentences(text) == [] ==> r == ""
    ensures Sentences(text) != [] && Tokens(text, isWord) == [] ==>
              r == Text.Join(Seqs.PyTake(Sentences(text), maxSentences), " ")
    ensures Sentences(text) != [] && Tokens(text, isWord) != [] ==>
              var ix := Picked(text, maxSentences, isWord);
              r == Text.Join(seq(|ix|, p requires 0 <= p < |ix| => Sentences(text)[ix[p]]), " ")
  {
    var sentences := Sentences(text);
    if sentences == [] then ""
    else if Tokens(text, isWord) == [] then Text.Join(Seqs.PyTake(sentences, maxSentences), " ")
    else
      var ix := Picked(text, maxSentences, isWord);
      Text.Join(seq(|ix|, p requires 0 <= p < |ix| => sentences[ix[p]]), " ")
  }
}
