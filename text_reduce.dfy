/** `preprocess_text` in functions/bili.py: clean the segmented tag text,
    count the surviving tokens and apply the asymmetric retention rule. The
    segmenter (jieba) is not modelled: its token sequence is the input. */
module TextReduce {
  import opened Text

  /** The fixed stopword list of the filter, written as two literals (its
      first and second halves) so that membership stays cheap to decide. */
  const Stopwords: seq<string> := StopwordsHead + StopwordsTail
  const StopwordsHead: seq<string> := [
    "的", "了", "在", "是", "有", "和", "就", "不", "到", "说", "要", "去", "你", "会",
    "着", "没有", "看", "好", "还", "把", "那", "这", "来", "很", "从", "被", "让", "给"]
  const StopwordsTail: seq<string> := [
    "对", "向", "以", "所", "为", "而", "也", "都", "能", "下", "自己", "什么", "怎么", "可以",
    "如果", "因为", "所以", "但是", "然后", "现在", "已经", "一个", "这个", "那个", "我们", "他们", "她们", "它们"]

  /** Pruning applies only when there are more distinct tokens than this. */
  const VocabularyLimit: nat := 100

  /** `word.isdigit()`. */
  predicate IsAllDigits(w: string, cc: CharClasses) {
    |w| > 0 && forall i :: 0 <= i < |w| ==> cc.isDigit(w[i])
  }

  /** `re.match(r'^[^\w\s]+$', word)` on a stripped word: one or more
      characters, none a word character or white space. */
  predicate IsPunctuation(w: string, cc: CharClasses) {
    |w| > 0 && forall i :: 0 <= i < |w| ==> !cc.isWord(w[i]) && !cc.isSpace(w[i])
  }

  /** The filter's test on a stripped token. */
  predicate Keep(w: string, cc: CharClasses) {
    |w| > 1 && !IsAllDigits(w, cc) && !IsPunctuation(w, cc) && w !in Stopwords
  }

  /** `filtered_words` after the filter loop: the stripped tokens that pass `Keep`, in order. */
  function Filtered(words: seq<string>, cc: CharClasses): seq<string>
    decreases |words|
  {
    if words == [] then []
    else
      var w := Strip(words[|words| - 1], cc.isSpace);
      Filtered(words[..|words| - 1], cc) + (if Keep(w, cc) then [w] else [])
  }

  predicate NoDuplicates(s: seq<string>) {
    forall i, j :: 0 <= i < j < |s| ==> s[i] != s[j]
  }

  /** How often `w` occurs in `xs` (`Counter(xs)[w]`). */
  function Occurrences(xs: seq<string>, w: string): nat {
    multiset(xs)[w]
  }

  /** The keys of `Counter(xs)` in iteration order: each distinct token once,
      in order of first occurrence. */
  function Distinct(xs: seq<string>): (r: seq<string>)
    ensures forall w :: w in r <==> w in xs
    ensures NoDuplicates(r)
    decreases |xs|
  {
    if xs == [] then []
    else
      var d := Distinct(xs[..|xs| - 1]);
      var last := xs[|xs| - 1];
      if last in d then d else d + [last]
  }

  lemma {:induction false} DistinctLength(xs: seq<string>)
    ensures |Distinct(xs)| <= |xs|
    decreases |xs|
  {
    if xs != [] { DistinctLength(xs[..|xs| - 1]); }
  }

  /** `Counter(xs)` as a map from token to count. */
  function Counts(xs: seq<string>): map<string, nat> {
    map w | w in xs :: Occurrences(xs, w)
  }

  /** The comprehension `[word for word, freq in word_freq.items() if freq > 1]`. */
  function Frequent(keys: seq<string>, freq: map<string, nat>): (r: seq<string>)
    requires forall k :: k in keys ==> k in freq
    ensures forall w :: w in r <==> w in keys && freq[w] > 1
    decreases |keys|
  {
    if keys == [] then []
    else (if freq[keys[0]] > 1 then [keys[0]] else []) + Frequent(keys[1..], freq)
  }

  /** The retention rule: with more than `VocabularyLimit` distinct tokens keep
      the distinct tokens that occur more than once, otherwise keep everything. */
  function Retained(xs: seq<string>): seq<string> {
    var keys := Distinct(xs);
    if |keys| > VocabularyLimit then Frequent(keys, Counts(xs)) else xs
  }

  /** What `preprocess_text` returns for the segmenter's tokens `words`. */
  function Reduce(words: seq<string>, cc: CharClasses): string {
    JoinWords(Retained(Filtered(words, cc)))
  }

  /** The filter loop of `preprocess_text`. */
  method FilterTokens(words: seq<string>, cc: CharClasses) returns (filteredWords: seq<string>)
    ensures filteredWords == Filtered(words, cc)
  {
    filteredWords := [];
    for i := 0 to |words|
      invariant filteredWords == Filtered(words[..i], cc)
    {
      var word := Strip(words[i], cc.isSpace);
      if |word| > 1 && !IsAllDigits(word, cc) && !IsPunctuation(word, cc) && word !in Stopwords {
        filteredWords := filteredWords + [word];
      }
      assert words[..i + 1][..i] == words[..i];
    }
    assert words[..|words|] == words;
  }

  /** The counting loop's invariant: `freq` counts the tokens of `seen` and
      `keys` lists its keys in insertion order. */
  ghost predicate Tally(freq: map<string, nat>, keys: seq<string>, seen: seq<string>) {
    && keys == Distinct(seen)
    && (forall w :: w in freq <==> w in seen)
    && (forall w :: w in freq ==> freq[w] == Occurrences(seen, w))
  }

  /** Counting a token seen before keeps the tally. */
  lemma TallyRepeat(freq: map<string, nat>, keys: seq<string>, seen: seq<string>, w: string)
    requires Tally(freq, keys, seen) && w in freq
    ensures Tally(freq[w := freq[w] + 1], keys, seen + [w])
  {
    DistinctSnoc(seen, w);
    TallyCounts(freq, seen, w, freq[w := freq[w] + 1]);
  }

  /** Counting a new token keeps the tally, with the token appended to the keys. */
  lemma TallyFirst(freq: map<string, nat>, keys: seq<string>, seen: seq<string>, w: string)
    requires Tally(freq, keys, seen) && w !in freq
    ensures Tally(freq[w := 1], keys + [w], seen + [w])
  {
    DistinctSnoc(seen, w);
    TallyCounts(freq, seen, w, freq[w := 1]);
  }

  lemma DistinctSnoc(seen: seq<string>, w: string)
    ensures Distinct(seen + [w]) == if w in seen then Distinct(seen) else Distinct(seen) + [w]
  {
    assert (seen + [w])[..|seen|] == seen;
  }

  lemma TallyCounts(freq: map<string, nat>, seen: seq<string>, w: string, freq': map<string, nat>)
    requires forall v :: v in freq <==> v in seen
    requires forall v :: v in freq ==> freq[v] == Occurrences(seen, v)
    requires freq' == freq[w := Occurrences(seen, w) + 1]
    ensures forall v :: v in freq' <==> v in seen + [w]
    ensures forall v :: v in freq' ==> freq'[v] == Occurrences(seen + [w], v)
  {
    assert multiset(seen + [w]) == multiset(seen) + multiset{w};
  }

  /** A tally of all the tokens is `Counter(xs)`, with one key per entry. */
  lemma TallyDone(freq: map<string, nat>, keys: seq<string>, xs: seq<string>)
    requires Tally(freq, keys, xs)
    ensures freq == Counts(xs) && |freq| == |keys|
  {
    assert freq == Counts(xs);
    NoDuplicatesCard(keys);
    assert freq.Keys == set w | w in keys;
  }

  /** `Counter(xs)`: the counts, and the keys in the dictionary's insertion order. */
  method CountTokens(xs: seq<string>) returns (wordFreq: map<string, nat>, keys: seq<string>)
    ensures wordFreq == Counts(xs)
    ensures keys == Distinct(xs)
    ensures |wordFreq| == |keys|
  {
    wordFreq := map[];
    keys := [];
    for i := 0 to |xs|
      invariant Tally(wordFreq, keys, xs[..i])
    {
      var w := xs[i];
      assert xs[..i + 1] == xs[..i] + [w];
      if w in wordFreq {
        TallyRepeat(wordFreq, keys, xs[..i], w);
        wordFreq := wordFreq[w := wordFreq[w] + 1];
      } else {
        TallyFirst(wordFreq, keys, xs[..i], w);
        wordFreq := wordFreq[w := 1];
        keys := keys + [w];
      }
    }
    assert xs[..|xs|] == xs;
    TallyDone(wordFreq, keys, xs);
  }

  /** `preprocess_text`: the filter loop, the counting of `Counter`, the
      retention rule and the join. */
  method PreprocessText(words: seq<string>, cc: CharClasses) returns (resultText: string)
    ensures resultText == Reduce(words, cc)
  {
    var filteredWords := FilterTokens(words, cc);
    var wordFreq, keys := CountTokens(filteredWords);
    if |wordFreq| > VocabularyLimit {
      filteredWords := Frequent(keys, wordFreq);
    }
    resultText := JoinWords(filteredWords);
  }

  // ---------------------------------------------------------------------
  // The filter

  /** The filter keeps exactly the stripped tokens that pass `Keep`: every
      kept token is stripped, longer than one character, not all digits, not
      all punctuation and not a stopword, and every input token whose stripped
      form passes is kept. */
  lemma {:induction false} FilteredTokens(words: seq<string>, cc: CharClasses)
    ensures |Filtered(words, cc)| <= |words|
    ensures forall w :: w in Filtered(words, cc) <==>
              Keep(w, cc) && exists i :: 0 <= i < |words| && Strip(words[i], cc.isSpace) == w
    ensures forall w :: w in Filtered(words, cc) ==> Strip(w, cc.isSpace) == w
    decreases |words|
  {
    FilteredLength(words, cc);
    forall w ensures w in Filtered(words, cc) <==> Keep(w, cc) && StrippedFrom(w, words, cc) {
      FilteredMember(words, cc, w);
    }
    forall w | w in Filtered(words, cc) ensures Strip(w, cc.isSpace) == w {
      FilteredMember(words, cc, w);
      var i :| 0 <= i < |words| && Strip(words[i], cc.isSpace) == w;
      StripIdempotent(words[i], cc.isSpace);
    }
  }

  /** `w` is the stripped form of one of the tokens. */
  ghost predicate StrippedFrom(w: string, words: seq<string>, cc: CharClasses) {
    exists i :: 0 <= i < |words| && Strip(words[i], cc.isSpace) == w
  }

  lemma {:induction false} FilteredLength(words: seq<string>, cc: CharClasses)
    ensures |Filtered(words, cc)| <= |words|
    decreases |words|
  {
    if words != [] {
      FilteredLength(words[..|words| - 1], cc);
    }
  }

  lemma {:induction false} FilteredMember(words: seq<string>, cc: CharClasses, w: string)
    ensures w in Filtered(words, cc) <==> Keep(w, cc) && StrippedFrom(w, words, cc)
    decreases |words|
  {
    if words != [] {
      var init := words[..|words| - 1];
      FilteredMember(init, cc, w);
      if StrippedFrom(w, init, cc) {
        var i :| 0 <= i < |init| && Strip(init[i], cc.isSpace) == w;
        assert words[i] == init[i];
      }
      if StrippedFrom(w, words, cc) {
        var i :| 0 <= i < |words| && Strip(words[i], cc.isSpace) == w;
        if i < |init| {
          assert init[i] == words[i];
        }
      }
    }
  }

  /** A kept token is never blank. */
  lemma KeptTokenNotBlank(w: string, cc: CharClasses)
    requires Keep(w, cc) && Strip(w, cc.isSpace) == w
    ensures !IsBlank(w, cc.isSpace)
  {
    StripShape(w, cc.isSpace);
  }

  // ---------------------------------------------------------------------
  // Counting and first occurrences

  lemma {:induction false} NoDuplicatesCard(s: seq<string>)
    requires NoDuplicates(s)
    ensures |set w | w in s| == |s|
    decreases |s|
  {
    if s != [] {
      var init := s[..|s| - 1];
      assert NoDuplicates(init);
      NoDuplicatesCard(init);
      assert (set w | w in s) == (set w | w in init) + {s[|s| - 1]};
      assert s[|s| - 1] !in init;
    }
  }

  /** `len(Counter(xs))` is the number of distinct tokens. */
  lemma DistinctCard(xs: seq<string>)
    ensures |Distinct(xs)| == |set w | w in xs|
  {
    NoDuplicatesCard(Distinct(xs));
    assert (set w | w in Distinct(xs)) == (set w | w in xs);
  }

  /** The index of the first occurrence of `w` in `xs`. */
  function FirstIndex(xs: seq<string>, w: string): (r: nat)
    requires w in xs
    ensures r < |xs| && xs[r] == w
    decreases |xs|
  {
    if xs[0] == w then 0 else 1 + FirstIndex(xs[1..], w)
  }

  /** `FirstIndex` is the first occurrence: `w` does not occur before it. */
  lemma {:induction false} FirstIndexFirst(xs: seq<string>, w: string)
    requires w in xs
    ensures w !in xs[..FirstIndex(xs, w)]
    decreases |xs|
  {
    if xs[0] != w {
      FirstIndexFirst(xs[1..], w);
      var r := FirstIndex(xs, w);
      assert xs[..r] == [xs[0]] + xs[1..][..r - 1];
    }
  }

  /** Any index holding `w` with no earlier `w` is the first index. */
  lemma FirstIndexUnique(xs: seq<string>, w: string, r: nat)
    requires r < |xs| && xs[r] == w && w !in xs[..r]
    ensures FirstIndex(xs, w) == r
  {
    var f := FirstIndex(xs, w);
    FirstIndexFirst(xs, w);
  }

  /** `a` first occurs in `xs` before `b` does. */
  predicate Before(xs: seq<string>, a: string, b: string) {
    a in xs && b in xs && FirstIndex(xs, a) < FirstIndex(xs, b)
  }

  /** Tokens listed in the order of their first occurrence in `xs`. */
  predicate InFirstOccurrenceOrder(r: seq<string>, xs: seq<string>) {
    (forall i :: 0 <= i < |r| ==> r[i] in xs) &&
    forall i, j :: 0 <= i < j < |r| ==> Before(xs, r[i], r[j])
  }

  /** `Counter.items()` iterates its keys in order of first occurrence. */
  lemma {:induction false} DistinctOrder(xs: seq<string>)
    ensures InFirstOccurrenceOrder(Distinct(xs), xs)
    decreases |xs|
  {
    if xs != [] {
      var init := xs[..|xs| - 1];
      var last := xs[|xs| - 1];
      var d := Distinct(init);
      DistinctOrder(init);
      forall w | w in init ensures w in xs && FirstIndex(xs, w) == FirstIndex(init, w) {
        var f := FirstIndex(init, w);
        FirstIndexFirst(init, w);
        assert xs[..f] == init[..f];
        FirstIndexUnique(xs, w, f);
      }
      if last !in d {
        assert last !in xs[..|xs| - 1];
        FirstIndexUnique(xs, last, |xs| - 1);
        var r := d + [last];
        forall i, j | 0 <= i < j < |r| ensures Before(xs, r[i], r[j]) {
          assert r[i] == d[i];
          if j < |d| {
            assert r[j] == d[j];
          }
        }
      }
    }
  }

  /** Dropping the first token keeps the order. */
  lemma OrderTail(r: seq<string>, xs: seq<string>)
    requires r != [] && InFirstOccurrenceOrder(r, xs)
    ensures InFirstOccurrenceOrder(r[1..], xs)
  {
    var rest := r[1..];
    forall i | 0 <= i < |rest| ensures rest[i] in xs { assert rest[i] == r[i + 1]; }
    forall i, j | 0 <= i < j < |rest| ensures Before(xs, rest[i], rest[j]) {
      assert rest[i] == r[i + 1] && rest[j] == r[j + 1];
      assert Before(xs, r[i + 1], r[j + 1]);
    }
  }

  /** A token that first occurs before every token of an ordered list can be put in front of it. */
  lemma OrderCons(w: string, r: seq<string>, xs: seq<string>)
    requires w in xs && InFirstOccurrenceOrder(r, xs)
    requires forall v :: v in r ==> Before(xs, w, v)
    ensures InFirstOccurrenceOrder([w] + r, xs)
  {
    var c := [w] + r;
    forall i | 0 <= i < |c| ensures c[i] in xs {
      if i > 0 { assert c[i] == r[i - 1]; }
    }
    forall i, j | 0 <= i < j < |c| ensures Before(xs, c[i], c[j]) {
      assert c[j] == r[j - 1];
      if i == 0 {
        assert c[i] == w && r[j - 1] in r;
      } else {
        assert c[i] == r[i - 1];
        assert Before(xs, r[i - 1], r[j - 1]);
      }
    }
  }

  /** The first token of an ordered list first occurs before every later one. */
  lemma HeadBefore(keys: seq<string>, xs: seq<string>, later: seq<string>)
    requires keys != [] && InFirstOccurrenceOrder(keys, xs)
    requires forall v :: v in later ==> v in keys[1..]
    ensures forall v :: v in later ==> Before(xs, keys[0], v)
  {
    forall v | v in later ensures Before(xs, keys[0], v) {
      var m :| 0 <= m < |keys[1..]| && keys[1..][m] == v;
      assert keys[m + 1] == v;
    }
  }

  /** Filtering the keys keeps their order. */
  lemma {:induction false} FrequentOrder(keys: seq<string>, freq: map<string, nat>, xs: seq<string>)
    requires forall k :: k in keys ==> k in freq
    requires InFirstOccurrenceOrder(keys, xs)
    ensures InFirstOccurrenceOrder(Frequent(keys, freq), xs)
    decreases |keys|
  {
    if keys != [] {
      var rest := keys[1..];
      OrderTail(keys, xs);
      FrequentOrder(rest, freq, xs);
      var fr := Frequent(rest, freq);
      if freq[keys[0]] > 1 {
        HeadBefore(keys, xs, fr);
        OrderCons(keys[0], fr, xs);
        assert Frequent(keys, freq) == [keys[0]] + fr;
      } else {
        assert Frequent(keys, freq) == fr;
      }
    }
  }

  lemma OrderedHasNoDuplicates(r: seq<string>, xs: seq<string>)
    requires InFirstOccurrenceOrder(r, xs)
    ensures NoDuplicates(r)
  {
  }

  // ---------------------------------------------------------------------
  // The retention rule

  /** The retention rule stated on its own terms. If the tokens have more
      than `VocabularyLimit` distinct values, the result holds exactly the
      tokens that occur more than once, each once, in order of first
      occurrence; otherwise it is the input unchanged. */
  lemma RetentionRule(xs: seq<string>)
    ensures |set w | w in xs| <= VocabularyLimit ==> Retained(xs) == xs
    ensures |set w | w in xs| > VocabularyLimit ==>
              && (forall w :: w in Retained(xs) <==> Occurrences(xs, w) > 1)
              && InFirstOccurrenceOrder(Retained(xs), xs)
              && NoDuplicates(Retained(xs))
  {
    DistinctCard(xs);
    if |set w | w in xs| > VocabularyLimit {
      DistinctOrder(xs);
      FrequentOrder(Distinct(xs), Counts(xs), xs);
      OrderedHasNoDuplicates(Retained(xs), xs);
      forall w ensures w in Retained(xs) <==> Occurrences(xs, w) > 1 {
        if Occurrences(xs, w) > 1 {
          assert w in multiset(xs);
        }
      }
    }
  }

  lemma {:induction false} OccurrencesOfDistinct(s: seq<string>, w: string)
    requires NoDuplicates(s)
    ensures Occurrences(s, w) <= 1
    decreases |s|
  {
    if s != [] {
      var init := s[..|s| - 1];
      assert s == init + [s[|s| - 1]];
      assert NoDuplicates(init);
      OccurrencesOfDistinct(init, w);
      if w == s[|s| - 1] {
        assert w !in init;
      }
    }
  }

  lemma {:induction false} DistinctOfDistinct(s: seq<string>)
    requires NoDuplicates(s)
    ensures Distinct(s) == s
    decreases |s|
  {
    if s != [] {
      var init := s[..|s| - 1];
      assert NoDuplicates(init);
      DistinctOfDistinct(init);
      assert s[|s| - 1] !in init;
      assert init + [s[|s| - 1]] == s;
    }
  }

  lemma {:induction false} FrequentOfSingles(keys: seq<string>, freq: map<string, nat>)
    requires forall k :: k in keys ==> k in freq && freq[k] <= 1
    ensures Frequent(keys, freq) == []
    decreases |keys|
  {
    if keys != [] {
      FrequentOfSingles(keys[1..], freq);
    }
  }

  /** Applying the rule twice: when the first pass leaves at most
      `VocabularyLimit` distinct tokens the second changes nothing, but a
      pruned result with more than `VocabularyLimit` tokens, each now
      occurring once, is pruned to nothing. */
  lemma RetainedTwice(xs: seq<string>)
    ensures var r := Retained(xs);
            if |Distinct(xs)| > VocabularyLimit && |r| > VocabularyLimit
            then Retained(r) == []
            else Retained(r) == r
  {
    var r := Retained(xs);
    if |Distinct(xs)| > VocabularyLimit {
      RetentionRule(xs);
      DistinctCard(xs);
      DistinctOfDistinct(r);
      if |r| > VocabularyLimit {
        forall k | k in r ensures k in Counts(r) && Counts(r)[k] <= 1 {
          OccurrencesOfDistinct(r, k);
        }
        FrequentOfSingles(r, Counts(r));
      }
    }
  }

  /** Everything retained was a filtered token. */
  lemma RetainedSubset(xs: seq<string>)
    ensures forall w :: w in Retained(xs) ==> w in xs
  {
  }

  /** The corpus is blank (and the word cloud stage is skipped) exactly when
      no token is retained. */
  lemma ReducedBlankIff(words: seq<string>, cc: CharClasses)
    requires cc.isSpace(' ')
    ensures IsBlank(Reduce(words, cc), cc.isSpace) <==> Retained(Filtered(words, cc)) == []
  {
    var f := Filtered(words, cc);
    var r := Retained(f);
    FilteredTokens(words, cc);
    RetainedSubset(f);
    JoinWordsBlank(r, cc.isSpace);
    if r != [] {
      assert r[0] in f;
      KeptTokenNotBlank(r[0], cc);
    }
  }

  /** Filtering stripped tokens that all pass the test changes nothing. */
  lemma {:induction false} FilteredOfClean(words: seq<string>, cc: CharClasses)
    requires forall i :: 0 <= i < |words| ==> Keep(words[i], cc) && Strip(words[i], cc.isSpace) == words[i]
    ensures Filtered(words, cc) == words
    decreases |words|
  {
    if words != [] {
      FilteredOfClean(words[..|words| - 1], cc);
      assert words[..|words| - 1] + [words[|words| - 1]] == words;
    }
  }

  /** Reducing an already clean corpus with at most `VocabularyLimit` distinct
      tokens only joins it. */
  lemma CleanCorpusUnchanged(words: seq<string>, cc: CharClasses)
    requires forall i :: 0 <= i < |words| ==> Keep(words[i], cc) && Strip(words[i], cc.isSpace) == words[i]
    requires |set w | w in words| <= VocabularyLimit
    ensures Reduce(words, cc) == JoinWords(words)
  {
    FilteredOfClean(words, cc);
    SmallVocabularyKept(words);
  }

  lemma SmallVocabularyKept(xs: seq<string>)
    requires |set w | w in xs| <= VocabularyLimit
    ensures Retained(xs) == xs
  {
    DistinctCard(xs);
  }

  /** A one-character token never survives the filter. */
  lemma ShortTokenDropped(ws: seq<string>, w: string, cc: CharClasses)
    requires |w| <= 1
    ensures Filtered(ws + [w], cc) == Filtered(ws, cc)
  {
    assert (ws + [w])[..|ws|] == ws;
  }

  /** A two-character word of word characters survives the filter unchanged. */
  lemma TwoCharWordKept(ws: seq<string>, w: string, cc: CharClasses)
    requires |w| == 2 && !cc.isSpace(w[0]) && !cc.isSpace(w[1])
    requires cc.isWord(w[0]) && !cc.isDigit(w[0]) && w !in Stopwords
    ensures Filtered(ws + [w], cc) == Filtered(ws, cc) + [w]
  {
    assert (ws + [w])[..|ws|] == ws;
    assert TrimLeft(w, cc.isSpace) == w;
    assert TrimRight(w, cc.isSpace) == w;
    assert !IsPunctuation(w, cc);
  }

  /** No stopword is a two-character word starting with one of these characters. */
  lemma NotAStopword(w: string)
    requires |w| == 2 && w[0] in "游音科"
    ensures w !in Stopwords
  {
    assert w !in StopwordsHead;
    assert w !in StopwordsTail;
  }

  /** The filter on a small corpus: the one-character tokens (a stopword, a
      particle, a numeral, a punctuation mark) are dropped and the words are
      kept in order, duplicates included. */
  lemma SmallCorpusFiltered(cc: CharClasses)
    requires !cc.isSpace('游') && !cc.isSpace('戏') && !cc.isSpace('音') && !cc.isSpace('乐') && !cc.isSpace('科') && !cc.isSpace('技')
    requires cc.isWord('游') && cc.isWord('音') && cc.isWord('科')
    requires !cc.isDigit('游') && !cc.isDigit('音') && !cc.isDigit('科')
    ensures Filtered(["游戏", "游戏", "音乐", "的", "了", "1", "!", "科技"], cc) == ["游戏", "游戏", "音乐", "科技"]
  {
    NotAStopword("游戏");
    NotAStopword("音乐");
    NotAStopword("科技");
    var p1 := [] + ["游戏"];
    TwoCharWordKept([], "游戏", cc);
    var p2 := p1 + ["游戏"];
    TwoCharWordKept(p1, "游戏", cc);
    var p3 := p2 + ["音乐"];
    TwoCharWordKept(p2, "音乐", cc);
    var p4 := p3 + ["的"];
    ShortTokenDropped(p3, "的", cc);
    var p5 := p4 + ["了"];
    ShortTokenDropped(p4, "了", cc);
    var p6 := p5 + ["1"];
    ShortTokenDropped(p5, "1", cc);
    var p7 := p6 + ["!"];
    ShortTokenDropped(p6, "!", cc);
    var p8 := p7 + ["科技"];
    TwoCharWordKept(p7, "科技", cc);
    assert Filtered(p3, cc) == p3;
    assert Filtered(p7, cc) == p3;
    assert Filtered(p8, cc) == p3 + ["科技"];
    assert p3 + ["科技"] == ["游戏", "游戏", "音乐", "科技"];
    assert p8 == ["游戏", "游戏", "音乐", "的", "了", "1", "!", "科技"];
  }

  /** The whole reduction on that corpus: with far fewer than
      `VocabularyLimit` distinct tokens nothing is pruned. */
  lemma SmallCorpusExample(cc: CharClasses)
    requires !cc.isSpace('游') && !cc.isSpace('戏') && !cc.isSpace('音') && !cc.isSpace('乐') && !cc.isSpace('科') && !cc.isSpace('技')
    requires cc.isWord('游') && cc.isWord('音') && cc.isWord('科')
    requires !cc.isDigit('游') && !cc.isDigit('音') && !cc.isDigit('科')
    ensures Reduce(["游戏", "游戏", "音乐", "的", "了", "1", "!", "科技"], cc) == "游戏 游戏 音乐 科技"
  {
    SmallCorpusFiltered(cc);
    var kept := ["游戏", "游戏", "音乐", "科技"];
    DistinctLength(kept);
    assert Retained(kept) == kept;
    assert Reduce(["游戏", "游戏", "音乐", "的", "了", "1", "!", "科技"], cc) == JoinWords(kept);
    var t1 := ["科技"];
    var t2 := ["音乐"] + t1;
    var t3 := ["游戏"] + t2;
    assert kept == ["游戏"] + t3;
    JoinWordsCons("音乐", t1);
    JoinWordsCons("游戏", t2);
    JoinWordsCons("游戏", t3);
    assert JoinWords(t1) == "科技";
    SmallCorpusText();
  }

  lemma SmallCorpusText()
    ensures "游戏" + " " + ("游戏" + " " + ("音乐" + " " + "科技")) == "游戏 游戏 音乐 科技"
  {
  }
}
