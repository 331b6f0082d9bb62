/** `TextAnalyzer`: construction from the three word sources and `analyze`, the thirteen
    metrics of one text.

    The tokenizers are not modelled: `analyze` receives what `sent_tokenize(text)` and
    `word_tokenize(text)` returned, as sequences, beside the text itself (the pronoun count reads
    the raw text). The hyphenation dictionary is the analyzer's `inserted` function. The
    ratios are exact `real` arithmetic with the source's additive epsilon. */
module TextAnalyzer {
  import opened Text
  import opened Seqs
  import opened Lexicon
  import opened Syllables
  import opened Pronouns

  /** The analyzer's state once built: the three word sets and the hyphenation dictionary. */
  datatype Analyzer = Analyzer(positive: set<string>, negative: set<string>, stopwords: set<string>,
                               inserted: string -> string)
  {
    /** Every word of every set is non-empty, trimmed and lower-case. */
    predicate Valid() {
      AllWellFormed(positive) && AllWellFormed(negative) && AllWellFormed(stopwords)
    }
  }

  /** `TextAnalyzer(master_dict_folder, stopwords_folder)`: load the positive list, then the
      negative list, then the stopword folder; the first failure ends construction. */
  method NewAnalyzer(positiveSrc: Source, negativeSrc: Source, stopwordFolder: seq<Source>,
                     inserted: string -> string) returns (r: Result<Analyzer>)
    ensures r.Success? <==> WordsOutcome(positiveSrc).Success? && WordsOutcome(negativeSrc).Success?
                            && StopwordsOutcome(stopwordFolder).Success?
    ensures r.Failure? ==>
              r.error == (if WordsOutcome(positiveSrc).Failure? then WordsOutcome(positiveSrc).error
                          else if WordsOutcome(negativeSrc).Failure? then WordsOutcome(negativeSrc).error
                          else OpenFailed)
    ensures r.Success? ==> r.value.positive == FileWords(positiveSrc) && r.value.negative == FileWords(negativeSrc)
                           && r.value.stopwords == FolderWords(stopwordFolder) && r.value.inserted == inserted
    ensures r.Success? ==> r.value.Valid()
  {
    var positive := LoadWords(positiveSrc);
    if positive.Failure? {
      return Failure(positive.error);
    }
    var negative := LoadWords(negativeSrc);
    if negative.Failure? {
      return Failure(negative.error);
    }
    var stopwords := LoadStopwords(stopwordFolder);
    if stopwords.Failure? {
      return Failure(stopwords.error);
    }
    FileWordsWellFormed(positiveSrc);
    FileWordsWellFormed(negativeSrc);
    FolderWordsWellFormed(stopwordFolder);
    r := Success(Analyzer(positive.value, negative.value, stopwords.value, inserted));
  }

  /** The dictionary returned by `analyze`, one field per key, in the source's order. */
  datatype Metrics = Metrics(
    positiveScore: nat,
    negativeScore: nat,
    polarityScore: real,
    subjectivityScore: real,
    avgSentenceLength: real,
    percentageComplexWords: real,
    fogIndex: real,
    avgWordsPerSentence: real,
    complexWordCount: nat,
    wordCount: nat,
    syllablePerWord: real,
    personalPronouns: nat,
    avgWordLength: real)

  /** The 0.000001 added to every denominator. */
  const Epsilon: real := 0.000001

  /** `n / (d + 0.000001)`. */
  function Ratio(n: real, d: nat): real {
    n / (d as real + Epsilon)
  }

  /** `[w for w in tokens if w.isalpha()]`. */
  function AlphaWords(tokens: seq<string>): seq<string> {
    Filter(IsAlpha, tokens)
  }

  /** `[w for w in words if w.lower() not in stopwords]`. */
  function WithoutStopwords(stopwords: set<string>, words: seq<string>): seq<string> {
    Filter(w => Lower(w) !in stopwords, words)
  }

  /** `words_clean`. */
  function CleanWords(a: Analyzer, tokens: seq<string>): seq<string> {
    WithoutStopwords(a.stopwords, AlphaWords(tokens))
  }

  /** `sum(1 for w in words if w.lower() in lexicon)`. */
  function Score(lexicon: set<string>, words: seq<string>): nat {
    CountWhere(w => Lower(w) in lexicon, words)
  }

  /** `[w for w in words if count_syllables(w) > 2]`. */
  function ComplexWords(a: Analyzer, words: seq<string>): seq<string> {
    Filter(w => CountSyllables(a.inserted, w) > 2, words)
  }

  /** `sum(count_syllables(w) for w in words)`. */
  function SyllableTotal(a: Analyzer, words: seq<string>): nat {
    SumOf(w => CountSyllables(a.inserted, w), words)
  }

  /** `sum(len(w) for w in words)`. */
  function LetterTotal(words: seq<string>): nat {
    SumOf((w: string) => |w|, words)
  }

  /** `analyze(text)`, given the tokenizers' output for `text`. The two sentence-length
      metrics are one formula, the fog index is 0.4 times their sum with the share of complex
      words, and the pronoun count reads the raw text. */
  function Analyze(a: Analyzer, text: string, sentences: seq<string>, tokens: seq<string>): (m: Metrics)
    ensures m.wordCount == |CleanWords(a, tokens)|
    ensures m.avgSentenceLength == m.avgWordsPerSentence
    ensures m.fogIndex == 0.4 * (m.avgSentenceLength + m.percentageComplexWords)
    ensures m.personalPronouns == |Starts(text, 0)|
  {
    var clean := CleanWords(a, tokens);
    var positive := Score(a.positive, clean);
    var negative := Score(a.negative, clean);
    var complexCount := |ComplexWords(a, clean)|;
    var wordCount := |clean|;
    var avgSentenceLength := Ratio(wordCount as real, |sentences|);
    var percentageComplex := Ratio(complexCount as real, wordCount);
    Metrics(
      positiveScore := positive,
      negativeScore := negative,
      polarityScore := Polarity(positive, negative),
      subjectivityScore := Ratio((positive + negative) as real, wordCount),
      avgSentenceLength := avgSentenceLength,
      percentageComplexWords := percentageComplex,
      fogIndex := 0.4 * (avgSentenceLength + percentageComplex),
      avgWordsPerSentence := Ratio(wordCount as real, |sentences|),
      complexWordCount := complexCount,
      wordCount := wordCount,
      syllablePerWord := Ratio(SyllableTotal(a, clean) as real, wordCount),
      personalPronouns := PersonalPronouns(text),
      avgWordLength := Ratio(LetterTotal(clean) as real, wordCount))
  }

  /** `(positive_score - negative_score) / ((positive_score + negative_score) + 0.000001)`. */
  function Polarity(positive: nat, negative: nat): real {
    Ratio(positive as real - negative as real, positive + negative)
  }

  /** A ratio with a numerator that is not negative is not negative. */
  lemma RatioNonNegative(n: real, d: nat)
    requires 0.0 <= n
    ensures 0.0 <= Ratio(n, d)
  {
    var den := d as real + Epsilon;
    assert Ratio(n, d) * den == n;
    FactorNonNegative(Ratio(n, d), den);
  }

  /** A ratio of a count to a larger count stays in [0, 1); a zero numerator gives 0. */
  lemma RatioBounds(n: real, d: nat)
    requires 0.0 <= n <= d as real
    ensures 0.0 <= Ratio(n, d) < 1.0
    ensures n == 0.0 ==> Ratio(n, d) == 0.0
  {
    QuotientBounds(n, d as real + Epsilon);
  }

  /** A larger numerator gives no smaller ratio. */
  lemma RatioMonotone(n: real, n': real, d: nat)
    requires n <= n'
    ensures Ratio(n, d) <= Ratio(n', d)
  {
    var den := d as real + Epsilon;
    var q, q' := Ratio(n, d), Ratio(n', d);
    assert q * den == n && q' * den == n';
    var gap := q' - q;
    assert gap * den == n' - n;
    FactorNonNegative(gap, den);
  }

  /** The polarity lies strictly between -1 and 1, and it is 0 when both scores are equal. */
  lemma PolarityBounds(positive: nat, negative: nat)
    ensures -1.0 < Polarity(positive, negative) < 1.0
    ensures positive == negative ==> Polarity(positive, negative) == 0.0
  {
    QuotientBounds(positive as real - negative as real, (positive + negative) as real + Epsilon);
  }

  /** A quotient whose numerator is smaller in size than its positive denominator lies in (-1, 1). */
  lemma QuotientBounds(a: real, den: real)
    requires 0.0 < den && -den < a < den
    ensures -1.0 < a / den < 1.0
    ensures a == 0.0 ==> a / den == 0.0
  {
    var q := a / den;
    assert q * den == a;
    var below, above := 1.0 - q, 1.0 + q;
    assert below * den == den - a;
    assert above * den == den + a;
    FactorPositive(below, den);
    FactorPositive(above, den);
  }

  lemma FactorPositive(x: real, y: real)
    requires 0.0 < y && 0.0 < x * y
    ensures 0.0 < x
  {
  }

  lemma FactorNonNegative(x: real, y: real)
    requires 0.0 < y && 0.0 <= x * y
    ensures 0.0 <= x
  {
  }

  /** `words_clean` keeps the alphabetic tokens, in order, that are not stopwords up to case;
      the alphabetic tokens in turn keep the raw tokens, in order, that are words of letters. */
  lemma CleanWordsFacts(a: Analyzer, tokens: seq<string>)
    ensures IsSubseq(CleanWords(a, tokens), AlphaWords(tokens))
    ensures IsSubseq(AlphaWords(tokens), tokens)
    ensures IsSubseq(CleanWords(a, tokens), tokens)
    ensures |CleanWords(a, tokens)| <= |AlphaWords(tokens)| <= |tokens|
    ensures forall k :: 0 <= k < |CleanWords(a, tokens)| ==>
              IsAlpha(CleanWords(a, tokens)[k]) && Lower(CleanWords(a, tokens)[k]) !in a.stopwords
    ensures forall k :: 0 <= k < |tokens| && IsAlpha(tokens[k]) && Lower(tokens[k]) !in a.stopwords ==>
              tokens[k] in CleanWords(a, tokens)
  {
    var notStop := (w: string) => Lower(w) !in a.stopwords;
    var both := (w: string) => IsAlpha(w) && Lower(w) !in a.stopwords;
    FilterIsSubseq(notStop, AlphaWords(tokens));
    FilterIsSubseq(IsAlpha, tokens);
    FilterFilter(IsAlpha, notStop, both, tokens);
    FilterIsSubseq(both, tokens);
  }

  /** The counts of one text: each score and the complex-word count are at most the word count,
      which is at most the number of tokens. */
  lemma AnalyzeCounts(a: Analyzer, text: string, sentences: seq<string>, tokens: seq<string>)
    ensures var m := Analyze(a, text, sentences, tokens);
      && m.wordCount <= |tokens|
      && m.positiveScore == |Filter(w => Lower(w) in a.positive, CleanWords(a, tokens))| <= m.wordCount
      && m.negativeScore == |Filter(w => Lower(w) in a.negative, CleanWords(a, tokens))| <= m.wordCount
      && m.complexWordCount <= m.wordCount
  {
    var clean := CleanWords(a, tokens);
    CleanWordsFacts(a, tokens);
    CountIsFilterLength(w => Lower(w) in a.positive, clean);
    CountIsFilterLength(w => Lower(w) in a.negative, clean);
  }

  /** The ratios of one text: the share of complex words is in [0, 1), the polarity in (-1, 1),
      and subjectivity and sentence length are not negative. */
  lemma AnalyzeRatios(a: Analyzer, text: string, sentences: seq<string>, tokens: seq<string>)
    ensures var m := Analyze(a, text, sentences, tokens);
      && 0.0 <= m.percentageComplexWords < 1.0
      && -1.0 < m.polarityScore < 1.0
      && 0.0 <= m.subjectivityScore
      && 0.0 <= m.avgSentenceLength
      && 0.0 <= m.fogIndex
  {
    var m := Analyze(a, text, sentences, tokens);
    AnalyzeCounts(a, text, sentences, tokens);
    assert m.percentageComplexWords == Ratio(m.complexWordCount as real, m.wordCount);
    RatioBounds(m.complexWordCount as real, m.wordCount);
    assert m.polarityScore == Polarity(m.positiveScore, m.negativeScore);
    PolarityBounds(m.positiveScore, m.negativeScore);
    assert m.subjectivityScore == Ratio((m.positiveScore + m.negativeScore) as real, m.wordCount);
    RatioNonNegative((m.positiveScore + m.negativeScore) as real, m.wordCount);
    assert m.avgSentenceLength == Ratio(m.wordCount as real, |sentences|);
    RatioNonNegative(m.wordCount as real, |sentences|);
  }

  /** A text whose clean words are all filtered away scores 0 everywhere but in the pronoun
      count: every numerator is a sum over no words, and every denominator is at least epsilon. */
  lemma AnalyzeNoCleanWords(a: Analyzer, text: string, sentences: seq<string>, tokens: seq<string>)
    requires CleanWords(a, tokens) == []
    ensures var m := Analyze(a, text, sentences, tokens);
      && m.wordCount == 0 && m.positiveScore == 0 && m.negativeScore == 0 && m.complexWordCount == 0
      && m.polarityScore == 0.0 && m.subjectivityScore == 0.0 && m.percentageComplexWords == 0.0
      && m.avgSentenceLength == 0.0 && m.avgWordsPerSentence == 0.0 && m.fogIndex == 0.0
      && m.syllablePerWord == 0.0 && m.avgWordLength == 0.0
  {
    var m := Analyze(a, text, sentences, tokens);
    assert m.polarityScore == Polarity(0, 0);
    PolarityBounds(0, 0);
  }

  /** The empty text with no tokens gives the all-zero record. */
  lemma AnalyzeEmptyText(a: Analyzer, sentences: seq<string>)
    ensures Analyze(a, "", sentences, []) == Metrics(0, 0, 0.0, 0.0, 0.0, 0.0, 0.0, 0.0, 0, 0, 0.0, 0, 0.0)
  {
    AnalyzeNoCleanWords(a, "", sentences, []);
    assert Starts("", 0) == {};
  }

  /** With disjoint sentiment lists no word scores twice, so subjectivity stays below 1. */
  lemma SubjectivityBelowOne(a: Analyzer, text: string, sentences: seq<string>, tokens: seq<string>)
    requires a.positive !! a.negative
    ensures 0.0 <= Analyze(a, text, sentences, tokens).subjectivityScore < 1.0
  {
    var m := Analyze(a, text, sentences, tokens);
    var clean := CleanWords(a, tokens);
    CountDisjoint(w => Lower(w) in a.positive, w => Lower(w) in a.negative, clean);
    assert m.subjectivityScore == Ratio((m.positiveScore + m.negativeScore) as real, m.wordCount);
    RatioBounds((m.positiveScore + m.negativeScore) as real, m.wordCount);
  }

  /** A complex word is one whose hyphenation has at least two hyphens. */
  lemma ComplexWordsHaveTwoHyphens(a: Analyzer, text: string, sentences: seq<string>, tokens: seq<string>)
    ensures Analyze(a, text, sentences, tokens).complexWordCount ==
            |Filter(w => Hyphens(a.inserted(w)) >= 2, CleanWords(a, tokens))|
  {
    var clean := CleanWords(a, tokens);
    forall k | 0 <= k < |clean| ensures (CountSyllables(a.inserted, clean[k]) > 2) == (Hyphens(a.inserted(clean[k])) >= 2) {
      ComplexIffTwoHyphens(a.inserted, clean[k]);
    }
    FilterAgreeing(w => CountSyllables(a.inserted, w) > 2, w => Hyphens(a.inserted(w)) >= 2, clean);
  }

  /** Adding stopwords only removes clean words: what remains is a subsequence of what was
      left before, so the word count cannot grow. */
  lemma MoreStopwordsFewerWords(a: Analyzer, extra: set<string>, tokens: seq<string>)
    ensures IsSubseq(CleanWords(a.(stopwords := a.stopwords + extra), tokens), CleanWords(a, tokens))
    ensures |CleanWords(a.(stopwords := a.stopwords + extra), tokens)| <= |CleanWords(a, tokens)|
  {
    var b := a.(stopwords := a.stopwords + extra);
    FilterStricter(w => Lower(w) !in a.stopwords, w => Lower(w) !in b.stopwords, AlphaWords(tokens));
    SubseqLength(CleanWords(b, tokens), CleanWords(a, tokens));
  }

  /** Every clean word has at least one syllable and at least one letter, so both per-word
      averages are at least `word_count / (word_count + 0.000001)`. */
  lemma PerWordAveragesAtLeastShare(a: Analyzer, text: string, sentences: seq<string>, tokens: seq<string>)
    ensures var m := Analyze(a, text, sentences, tokens);
      && m.syllablePerWord >= Ratio(m.wordCount as real, m.wordCount)
      && m.avgWordLength >= Ratio(m.wordCount as real, m.wordCount)
  {
    var m := Analyze(a, text, sentences, tokens);
    var clean := CleanWords(a, tokens);
    CleanWordsFacts(a, tokens);
    SyllableTotalAtLeast(a, clean);
    LetterTotalAtLeast(clean);
    assert m.syllablePerWord == Ratio(SyllableTotal(a, clean) as real, m.wordCount);
    assert m.avgWordLength == Ratio(LetterTotal(clean) as real, m.wordCount);
    RatioMonotone(m.wordCount as real, SyllableTotal(a, clean) as real, m.wordCount);
    RatioMonotone(m.wordCount as real, LetterTotal(clean) as real, m.wordCount);
  }

  /** Every word has at least one syllable. */
  lemma SyllableTotalAtLeast(a: Analyzer, words: seq<string>)
    ensures SyllableTotal(a, words) >= |words|
  {
    SumAtLeastLength(w => CountSyllables(a.inserted, w), words);
  }

  /** Every alphabetic word has at least one letter. */
  lemma LetterTotalAtLeast(words: seq<string>)
    requires forall k :: 0 <= k < |words| ==> IsAlpha(words[k])
    ensures LetterTotal(words) >= |words|
  {
    SumAtLeastLength((w: string) => |w|, words);
  }
}
