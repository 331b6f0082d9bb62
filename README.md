# Text analyzer metrics, modelled in Dafny

This project models `TextAnalyzer`, the metrics engine of the article-analysis script
`text_analysis.py.py` (lines 45-124). It covers:

- the construction of the analyzer from a positive word list, a negative word list and a
  folder of stopword lists (`__init__`, `_load_words`, `_load_stopwords`);
- the syllable count of a word (`count_syllables`);
- `analyze`, which turns one text into thirteen metrics. The metrics are:
  - the positive and negative scores, polarity and subjectivity;
  - the average sentence length, the share of complex words, the fog index and the average
    number of words per sentence;
  - the complex-word and word counts;
  - syllables per word, the personal-pronoun count and the average word length.

The model follows the source's form:

- The two loaders are imperative methods (`Lexicon.AddLines`, `Lexicon.ReadFile`,
  `Lexicon.LoadWords`, `Lexicon.LoadStopwords`). Their `while` loops add lines into a set step
  by step. Each is proved against a function of its input (`LineWords`, `FileWords`,
  `WordsOutcome`, `StopwordsOutcome`). Lemmas then prove what the source promises about those
  functions.
- `count_syllables` and `analyze` are comprehensions, sums and arithmetic. They are pure
  functions (`Syllables.CountSyllables`, `TextAnalyzer.Analyze`) over a generic layer
  (`Seqs.Filter`, `Seqs.CountWhere`, `Seqs.SumOf`).
- The regular expression `\b(I|we|my|ours|us)\b` under `re.I`, as `re.findall` runs it, is
  modelled in `Pronouns`. The five alternatives are tried in order at each position, each must
  stand as a whole word, and the scan resumes after each match. `Pronouns.FindAllCounts`
  proves that this scan counts every position where a pronoun starts as a whole word, once.

Inputs the model takes rather than computes:

- The nltk tokenizers are not modelled. `Analyze` receives the output of `sent_tokenize(text)`
  and `word_tokenize(text)` as sequences, beside the raw text, which the pronoun regex reads.
- The pyphen dictionary is the analyzer's `inserted` field: any function from a word to its
  hyphen-inserted form.
- A file is a `Lexicon.Source`. Either it cannot be opened (`open` raises), or it can, and then
  each of the two encodings, UTF-8 and ISO-8859-1, yields an `Attempt`. An attempt holds the
  lines the reader delivered and whether it reached the end of the file.

Ratios are exact `real` arithmetic with the source's additive epsilon `0.000001`
(`TextAnalyzer.Epsilon`).

Behaviour of the code that the model keeps as written:

- The word set of `_load_words` is created outside the encoding loop. So the lines read under
  UTF-8 before a decode error stay in the set when ISO-8859-1 is tried (`Lexicon.FileWords`).
- `_load_stopwords` does not skip a file that no encoding reads in full. The lines read from it
  stay in the set.
- CPython's ISO-8859-1 codec decodes every byte, so once a file opens the second read always
  completes. The `ValueError` of `_load_words` (line 64) and the partly read stopword file
  above therefore cannot arise in the source. The model lets an ISO-8859-1 attempt stop short
  anyway (`Lexicon.Attempt`), so `Undecodable` and the kept partial lines exist only in the
  model's generality; every result proved holds with or without them.
- `_load_stopwords` does not catch the error of a file that cannot be opened, such as a
  sub-directory of the folder. That error ends construction (`Lexicon.StopwordsOutcome`).
- `max(1, hyphens.count('-') + 1)` never clamps, because a count is never negative.
  `Syllables.ComplexIffTwoHyphens` proves that the result is always the number of hyphens
  plus one.

Character classes follow Python's `str` methods and the `re` module, and are exact for code
points up to U+00FF (`Text`):

- `str.isspace`: the full list of Python whitespace characters;
- `str.isalpha` and the word characters of `\b`;
- `str.lower`: A-Z and À-Þ except ×.

## Model

| member | source | states |
|---|---|---|
| Text.LowerChar | text_analysis.py.py:60 | lower-casing one character leaves no upper-case letter and keeps whether it is whitespace and whether it is a letter |
| Text.Lower | text_analysis.py.py:60 | `s.lower()` keeps the length and maps each character on its own |
| Text.LowerIsLowerCase | text_analysis.py.py:60 | a lower-cased string has no upper-case letter, and lower-casing twice is lower-casing once |
| Text.LowerKeepsNoUpper | text_analysis.py.py:60 | a string is unchanged by lower-casing exactly when it has no upper-case letter |
| Text.TrimKeepsSlice | text_analysis.py.py:58 | trimming a character class keeps a contiguous slice and drops only characters of the class at either end |
| Text.TrimEnds | text_analysis.py.py:58 | what trimming keeps neither starts nor ends with the class, and is empty exactly when every character is of the class |
| Text.StripSlice | text_analysis.py.py:58 | `line.strip()` is a contiguous slice of the line, what it drops at each end is whitespace, its ends are not whitespace, and it is empty exactly when the line is all whitespace |
| Lexicon.LineWordsMembers | text_analysis.py.py:57-60 | a word is added exactly when some non-blank line, stripped and lower-cased, is that word |
| Lexicon.LineWordsWellFormed | text_analysis.py.py:57-60 | every added word is non-empty, has no whitespace at either end and is lower-case |
| Lexicon.LineWordsAppend | text_analysis.py.py:57-60 | the words of two runs of lines are the union of the words of each |
| Lexicon.BlankLineIgnored | text_analysis.py.py:58-59 | a blank or all-whitespace line, first or last, contributes nothing |
| Lexicon.AddLines | text_analysis.py.py:57-60 | the line loop adds to the set exactly the stripped, lower-cased non-blank lines |
| Lexicon.ReadFile | text_analysis.py.py:54-63 | the encoding loop adds the UTF-8 lines and, when that read stops on a decode error, the ISO-8859-1 lines; it reports success exactly when some encoding reads the whole file |
| Lexicon.LoadWords | text_analysis.py.py:52-64 | `_load_words` fails when the file cannot be opened, raises `ValueError` when no encoding reads it (a case CPython's ISO-8859-1 codec never produces), and otherwise returns the file's words |
| Lexicon.LoadStopwords | text_analysis.py.py:66-81 | `_load_stopwords` returns the union of the words of all files, and fails only when some file cannot be opened |
| Lexicon.AllOpenable | text_analysis.py.py:66-81 | when every file of the folder can be opened, `_load_stopwords` returns the union of their words |
| Lexicon.FolderWordsUnion | text_analysis.py.py:68-81 | a word is a stopword exactly when some file of the folder contributes it |
| Lexicon.FolderWordsOrderFree | text_analysis.py.py:69 | the stopword set does not depend on the order `os.listdir` gives |
| Lexicon.FolderWordsAppend | text_analysis.py.py:69-81 | merging more files gives the union and never removes a word already in the set |
| Lexicon.FileWordsWellFormed | text_analysis.py.py:54-63 | every word one file contributes is well formed |
| Lexicon.FolderWordsWellFormed | text_analysis.py.py:71-77 | every stopword is non-empty, trimmed and lower-case |
| Seqs.Filter | text_analysis.py.py:89 | a comprehension with a condition is no longer than its input, keeps only elements meeting the condition, and keeps every such element |
| Seqs.FilterIsSubseq | text_analysis.py.py:89-90 | a comprehension with a condition keeps its elements in order |
| Seqs.FilterFilter | text_analysis.py.py:89-90 | two comprehensions in a row are one comprehension by both conditions |
| Seqs.FilterAgreeing | text_analysis.py.py:98 | conditions that agree on every element keep the same elements |
| Seqs.FilterStricter | text_analysis.py.py:90 | a stricter condition keeps a subsequence of what a looser one keeps |
| Seqs.SubseqLength | text_analysis.py.py:103 | a subsequence is no longer than its sequence |
| Seqs.CountIsFilterLength | text_analysis.py.py:92-93 | `sum(1 for x in s if p(x))` is the length of `[x for x in s if p(x)]` |
| Seqs.CountDisjoint | text_analysis.py.py:95 | two counts of conditions that never hold together add up to at most the length |
| Seqs.SumAtLeastLength | text_analysis.py.py:104-108 | a sum of terms that are each at least 1 is at least the number of terms |
| Seqs.GatherMembers | text_analysis.py.py:68-77 | an element is in the merged set exactly when some element of the input contributes it |
| Seqs.GatherAppend | text_analysis.py.py:68-77 | merging two runs gives the union of the two merges |
| Seqs.GatherSameElements | text_analysis.py.py:69 | the merged set depends only on which elements occur, not on their order or repetition |
| Syllables.PiecesCount | text_analysis.py.py:85 | splitting on '-' gives one more piece than there are hyphens, none holding a hyphen |
| Syllables.JoinedPieces | text_analysis.py.py:85 | joining the pieces with '-' gives back the hyphenated string |
| Syllables.CountSyllables | text_analysis.py.py:83-85 | the syllable count is at least 1 and is the number of hyphen-separated pieces of the hyphenated word |
| Syllables.ComplexIffTwoHyphens | text_analysis.py.py:85 | the count is the number of hyphens plus one, above 2 exactly when there are at least two hyphens, and 1 for an unmarked word |
| Pronouns.AlternativesAreLetters | text_analysis.py.py:106 | the five alternatives are non-empty runs of the letters a-z |
| Pronouns.FirstMatch | text_analysis.py.py:106 | the index picked names an alternative that matches at the position as a whole word, and no alternative tried before it matches; the index past the last means none matches |
| Pronouns.StartsAfterMiss | text_analysis.py.py:106 | where no alternative matches, no pronoun starts there |
| Pronouns.FindAll | text_analysis.py.py:106 | the scan from a position finds at most as many matches as there are characters left |
| Pronouns.NoStartInside | text_analysis.py.py:106 | no pronoun starts as a whole word inside a match |
| Pronouns.StartsAfterMatch | text_analysis.py.py:106 | after a match, the starts from the match are the match and the starts past its end |
| Pronouns.FindAllCounts | text_analysis.py.py:106 | `re.findall` counts every position where one of the pronouns stands as a whole word, in any case, once |
| Pronouns.PersonalPronouns | text_analysis.py.py:106-107 | `personal_pronouns` is the number of whole-word pronoun starts and at most the length of the text |
| TextAnalyzer.NewAnalyzer | text_analysis.py.py:46-49 | construction succeeds exactly when all three loads do, fails with the first load's error otherwise, holds the loaded sets, and every word in them is well formed |
| TextAnalyzer.Analyze | text_analysis.py.py:87-124 | the word count is the length of `words_clean`, the two sentence-length metrics are equal, the fog index is 0.4 times the sentence length plus the share of complex words, and the pronoun count is the number of whole-word pronouns |
| TextAnalyzer.RatioNonNegative | text_analysis.py.py:95-108 | a ratio with a non-negative numerator is not negative |
| TextAnalyzer.RatioBounds | text_analysis.py.py:99 | a count over a larger count plus epsilon lies in [0, 1), and is 0 for a zero numerator |
| TextAnalyzer.RatioMonotone | text_analysis.py.py:104-108 | a larger numerator gives no smaller ratio |
| TextAnalyzer.PolarityBounds | text_analysis.py.py:94 | the polarity lies strictly between -1 and 1 and is 0 when both scores are equal |
| TextAnalyzer.CleanWordsFacts | text_analysis.py.py:89-90 | `words_clean` is a subsequence of the alphabetic tokens, which are a subsequence of the tokens; every clean word is alphabetic and not a stopword up to case; every such token is kept |
| TextAnalyzer.AnalyzeCounts | text_analysis.py.py:92-103 | the word count is at most the number of tokens; each score counts the clean words whose lower-case form is in its lexicon and is at most the word count; the complex-word count is at most the word count |
| TextAnalyzer.ComplexWordsHaveTwoHyphens | text_analysis.py.py:98-102 | the complex-word count is the number of clean words whose hyphenation has at least two hyphens |
| TextAnalyzer.AnalyzeRatios | text_analysis.py.py:94-101 | the share of complex words lies in [0, 1), the polarity in (-1, 1), and subjectivity, sentence length and fog index are not negative |
| TextAnalyzer.SubjectivityBelowOne | text_analysis.py.py:92-95 | with disjoint positive and negative lists the subjectivity lies in [0, 1) |
| TextAnalyzer.AnalyzeNoCleanWords | text_analysis.py.py:92-108 | when no clean word is left every count other than the pronoun count, the polarity and every ratio are 0 |
| TextAnalyzer.AnalyzeEmptyText | text_analysis.py.py:87-124 | the empty text with no tokens gives thirteen zeros |
| TextAnalyzer.MoreStopwordsFewerWords | text_analysis.py.py:90 | adding stopwords leaves a subsequence of the clean words, so the word count cannot grow |
| TextAnalyzer.SyllableTotalAtLeast | text_analysis.py.py:104 | the syllable total of the clean words is at least their number |
| TextAnalyzer.LetterTotalAtLeast | text_analysis.py.py:108 | the letter total of alphabetic words is at least their number |
| TextAnalyzer.PerWordAveragesAtLeastShare | text_analysis.py.py:104-108 | syllables per word and average word length are at least `word_count / (word_count + 0.000001)` |

## Left out

- `ArticleScraper` (browser automation over the network), `FileHandler.save_article` (file
  writing) and `main` (spreadsheet input and output and fixed paths) are glue around external
  systems. They are not part of this model.
- `sent_tokenize` and `word_tokenize` are third-party code. Their results are inputs of
  `TextAnalyzer.Analyze`, which relies on no property of theirs.
- The pyphen dictionary is third-party code. It is the function `inserted` of the analyzer.
- Listing the stopword folder is not modelled: the folder is given as the sequence of its
  files, so a folder that `os.listdir` cannot read has no counterpart.
- Decoding bytes under UTF-8 and ISO-8859-1 and the `UnicodeDecodeError` that drives the retry
  are abstract. Each read is given as the lines it delivered and whether it completed.
- Text.IsLetter: `str.isalpha` beyond U+00FF (Greek, Cyrillic, CJK and so on) is not modelled.
  No such character counts as a letter, because the Unicode database is not part of this model.
- Text.IsWordChar: the word characters of `\b` beyond U+00FF are not modelled, for the same
  reason.
- Text.LowerChar: lower-casing beyond U+00FF is not modelled, for the same reason. That
  includes characters whose lower-case form is longer, such as İ.
- Pronouns.MatchesAt: the case folding of `re.I` is modelled as `str.lower`. The extra
  `re.I` equivalences of ı, İ and ſ with i and s, and of K (the Kelvin sign) with k, are not.
- The metrics are exact real numbers, not IEEE doubles, so rounding is not modelled.
- The record `analyze` returns is a Python dictionary with string keys. The model uses a
  datatype with one field per key, in the same order.
- Concurrency and the iteration order of Python sets play no part in any result, and are not
  modelled.
