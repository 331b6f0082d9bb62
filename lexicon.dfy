/** Building the word sets of `TextAnalyzer` from newline-delimited files: `_load_words` for a
    single sentiment list and `_load_stopwords` for every file of the stopword folder.

    Reading a file is not modelled byte by byte. A file is a `Source`: either it cannot be
    opened at all (`open` raises, which the loaders do not catch), or it can, and then each of
    the two encodings tried, UTF-8 first and ISO-8859-1 second, yields an `Attempt`: the lines
    the reader delivered and whether it reached the end of the file or stopped on a decode
    error. Lines delivered before a decode error have already been added to the set when the
    next encoding is tried, as in the source, where the set lives outside the encoding loop.
    CPython's ISO-8859-1 codec decodes every byte, so its attempt always completes there; an
    incomplete `latin1` attempt is allowed here as a generalisation. */
module Lexicon {
  import opened Text
  import opened Seqs

  datatype Encoding = Utf8 | Latin1

  /** The encodings tried, in order. */
  const Encodings: seq<Encoding> := [Utf8, Latin1]

  /** One read of a file under one encoding: the lines delivered, and `complete` when no
      decode error interrupted the read. */
  datatype Attempt = Attempt(lines: seq<string>, complete: bool)

  datatype Source = Unopenable | Readable(utf8: Attempt, latin1: Attempt) {
    function Read(e: Encoding): Attempt
      requires Readable?
    {
      match e
      case Utf8 => utf8
      case Latin1 => latin1
    }

    /** Some encoding reads the whole file. */
    predicate Decodable()
      requires Readable?
    {
      utf8.complete || latin1.complete
    }
  }

  /** `OpenFailed`: `open` raised (a missing file, a directory); `Undecodable`: the
      `ValueError` of `_load_words` when no encoding reads the file. */
  datatype LoadError = OpenFailed | Undecodable

  datatype Result<T> = Success(value: T) | Failure(error: LoadError)

  /** What a lexicon word looks like: non-empty, no whitespace at either end, lower-case. */
  predicate WellFormed(w: string) {
    w != [] && !IsSpace(w[0]) && !IsSpace(w[|w| - 1]) && Lower(w) == w
  }

  predicate AllWellFormed(words: set<string>) {
    forall w :: w in words ==> WellFormed(w)
  }

  /** The word one line contributes: the line stripped and lower-cased, unless it is blank. */
  function LineWord(line: string): set<string> {
    var t := Strip(line);
    if t == [] then {} else {Lower(t)}
  }

  /** The words a sequence of lines contributes, line after line. */
  function LineWords(lines: seq<string>): set<string> {
    Gather(LineWord, lines)
  }

  /** A word is in the set exactly when some non-blank line, stripped and lower-cased, is that word. */
  lemma LineWordsMembers(lines: seq<string>, w: string)
    ensures w in LineWords(lines) <==> exists k :: 0 <= k < |lines| && Strip(lines[k]) != [] && w == Lower(Strip(lines[k]))
  {
    GatherMembers(LineWord, lines, w);
  }

  /** Every word taken from a line is well formed. */
  lemma LineWordsWellFormed(lines: seq<string>)
    ensures AllWellFormed(LineWords(lines))
  {
    forall w | w in LineWords(lines) ensures WellFormed(w) {
      GatherMembers(LineWord, lines, w);
      var k :| 0 <= k < |lines| && w in LineWord(lines[k]);
      var t := Strip(lines[k]);
      StripSlice(lines[k]);
      LowerIsLowerCase(t);
    }
  }

  /** The words of two runs of lines are the words of each. */
  lemma LineWordsAppend(a: seq<string>, b: seq<string>)
    ensures LineWords(a + b) == LineWords(a) + LineWords(b)
  {
    GatherAppend(LineWord, a, b);
  }

  /** A blank line (empty or only whitespace) contributes nothing. */
  lemma BlankLineIgnored(lines: seq<string>, blank: string)
    requires AllSpace(blank)
    ensures LineWords(lines + [blank]) == LineWords(lines)
    ensures LineWords([blank] + lines) == LineWords(lines)
  {
    LineWordsAppend(lines, [blank]);
    LineWordsAppend([blank], lines);
    StripSlice(blank);
    assert [blank][..0] == [];
  }

  /** The words of a file read in full or in part: those of the UTF-8 read, and when that read
      stopped on a decode error, also those of the ISO-8859-1 read. */
  function FileWords(src: Source): set<string> {
    match src
    case Unopenable => {}
    case Readable(utf8, latin1) =>
      LineWords(utf8.lines) + (if utf8.complete then {} else LineWords(latin1.lines))
  }

  /** The outcome `_load_words` promises for one sentiment list. */
  function WordsOutcome(src: Source): Result<set<string>> {
    if src.Unopenable? then Failure(OpenFailed)
    else if src.Decodable() then Success(FileWords(src))
    else Failure(Undecodable)
  }

  /** The union of the words of every file of a folder. */
  function FolderWords(folder: seq<Source>): set<string> {
    Gather(FileWords, folder)
  }

  /** The outcome `_load_stopwords` promises: the union of all files, unless one cannot be opened. */
  function StopwordsOutcome(folder: seq<Source>): Result<set<string>> {
    if exists k :: 0 <= k < |folder| && folder[k].Unopenable? then Failure(OpenFailed)
    else Success(FolderWords(folder))
  }

  /** The inner loop of both loaders: add the stripped, lower-cased non-blank lines to `words`. */
  method AddLines(words: set<string>, lines: seq<string>) returns (r: set<string>)
    ensures r == words + LineWords(lines)
  {
    r := words;
    var i := 0;
    while i < |lines|
      invariant 0 <= i <= |lines|
      invariant r == words + LineWords(lines[..i])
    {
      var line := Strip(lines[i]);
      if line != [] {
        r := r + {Lower(line)};
      }
      assert lines[..i + 1][..i] == lines[..i];
      i := i + 1;
    }
    assert lines[..i] == lines;
  }

  /** The encoding loop of both loaders: try each encoding in turn, adding what each read
      delivers to `words`, and stop after the first read that reaches the end of the file. */
  method ReadFile(words: set<string>, src: Source) returns (r: set<string>, decoded: bool)
    requires src.Readable?
    ensures r == words + FileWords(src)
    ensures decoded == src.Decodable()
  {
    r := words;
    var i := 0;
    while i < |Encodings|
      invariant 0 <= i <= |Encodings|
      invariant i >= 1 ==> !src.utf8.complete
      invariant i == 0 ==> r == words
      invariant i == 1 ==> r == words + LineWords(src.utf8.lines)
      invariant i == 2 ==> !src.latin1.complete && r == words + FileWords(src)
    {
      var attempt := src.Read(Encodings[i]);
      assert attempt == if i == 0 then src.utf8 else src.latin1;
      r := AddLines(r, attempt.lines);
      if attempt.complete {
        return r, true;
      }
      i := i + 1;
    }
    decoded := false;
  }

  /** `_load_words`: the words of one list, or the error that ends the load. */
  method LoadWords(src: Source) returns (r: Result<set<string>>)
    ensures r == WordsOutcome(src)
  {
    if src.Unopenable? {
      return Failure(OpenFailed);
    }
    var words, decoded := ReadFile({}, src);
    assert words == FileWords(src);
    if decoded {
      r := Success(words);
    } else {
      r := Failure(Undecodable);
    }
  }

  /** `_load_stopwords`: merge every file of the folder into one set. A file that no encoding
      reads in full is kept for what was read; a file that cannot be opened ends the load. */
  method LoadStopwords(folder: seq<Source>) returns (r: Result<set<string>>)
    ensures r == StopwordsOutcome(folder)
  {
    var words: set<string> := {};
    var i := 0;
    while i < |folder|
      invariant 0 <= i <= |folder|
      invariant Unopenable !in folder[..i]
      invariant words == FolderWords(folder[..i])
    {
      var src := folder[i];
      if src.Unopenable? {
        assert folder[i].Unopenable?;
        return Failure(OpenFailed);
      }
      FolderWordsStep(folder, i);
      var decoded;
      words, decoded := ReadFile(words, src);
      i := i + 1;
    }
    assert folder[..i] == folder;
    AllOpenable(folder);
    r := Success(words);
  }

  /** With every file openable, the stopword load succeeds with the union. */
  lemma AllOpenable(folder: seq<Source>)
    requires Unopenable !in folder
    ensures StopwordsOutcome(folder) == Success(FolderWords(folder))
  {
    forall k | 0 <= k < |folder| ensures folder[k].Readable? {
      assert folder[k] in folder;
    }
  }

  lemma FolderWordsStep(folder: seq<Source>, i: nat)
    requires i < |folder|
    ensures folder[..i + 1] == folder[..i] + [folder[i]]
    ensures FolderWords(folder[..i + 1]) == FolderWords(folder[..i]) + FileWords(folder[i])
  {
    assert folder[..i + 1][..i] == folder[..i];
  }

  /** The stopword set is exactly the union of the files' words. */
  lemma FolderWordsUnion(folder: seq<Source>, w: string)
    ensures w in FolderWords(folder) <==> exists k :: 0 <= k < |folder| && w in FileWords(folder[k])
  {
    GatherMembers(FileWords, folder, w);
  }

  /** The stopword set does not depend on the order in which the folder lists its files. */
  lemma FolderWordsOrderFree(a: seq<Source>, b: seq<Source>)
    requires forall f :: f in a <==> f in b
    ensures FolderWords(a) == FolderWords(b)
  {
    GatherSameElements(FileWords, a, b);
  }

  /** Merging more files never removes a word already in the set. */
  lemma FolderWordsAppend(a: seq<Source>, b: seq<Source>)
    ensures FolderWords(a + b) == FolderWords(a) + FolderWords(b)
    ensures FolderWords(a) <= FolderWords(a + b)
  {
    GatherAppend(FileWords, a, b);
  }

  /** Every word of a stopword folder is well formed. */
  lemma FolderWordsWellFormed(folder: seq<Source>)
    ensures AllWellFormed(FolderWords(folder))
  {
    forall w | w in FolderWords(folder) ensures WellFormed(w) {
      GatherMembers(FileWords, folder, w);
      var k :| 0 <= k < |folder| && w in FileWords(folder[k]);
      FileWordsWellFormed(folder[k]);
    }
  }

  /** Every word a file contributes is well formed. */
  lemma FileWordsWellFormed(src: Source)
    ensures AllWellFormed(FileWords(src))
  {
    if src.Readable? {
      LineWordsWellFormed(src.utf8.lines);
      LineWordsWellFormed(src.latin1.lines);
    }
  }
}
