/** The personal-pronoun count: `len(re.findall(r'\b(I|we|my|ours|us)\b', text, re.I))`.
    The regex is modelled for what it is: five alternatives tried in order at each position,
    each matched up to case and only as a whole word (`\b` on both sides), and the scan resumes
    after each match. Case folding and word characters are those of `Text`. */
module Pronouns {
  import opened Text

  /** The alternatives of the pattern in the order the regex tries them, lower-cased. */
  const Alternatives: seq<string> := ["i", "we", "my", "ours", "us"]

  /** Every alternative is a non-empty run of the letters a-z. */
  lemma AlternativesAreLetters()
    ensures forall i :: 0 <= i < |Alternatives| ==> |Alternatives[i]| >= 1
    ensures forall i, m :: 0 <= i < |Alternatives| && 0 <= m < |Alternatives[i]| ==> 'a' <= Alternatives[i][m] <= 'z'
  {
  }

  /** `alt` matches at `p` as a whole word: the text there is `alt` up to case, and neither the
      character before nor the character after is a word character. */
  predicate MatchesAt(text: string, p: nat, alt: string) {
    p + |alt| <= |text| && (forall m :: 0 <= m < |alt| ==> LowerChar(text[p + m]) == alt[m])
    && (p == 0 || !IsWordChar(text[p - 1]))
    && (p + |alt| == |text| || !IsWordChar(text[p + |alt|]))
  }

  /** Some alternative matches at `p`. */
  ghost predicate PronounAt(text: string, p: nat) {
    exists i :: 0 <= i < |Alternatives| && MatchesAt(text, p, Alternatives[i])
  }

  /** The alternative the regex picks at `p`, searching from the `k`-th: the first that
      matches, or `|Alternatives|` when none does. */
  function FirstMatch(text: string, p: nat, k: nat): (j: nat)
    requires k <= |Alternatives|
    ensures k <= j <= |Alternatives|
    ensures j < |Alternatives| ==> 1 <= |Alternatives[j]| && p + |Alternatives[j]| <= |text|
    ensures j < |Alternatives| ==> MatchesAt(text, p, Alternatives[j])
    ensures forall i :: k <= i < j ==> !MatchesAt(text, p, Alternatives[i])
    decreases |Alternatives| - k
  {
    if k == |Alternatives| then k
    else if MatchesAt(text, p, Alternatives[k]) then k
    else FirstMatch(text, p, k + 1)
  }

  /** The number of matches `re.findall` returns when its scan starts at `p`. */
  function FindAll(text: string, p: nat): (n: nat)
    requires p <= |text|
    ensures n <= |text| - p
    decreases |text| - p
  {
    if p == |text| then 0
    else
      var j := FirstMatch(text, p, 0);
      if j < |Alternatives| then
        1 + FindAll(text, p + |Alternatives[j]|)
      else
        FindAll(text, p + 1)
  }

  /** The positions from `p` on where a pronoun starts as a whole word. */
  ghost function Starts(text: string, p: nat): set<nat> {
    set q: nat | p <= q < |text| && PronounAt(text, q)
  }

  /** `len(re.findall(...))` on the whole text: the number of places where one of the five
      pronouns stands as a whole word, in any case, and never more than the text's length. */
  function PersonalPronouns(text: string): (n: nat)
    ensures n == |Starts(text, 0)|
    ensures n <= |text|
  {
    FindAllCounts(text, 0);
    FindAll(text, 0)
  }

  /** No pronoun starts inside a match: the character before it is a letter of the match. */
  lemma NoStartInside(text: string, p: nat, alt: string, q: nat)
    requires MatchesAt(text, p, alt)
    requires forall m :: 0 <= m < |alt| ==> 'a' <= alt[m] <= 'z'
    requires p < q < p + |alt|
    ensures !PronounAt(text, q)
  {
    var m := q - 1 - p;
    assert LowerChar(text[p + m]) == alt[m];
    assert IsWordChar(text[q - 1]);
  }

  /** After a match the pronoun starts from `p` are `p` and those from the end of the match. */
  lemma StartsAfterMatch(text: string, p: nat, alt: string)
    requires MatchesAt(text, p, alt) && |alt| >= 1
    requires forall m :: 0 <= m < |alt| ==> 'a' <= alt[m] <= 'z'
    requires PronounAt(text, p)
    ensures Starts(text, p) == {p} + Starts(text, p + |alt|)
    ensures p !in Starts(text, p + |alt|)
  {
    forall q | p < q < p + |alt| ensures !PronounAt(text, q) {
      NoStartInside(text, p, alt, q);
    }
  }

  /** The scan counts every whole-word pronoun from `p` on, once. */
  lemma {:induction false} FindAllCounts(text: string, p: nat)
    requires p <= |text|
    ensures FindAll(text, p) == |Starts(text, p)|
    decreases |text| - p
  {
    if p < |text| {
      var j := FirstMatch(text, p, 0);
      var next := if j < |Alternatives| then p + |Alternatives[j]| else p + 1;
      FindAllCounts(text, next);
      ScanStepCounts(text, p, next);
    } else {
      assert Starts(text, p) == {};
    }
  }

  /** If the scan counts the starts from where it resumes, it counts those from `p`. */
  lemma ScanStepCounts(text: string, p: nat, next: nat)
    requires p < |text|
    requires next == (var j := FirstMatch(text, p, 0); if j < |Alternatives| then p + |Alternatives[j]| else p + 1)
    requires next <= |text| && FindAll(text, next) == |Starts(text, next)|
    ensures FindAll(text, p) == |Starts(text, p)|
  {
    ScanStep(text, p);
    if FirstMatch(text, p, 0) < |Alternatives| {
      StartsAfterPick(text, p);
    } else {
      StartsAfterMiss(text, p);
    }
  }

  /** One step of the scan: a match is counted and skipped, a miss moves on by one character. */
  lemma ScanStep(text: string, p: nat)
    requires p < |text|
    ensures var j := FirstMatch(text, p, 0);
      if j < |Alternatives| then FindAll(text, p) == 1 + FindAll(text, p + |Alternatives[j]|)
      else FindAll(text, p) == FindAll(text, p + 1)
  {
  }

  /** Where an alternative matches, the next start after `p` is at the end of the match or later. */
  lemma StartsAfterPick(text: string, p: nat)
    requires p < |text| && FirstMatch(text, p, 0) < |Alternatives|
    ensures |Starts(text, p)| == 1 + |Starts(text, p + |Alternatives[FirstMatch(text, p, 0)]|)|
  {
    var alt := Alternatives[FirstMatch(text, p, 0)];
    assert forall m :: 0 <= m < |alt| ==> 'a' <= alt[m] <= 'z' by {
      AlternativesAreLetters();
    }
    assert PronounAt(text, p);
    CountAfterMatch(text, p, alt);
  }

  /** A match adds one start to those past its end. */
  lemma CountAfterMatch(text: string, p: nat, alt: string)
    requires MatchesAt(text, p, alt) && |alt| >= 1
    requires forall m :: 0 <= m < |alt| ==> 'a' <= alt[m] <= 'z'
    requires PronounAt(text, p)
    ensures |Starts(text, p)| == 1 + |Starts(text, p + |alt|)|
  {
    StartsAfterMatch(text, p, alt);
    var later := Starts(text, p + |alt|);
    assert |{p} + later| == 1 + |later| by {
      assert {p} + later == later + {p};
    }
  }

  /** Where no alternative matches, no pronoun starts. */
  lemma StartsAfterMiss(text: string, p: nat)
    requires p < |text|
    requires FirstMatch(text, p, 0) == |Alternatives|
    ensures Starts(text, p) == Starts(text, p + 1)
  {
    assert !PronounAt(text, p);
  }
}
