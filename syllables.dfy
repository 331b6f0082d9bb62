/** `count_syllables`: the hyphenation dictionary marks the syllable boundaries of a word with
    '-', and the count is the number of marks plus one, never below one. The dictionary itself
    (`pyphen.Pyphen(lang='en').inserted`) is a parameter: any function from a word to its
    hyphen-inserted form. */
module Syllables {

  /** `h.count('-')`. */
  function Hyphens(h: string): nat {
    if h == [] then 0 else (if h[0] == '-' then 1 else 0) + Hyphens(h[1..])
  }

  /** `h.split('-')`: the pieces between the hyphens, empty pieces included. */
  function Pieces(h: string): (r: seq<string>)
    ensures |r| >= 1
  {
    if h == [] then [[]]
    else
      var rest := Pieces(h[1..]);
      if h[0] == '-' then [[]] + rest else [[h[0]] + rest[0]] + rest[1..]
  }

  /** `'-'.join(parts)`. */
  function Joined(parts: seq<string>): string
    requires |parts| >= 1
  {
    if |parts| == 1 then parts[0] else parts[0] + "-" + Joined(parts[1..])
  }

  /** One more piece than hyphens, and no piece holds a hyphen. */
  lemma {:induction false} PiecesCount(h: string)
    ensures |Pieces(h)| == Hyphens(h) + 1
    ensures forall k :: 0 <= k < |Pieces(h)| ==> '-' !in Pieces(h)[k]
  {
    if h != [] {
      PiecesCount(h[1..]);
    }
  }

  /** Joining the pieces with hyphens gives back the hyphenated string. */
  lemma {:induction false} JoinedPieces(h: string)
    ensures Joined(Pieces(h)) == h
  {
    if h != [] {
      JoinedPieces(h[1..]);
      var rest := Pieces(h[1..]);
      if h[0] == '-' {
        assert ([[]] + rest)[1..] == rest;
        assert h == [] + "-" + h[1..];
      } else {
        var p := [[h[0]] + rest[0]] + rest[1..];
        if |rest| == 1 {
          assert h == [h[0]] + rest[0];
        } else {
          assert p[1..] == rest[1..];
          assert Joined(rest) == rest[0] + "-" + Joined(rest[1..]);
        }
      }
    }
  }

  /** `count_syllables(word)`: `max(1, hyphens.count('-') + 1)` where `hyphens` is the word
      with its syllable boundaries marked. It is the number of hyphen-separated pieces. */
  function CountSyllables(inserted: string -> string, word: string): (n: nat)
    ensures n >= 1
    ensures n == |Pieces(inserted(word))|
  {
    var k := Hyphens(inserted(word)) + 1;
    PiecesCount(inserted(word));
    if 1 < k then k else 1
  }

  /** The clamp to one never applies: the count is the number of hyphens plus one. So a word
      is complex (more than two syllables) exactly when its hyphenation has at least two
      hyphens, and a word the dictionary leaves unmarked has one syllable. */
  lemma ComplexIffTwoHyphens(inserted: string -> string, word: string)
    ensures CountSyllables(inserted, word) == Hyphens(inserted(word)) + 1
    ensures CountSyllables(inserted, word) > 2 <==> Hyphens(inserted(word)) >= 2
    ensures Hyphens(inserted(word)) == 0 ==> CountSyllables(inserted, word) == 1
  {
  }
}
