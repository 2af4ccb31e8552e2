/** Case folding used by the guess comparison: `String.prototype.toLowerCase`,
    restricted to ASCII letters (every character of the station catalog is ASCII). */
module Text {

  predicate IsUpper(c: char) {
    'A' <= c <= 'Z'
  }

  /** Lower-case one character: upper-case ASCII letters move to their lower-case
      counterpart, every other character is left alone. */
  function LowerChar(c: char): (r: char)
    ensures !IsUpper(r)
    ensures !IsUpper(c) ==> r == c
    ensures IsUpper(c) ==> 'a' <= r <= 'z' && r as int - c as int == 'a' as int - 'A' as int
  {
    if IsUpper(c) then (c as int - 'A' as int + 'a' as int) as char else c
  }

  /** Lower-case a whole string, character by character. */
  function Lower(s: string): (r: string)
    ensures |r| == |s|
    ensures forall i :: 0 <= i < |s| ==> r[i] == LowerChar(s[i])
  {
    if s == [] then [] else [LowerChar(s[0])] + Lower(s[1..])
  }

  /** The comparison `guess.toLowerCase() === name.toLowerCase()`: case is ignored,
      nothing is trimmed. */
  predicate IsMatch(guess: string, name: string) {
    Lower(guess) == Lower(name)
  }

  /** Lowering twice is lowering once. */
  lemma LowerIdempotent(s: string)
    ensures Lower(Lower(s)) == Lower(s)
  {
    var l := Lower(s);
    assert forall i :: 0 <= i < |l| ==> Lower(l)[i] == l[i];
  }

  /** A string is its own lower-case form exactly when it holds no upper-case letter. */
  lemma LowerFixedIff(s: string)
    ensures Lower(s) == s <==> forall i :: 0 <= i < |s| ==> !IsUpper(s[i])
  {
    if forall i :: 0 <= i < |s| ==> !IsUpper(s[i]) {
      assert forall i :: 0 <= i < |s| ==> Lower(s)[i] == s[i];
    }
  }

  /** Matching ignores case on either side ... */
  lemma MatchIgnoresCase(guess: string, name: string)
    ensures IsMatch(guess, name) <==> IsMatch(Lower(guess), name)
    ensures IsMatch(guess, name) <==> IsMatch(guess, Lower(name))
  {
    LowerIdempotent(guess);
    LowerIdempotent(name);
  }

  /** Two strings match exactly when they have the same length and agree at every
      position once each character is lower-cased. */
  lemma MatchIffCharwise(guess: string, name: string)
    ensures IsMatch(guess, name) <==>
      |guess| == |name| && forall i :: 0 <= i < |guess| ==> LowerChar(guess[i]) == LowerChar(name[i])
  {
    if |guess| == |name| && forall i :: 0 <= i < |guess| ==> LowerChar(guess[i]) == LowerChar(name[i]) {
      assert forall i :: 0 <= i < |guess| ==> Lower(guess)[i] == Lower(name)[i];
    }
  }

  /** ... but never whitespace or any other character: strings of different length
      never match, so a padded guess is always wrong. */
  lemma MatchNeedsEqualLength(guess: string, name: string)
    requires IsMatch(guess, name)
    ensures |guess| == |name|
  {
    assert |Lower(guess)| == |Lower(name)|;
  }
}
