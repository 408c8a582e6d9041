/** The guess comparator: how a guessed word is judged against the secret word. */
module Guesses {
  import opened Errors

  /** Length every guess must have. */
  const WordLength: nat := 5

  /** Verdict on one guessed character. */
  datatype GuessChar = Absent | OutOfPlace | Correct

  /** The rule for one guessed character `c` that stands where the secret has `same`.
      Each character is judged on its own: a repeated letter is not matched against
      a single occurrence in the secret. */
  function Classify(word: string, c: char, same: char): GuessChar
  {
    if c == same then Correct
    else if c in word then OutOfPlace
    else Absent
  }

  /** Comparison of `guess` with the secret `word`, strict length policy.
      A guess that is not WordLength characters long is rejected before any comparison;
      otherwise guess and word are walked in lockstep, and a word that runs out before
      the guess does is reported as a too-long guess. */
  function Compare(word: string, guess: string): (r: Result<seq<GuessChar>>)
    ensures r == Err(GuessTooShort) <==> |guess| < WordLength
    ensures r == Err(GuessTooLong) <==>
              |guess| > WordLength || (|guess| == WordLength && |word| < WordLength)
    ensures r.Ok? <==> |guess| == WordLength <= |word|
    ensures r.Ok? ==> |r.value| == |guess|
    ensures r.Ok? ==> forall i :: 0 <= i < |guess| ==>
              (r.value[i] == Correct <==> guess[i] == word[i]) &&
              (r.value[i] == OutOfPlace <==> guess[i] != word[i] && guess[i] in word) &&
              (r.value[i] == Absent <==> guess[i] != word[i] && guess[i] !in word)
  {
    if |guess| < WordLength then Err(GuessTooShort)
    else if |guess| > WordLength then Err(GuessTooLong)
    else if |word| < |guess| then Err(GuessTooLong)
    else Ok(seq(|guess|, i requires 0 <= i < |guess| => Classify(word, guess[i], word[i])))
  }

  /** A walk that classified every character of an accepted guess produced `Compare`'s result. */
  lemma ComparisonOfWalk(word: string, guess: string, res: seq<GuessChar>)
    requires |guess| == WordLength <= |word|
    requires |res| == |guess|
    requires forall k :: 0 <= k < |guess| ==> res[k] == Classify(word, guess[k], word[k])
    ensures Compare(word, guess) == Ok(res)
  {
    assert res == Compare(word, guess).value;
  }

  /** Number of guessed characters the lockstep walk goes through (and so marks as used)
      before it returns: none for a guess of the wrong length, otherwise as many as the
      word supplies. */
  function Consumed(word: string, guess: string): (n: nat)
    ensures n <= |guess|
    ensures |guess| != WordLength ==> n == 0
    ensures Compare(word, guess).Ok? ==> n == |guess|
    ensures Compare(word, guess) == Err(GuessTooLong) && |guess| == WordLength ==> n == |word|
  {
    if |guess| != WordLength then 0
    else if |word| < |guess| then |word|
    else |guess|
  }

  /** Whether every character of a judged guess is `Correct` (the win test). */
  function AllCorrect(g: seq<GuessChar>): (b: bool)
    ensures b <==> forall i :: 0 <= i < |g| ==> g[i] == Correct
  {
    g == [] || (g[0] == Correct && AllCorrect(g[1..]))
  }

  /** A guess wins when it is accepted and every character is `Correct`. */
  predicate Wins(word: string, guess: string)
  {
    Compare(word, guess).Ok? && AllCorrect(Compare(word, guess).value)
  }

  /** A guess wins exactly when it spells the first WordLength characters of the secret. */
  lemma WinsIffSpellsWord(word: string, guess: string)
    ensures Wins(word, guess) <==> |word| >= WordLength && guess == word[..WordLength]
  {
  }

  /** The secret itself, when it has the right length, is the winning guess. */
  lemma WordWinsAgainstItself(word: string)
    requires |word| == WordLength
    ensures Compare(word, word) == Ok([Correct, Correct, Correct, Correct, Correct])
    ensures Wins(word, word)
  {
    var r := Compare(word, word).value;
    assert r == [r[0], r[1], r[2], r[3], r[4]];
  }

  /** Secret "fudge", guess "reads". */
  lemma FudgeReadsExample()
    ensures Compare("fudge", "reads") == Ok([Absent, OutOfPlace, Absent, OutOfPlace, Absent])
  {
    var word := "fudge";
    assert word == ['f', 'u', 'd', 'g', 'e'];
    var r := Compare(word, "reads").value;
    assert r == [r[0], r[1], r[2], r[3], r[4]];
    assert r[1] == OutOfPlace by { assert word[4] == 'e'; }
    assert r[3] == OutOfPlace by { assert word[2] == 'd'; }
  }

  /** Secret "fudge", guess "lodge". */
  lemma FudgeLodgeExample()
    ensures Compare("fudge", "lodge") == Ok([Absent, Absent, Correct, Correct, Correct])
  {
    var word := "fudge";
    assert word == ['f', 'u', 'd', 'g', 'e'];
    var r := Compare(word, "lodge").value;
    assert r == [r[0], r[1], r[2], r[3], r[4]];
  }

  /** Secret "sassy", guess "space": the second 's' of the secret does not make the
      guess's 's' out of place elsewhere, and 'a' is judged without consuming. */
  lemma DoublesExample()
    ensures Compare("sassy", "space") == Ok([Correct, Absent, OutOfPlace, Absent, Absent])
  {
    var word := "sassy";
    assert word == ['s', 'a', 's', 's', 'y'];
    var r := Compare(word, "space").value;
    assert r == [r[0], r[1], r[2], r[3], r[4]];
    assert r[2] == OutOfPlace by { assert word[1] == 'a'; }
  }

  /** Guesses of seven and three letters against "fudge" are rejected. */
  lemma OutOfBoundsExample()
    ensures Compare("fudge", "lodging") == Err(GuessTooLong)
    ensures Compare("fudge", "lol") == Err(GuessTooShort)
  {
  }
}
