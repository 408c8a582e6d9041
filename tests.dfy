/** The program's unit tests, replayed on the model: each method builds a game from a
    one-word dictionary and states the outcome the test expects. */
module GameTests {
  import opened Errors
  import opened Guesses
  import opened Commands
  import opened Dictionary
  import opened Games

  /** Secret "fudge": "reads" then "lodge" on the same game. */
  method TestWordle() returns (first: Result<seq<GuessChar>>, second: Result<seq<GuessChar>>)
    ensures first == Ok([Absent, OutOfPlace, Absent, OutOfPlace, Absent])
    ensures second == Ok([Absent, Absent, Correct, Correct, Correct])
  {
    SingleWord("fudge");
    var game := new Game.FromDict("fudge", 0);
    first := game.Guess("reads");
    second := game.Guess("lodge");
    FudgeReadsExample();
    FudgeLodgeExample();
  }

  /** Secret "sassy", guess "space": repeated letters are judged one by one. */
  method TestDoubles() returns (result: Result<seq<GuessChar>>)
    ensures result == Ok([Correct, Absent, OutOfPlace, Absent, Absent])
  {
    SingleWord("sassy");
    var game := new Game.FromDict("sassy", 0);
    result := game.Guess("space");
    DoublesExample();
  }

  /** Secret "fudge": a seven-letter and a three-letter guess are both errors. */
  method TestOutOfBounds() returns (long: Result<seq<GuessChar>>, short: Result<seq<GuessChar>>)
    ensures long == Err(GuessTooLong)
    ensures short == Err(GuessTooShort)
  {
    SingleWord("fudge");
    var game := new Game.FromDict("fudge", 0);
    long := game.Guess("lodging");
    short := game.Guess("lol");
  }

  /** Guessing the secret shows five `Correct` and ends the game. */
  method TestWinEndsGame() returns (resp: Response, going: bool)
    ensures resp == Shown([Correct, Correct, Correct, Correct, Correct], true)
    ensures !going
  {
    SingleWord("fudge");
    var game := new Game.FromDict("fudge", 0);
    WordWinsAgainstItself("fudge");
    resp := game.Eval(Guess("fudge"));
    going := game.keepGoing;
  }
}
