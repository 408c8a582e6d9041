# Wordler, modelled in Dafny

Wordler is a terminal word-guessing game. A secret word is drawn from a
newline-delimited dictionary, and the player types lines at a prompt until they
guess the word or type `/exit`. Each guess must be five characters long. The game
judges every guessed character as `Correct` (same character at the same position),
`OutOfPlace` (present somewhere in the secret) or `Absent`. Each character is judged
on its own: a repeated letter is not matched against a single occurrence in the
secret. The game keeps a map from characters to a "used" flag, and `/letters` lists
the letters not tried yet.

The project models the whole game core of `src/main.rs`:

- `errors.dfy` (`Errors`): the error kinds, a `Result` type and `retryable`.
- `guesses.dfy` (`Guesses`): the verdicts and the comparison `Compare` as a pure
  specification, the win test `AllCorrect`, and the program's test vectors.
- `commands.dfy` (`Commands`): the commands and `Command::from_str` as `Parse`.
- `text.dfy` (`Text`): trimming of an input line.
- `dictionary.dfy` (`Dictionary`): splitting the dictionary into lines.
- `used_letters.dfy` (`UsedLetters`): the used-letter map, how a guess flags it,
  and the in-place sort behind `/letters`.
- `games.dfy` (`Games`): the `Game` class with the fields `word`, `keepGoing` and
  `usedLetters`. Its methods `Guess`, `Letters`, `Eval`, `Turn` and `Repl` change or
  read them in place. Each method is proved against a value-level specification
  (`Compare`, `Marked`, `Apply`, `Next`, `Run`), and the lemmas beside them state the
  properties of the game loop.
- `tests.dfy` (`GameTests`): the program's unit tests replayed on the `Game` class.

Modelling choices:

- Strings are `seq<char>` and are assumed to be ASCII. The source checks a guess's
  byte length and then walks its characters; under this assumption the two agree.
- The random draw of a dictionary line becomes the constructor's `index` parameter,
  with `index < |Lines(dict)|`. On an empty dictionary the source panics when it draws
  from an empty range, before its `"fudge"` fallback could apply. So the fallback is
  unreachable and the model requires a non-empty dictionary.
- The secret is whatever dictionary line was drawn; the model does not assume it has
  five characters. The comparison walks guess and secret in lockstep. If the secret
  runs out first, the source returns `GuessTooLong`, after flagging the characters
  already walked (`src/main.rs:182`). `Compare` and `Consumed` state exactly this.
  With a five-letter secret the case cannot happen (`WordWinsAgainstItself`,
  `Compare`'s third `ensures`).
- The source's `Error` struct only wraps an `ErrorKind`, so the model uses the kind.
- What `eval` prints becomes the `Response` returned by `Eval` and `Turn`.
- The model follows the code of `src/main.rs` where other accounts of the game differ.
  Only the strict length policy exists: there is no out-of-bounds verdict. An empty
  dictionary is not given the fallback word. A guess can flag letters and still be
  rejected, when the secret is shorter than five characters.

## Model

| member | source | states |
|---|---|---|
| `Errors.Retryable` | src/main.rs:83-90 | only an I/O error is not retryable |
| `Guesses.Compare` | src/main.rs:166-202 | a guess shorter than 5 is `GuessTooShort` and a longer one `GuessTooLong`; a 5-character guess against a shorter secret is `GuessTooLong`; otherwise there is one verdict per guessed character, in order; entry i is `Correct` iff guess[i] == word[i], `OutOfPlace` iff it differs but occurs in the word, `Absent` iff it differs and does not occur |
| `Guesses.Consumed` | src/main.rs:176-199 | how many guessed characters the comparison walks, and so flags as used: none for a wrong-length guess, all of them for an accepted guess, and as many as the secret has when the secret runs out |
| `Guesses.AllCorrect` | src/main.rs:59-61 | the win test holds iff every verdict is `Correct` |
| `Guesses.WinsIffSpellsWord` | src/main.rs:184-185 | a guess is accepted with all verdicts `Correct` iff the secret has at least 5 characters and the guess equals its first 5 |
| `Guesses.WordWinsAgainstItself` | src/main.rs:184-185 | a 5-letter secret guessed as itself gives five `Correct` and wins |
| `Guesses.ComparisonOfWalk` | src/main.rs:174-201 | a walk that classified each character of an accepted guess in turn produced exactly `Compare`'s result |
| `Guesses.FudgeReadsExample` | src/main.rs:315-326 | secret "fudge", guess "reads" gives Absent, OutOfPlace, Absent, OutOfPlace, Absent |
| `Guesses.FudgeLodgeExample` | src/main.rs:327-338 | secret "fudge", guess "lodge" gives Absent, Absent, Correct, Correct, Correct |
| `Guesses.DoublesExample` | src/main.rs:341-357 | secret "sassy", guess "space" gives Correct, Absent, OutOfPlace, Absent, Absent: no duplicate consumption |
| `Guesses.OutOfBoundsExample` | src/main.rs:359-365 | secret "fudge": "lodging" is `GuessTooLong` and "lol" is `GuessTooShort` |
| `Commands.Parse` | src/main.rs:264-272 | "/help", "/letters" and "/exit" parse to their commands and nothing else does; any other line starting with '/' is `InvalidCommand`, which is retryable; every other line is a guess carrying the identical text |
| `Text.TrimStart` | src/main.rs:235 | drops exactly the leading whitespace: the result is a suffix, everything before it is whitespace, and it does not start with whitespace |
| `Text.TrimEnd` | src/main.rs:235 | drops exactly the trailing whitespace: the result is a prefix, everything after it is whitespace, and it does not end with whitespace |
| `Text.Trim` | src/main.rs:235 | the result is the slice of the line with only whitespace around it, and it neither starts nor ends with whitespace |
| `Text.TrimLeavesCleanLine` | src/main.rs:235 | a line without surrounding whitespace is unchanged |
| `Text.TrimIdempotent` | src/main.rs:235 | trimming twice equals trimming once |
| `Dictionary.LineEnd` | src/main.rs:279 | the index of the first line feed, or the length when there is none |
| `Dictionary.Lines` | src/main.rs:279 | no line of the dictionary contains a line feed |
| `Dictionary.LineCount` | src/main.rs:279-282 | the number of lines is the number of line feeds, plus one for an unterminated last line |
| `Dictionary.SplitAtFirstLineFeed` | src/main.rs:279 | the text up to the first line feed is the first line, with a carriage return before the line feed removed |
| `Dictionary.LinesOfUnlines` | src/main.rs:279 | splitting lines joined with line feeds gives the lines back |
| `Dictionary.UnlinesOfLines` | src/main.rs:279 | text without carriage returns that ends in a line feed is rebuilt from its lines |
| `Dictionary.SingleWord` | src/main.rs:313 | a dictionary of one unterminated word has that word as its only line |
| `UsedLetters.AlphabetIsLetters` | src/main.rs:14-17 | the letter table holds exactly the characters 'a' to 'z' |
| `UsedLetters.InitialLetters` | src/main.rs:289-292 | a new game's map has exactly the letters a-z as keys, all flagged unused |
| `UsedLetters.NewLetterMap` | src/main.rs:289-292 | inserting the 26 letters one at a time builds exactly the starting map |
| `UsedLetters.Marked` | src/main.rs:195-198 | after flagging a string: the keys are the old keys plus its characters; each of its characters maps to true; other entries keep their value; no flag goes from true to false |
| `UsedLetters.MarkedOneMore` | src/main.rs:195-198 | flagging one more character is one more map update that sets it to true, whether or not it was a key |
| `UsedLetters.UnusedAfterMarking` | src/main.rs:195-198 | flagging removes exactly the flagged characters from the untried letters |
| `UsedLetters.MarkingKeepsTracking` | src/main.rs:195-198 | flagging keeps the map's invariant: every letter tracked, and only letters can be unused |
| `UsedLetters.EqualEntriesCountTwice` | src/main.rs:160 | two equal entries make their character occur at least twice |
| `UsedLetters.SortedDistinctIsStrict` | src/main.rs:160 | a sorted sequence with no repeated character is strictly increasing |
| `UsedLetters.Swap` | src/main.rs:160 | exchanges two entries and keeps the multiset of entries |
| `UsedLetters.InsertIntoPrefix` | src/main.rs:160 | extends the sorted prefix by one entry, keeping the multiset of entries and the rest of the array |
| `UsedLetters.SortInPlace` | src/main.rs:160 | the array ends sorted and is a permutation of what it held |
| `Games.Apply` | src/main.rs:206-221 | a running game stops iff the command is `/exit` or a guess equal to the secret's first 5 characters, and a stopped game stays stopped; `/help` and `/letters` change nothing and `/exit` leaves the map alone; a guess flags exactly the characters it walks (`Marked` of the walked prefix), so no flag is cleared, other entries keep their value, a wrong-length guess changes nothing and an accepted guess flags all its characters; the map invariant is kept |
| `Games.Read` | src/main.rs:230-248 | the loop reads at most the lines it is given, and none once the game is over |
| `Games.NextStopsOnlyOnEndingLine` | src/main.rs:206-221 | one parsed line stops a running game iff it is `/exit` or a winning guess |
| `Games.RunStopsOnlyOnEndingLine` | src/main.rs:230-248 | every line before the last one read leaves the game going; the game is still going afterwards iff no line is `/exit` or a winning guess; when it stopped, the last line read was one of those; when it is still going, every line was read |
| `Games.UsedStaysUsed` | src/main.rs:195-198 | a flagged character stays flagged through any further input |
| `Games.RunMarksAcceptedGuesses` | src/main.rs:152-162 | after the loop, no character of any accepted guess it read is among the untried letters |
| `Games.RunKeepsTracking` | src/main.rs:289-292 | the map invariant (all 26 letters tracked, only letters unused) holds throughout the loop |
| `Games.Game.FromDict` | src/main.rs:277-299 | the secret is the chosen dictionary line, the game is running, and the map holds exactly a-z, all unused |
| `Games.Game.Letters` | src/main.rs:152-163 | returns the untried letters, each once, in strictly ascending order, all within a-z |
| `Games.Game.Guess` | src/main.rs:166-202 | returns `Compare(word, guess)` and flags exactly the walked characters, so a wrong-length guess leaves the map unchanged |
| `Games.Game.Eval` | src/main.rs:206-222 | the new state is `Apply` of the old one, and the response is the judged guess (with the win flag), the error, the help text, the sorted untried letters, or the exit |
| `Games.Game.Turn` | src/main.rs:234-243 | the input line is trimmed and parsed; a parsed command is evaluated; a parse error is reported, changes nothing and is never fatal |
| `Games.Game.Repl` | src/main.rs:226-251 | reads lines in order until the game is over or the lines run out; the final state is `Run` of the start state over the trimmed and parsed lines, and the count read is `Read` |
| `GameTests.TestWordle` | src/main.rs:312-339 | a game on "fudge" judges "reads" and then "lodge" as the test expects |
| `GameTests.TestDoubles` | src/main.rs:341-357 | a game on "sassy" judges "space" as the test expects |
| `GameTests.TestOutOfBounds` | src/main.rs:359-365 | a game on "fudge" rejects "lodging" as too long and "lol" as too short |
| `GameTests.TestWinEndsGame` | src/main.rs:206-214 | guessing the secret shows five `Correct` with the win flag and ends the game |

## Left out

- Terminal I/O in `repl`: printing the prompt, flushing, and reading stdin. `Repl` takes the lines already read as a sequence. So I/O errors, the only fatal errors, never arise in the model. The `break` on a fatal error is kept but cannot fire.
- End of input: when stdin is exhausted, the source reads an empty line again and again and reports `GuessTooShort` each time. The model's loop stops when its sequence of lines runs out.
- Trimming handles ASCII whitespace only, following the ASCII assumption. The source also trims other Unicode whitespace.
- The random draw (`thread_rng().gen_range`) becomes the constructor's `index` parameter.
- Everything printed: the help text, the joined letter list, the congratulation line, error messages, and the debug print of the secret. `Response` records what is shown but not its text. The `Display` implementations and their emoji glyphs are presentation only.
- `std::error::Error::source`: it is an unimplemented stub.
- The payload of an I/O error.
- The embedded dictionary `DICT`: it is a resource, not logic. `dict` is a parameter of the constructor.
- `HashMap` iteration order: `letters` sorts, and the model picks map keys in an arbitrary order before sorting.
- The byte length versus character count of non-ASCII text.
