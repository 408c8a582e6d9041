/** A game session: the secret word, the keep-going flag and the used-letter map,
    updated in place by guesses and commands. */
module Games {
  import opened Errors
  import opened Guesses
  import opened Commands
  import opened Dictionary
  import opened UsedLetters
  import Text

  /** What evaluating a command shows the player (the text and glyphs are not modelled). */
  datatype Response =
    | Shown(outcome: seq<GuessChar>, won: bool)
    | Reported(error: ErrorKind)
    | HelpText
    | UntriedLetters(letters: string)
    | Quit

  /** The part of a game that commands change, as a value. */
  datatype Snapshot = Snapshot(keepGoing: bool, usedLetters: map<char, bool>)

  /** The state after evaluating `cmd`: a guess flags the characters the comparison walked
      through and ends the game when it wins; `/exit` ends the game; `/help` and
      `/letters` change nothing. */
  function Apply(word: string, before: Snapshot, cmd: Command): (after: Snapshot)
    ensures after.keepGoing ==> before.keepGoing
    ensures before.keepGoing ==>
              (!after.keepGoing <==>
                 cmd == Exit || (cmd.Guess? && |word| >= WordLength && cmd.text == word[..WordLength]))
    ensures forall c :: c in before.usedLetters && before.usedLetters[c] ==>
              c in after.usedLetters && after.usedLetters[c]
    ensures cmd.Guess? && |cmd.text| != WordLength ==> after == before
    ensures cmd.Guess? && Compare(word, cmd.text).Ok? ==>
              forall c :: c in cmd.text ==> c in after.usedLetters && after.usedLetters[c]
    ensures Tracks(before.usedLetters) ==> Tracks(after.usedLetters)
    ensures cmd == Help || cmd == Letters ==> after == before
    ensures cmd == Exit ==> after.usedLetters == before.usedLetters
    ensures cmd.Guess? ==>
              after.usedLetters == Marked(before.usedLetters, cmd.text[..Consumed(word, cmd.text)])
  {
    match cmd
    case Guess(g) =>
      WinsIffSpellsWord(word, g);
      MarkingKeepsTracking(before.usedLetters, g[..Consumed(word, g)]);
      Snapshot(before.keepGoing && !Wins(word, g), Marked(before.usedLetters, g[..Consumed(word, g)]))
    case Help => before
    case Letters => before
    case Exit => Snapshot(false, before.usedLetters)
  }

  /** `letters` lists, in ascending order and once each, the untried letters of `used`. */
  ghost predicate ListsUnused(letters: string, used: map<char, bool>)
  {
    StrictlyIncreasing(letters) && forall c :: c in letters <==> c in Unused(used)
  }

  /** What evaluating `cmd` in state `before` shows. */
  ghost predicate Answers(word: string, before: Snapshot, cmd: Command, resp: Response)
  {
    match cmd
    case Guess(g) =>
      var r := Compare(word, g);
      resp == if r.Ok? then Shown(r.value, AllCorrect(r.value)) else Reported(r.error)
    case Help => resp == HelpText
    case Letters => resp.UntriedLetters? && ListsUnused(resp.letters, before.usedLetters)
    case Exit => resp == Quit
  }

  /** The state after one parsed input line; a line that did not parse is reported and
      changes nothing. */
  function Next(word: string, before: Snapshot, input: Result<Command>): Snapshot
  {
    match input
    case Ok(cmd) => Apply(word, before, cmd)
    case Err(_) => before
  }

  /** Each input line, trimmed and parsed, as the loop sees it. */
  function Inputs(lines: seq<string>): seq<Result<Command>>
  {
    seq(|lines|, k requires 0 <= k < |lines| => Parse(Text.Trim(lines[k])))
  }

  /** Whether a parsed line ends the game: `/exit` or a winning guess. */
  predicate Ends(word: string, input: Result<Command>)
  {
    input == Ok(Exit) || (input.Ok? && input.value.Guess? && Wins(word, input.value.text))
  }

  /** The state after the loop has processed `inputs`, stopping once the game is over. */
  function Run(word: string, s: Snapshot, inputs: seq<Result<Command>>): Snapshot
    decreases |inputs|
  {
    if inputs == [] || !s.keepGoing then s
    else Run(word, Next(word, s, inputs[0]), inputs[1..])
  }

  /** How many of `inputs` the loop reads before the game is over. */
  function Read(word: string, s: Snapshot, inputs: seq<Result<Command>>): (n: nat)
    ensures n <= |inputs|
    ensures n > 0 ==> s.keepGoing
    decreases |inputs|
  {
    if inputs == [] || !s.keepGoing then 0
    else 1 + Read(word, Next(word, s, inputs[0]), inputs[1..])
  }

  /** One line stops a running game exactly when it ends it. */
  lemma NextStopsOnlyOnEndingLine(word: string, s: Snapshot, input: Result<Command>)
    requires s.keepGoing
    ensures Next(word, s, input).keepGoing <==> !Ends(word, input)
  {
  }

  /** The loop reads lines until one of them ends the game: every line but the last read
      one leaves the game going, and it stops early only on an ending line. */
  lemma {:induction false} RunStopsOnlyOnEndingLine(word: string, s: Snapshot, inputs: seq<Result<Command>>)
    requires s.keepGoing
    ensures forall k :: 0 <= k < Read(word, s, inputs) - 1 ==> !Ends(word, inputs[k])
    ensures Run(word, s, inputs).keepGoing <==> forall k :: 0 <= k < |inputs| ==> !Ends(word, inputs[k])
    ensures !Run(word, s, inputs).keepGoing ==> Ends(word, inputs[Read(word, s, inputs) - 1])
    ensures Run(word, s, inputs).keepGoing ==> Read(word, s, inputs) == |inputs|
    decreases |inputs|
  {
    if inputs != [] {
      var next := Next(word, s, inputs[0]);
      NextStopsOnlyOnEndingLine(word, s, inputs[0]);
      if next.keepGoing {
        RunStopsOnlyOnEndingLine(word, next, inputs[1..]);
        assert forall k :: 1 <= k < |inputs| ==> inputs[k] == inputs[1..][k - 1];
      }
    }
  }

  /** A character flagged as used stays flagged through the loop. */
  lemma {:induction false} UsedStaysUsed(word: string, s: Snapshot, inputs: seq<Result<Command>>, g: string)
    requires forall c :: c in g ==> c in s.usedLetters && s.usedLetters[c]
    ensures forall c :: c in g ==> c in Run(word, s, inputs).usedLetters && Run(word, s, inputs).usedLetters[c]
    decreases |inputs|
  {
    if inputs != [] && s.keepGoing {
      UsedStaysUsed(word, Next(word, s, inputs[0]), inputs[1..], g);
    }
  }

  /** After the loop, no letter of any accepted guess it read is listed as untried. */
  lemma {:induction false} RunMarksAcceptedGuesses(word: string, s: Snapshot, inputs: seq<Result<Command>>,
                                                   k: nat, g: string)
    requires k < Read(word, s, inputs)
    requires inputs[k] == Ok(Guess(g)) && Compare(word, g).Ok?
    ensures forall c :: c in g ==> c !in Unused(Run(word, s, inputs).usedLetters)
    decreases |inputs|
  {
    var next := Next(word, s, inputs[0]);
    if k == 0 {
      UsedStaysUsed(word, next, inputs[1..], g);
    } else {
      assert inputs[1..][k - 1] == inputs[k];
      RunMarksAcceptedGuesses(word, next, inputs[1..], k - 1, g);
    }
  }

  /** The loop keeps the used-letter invariant. */
  lemma {:induction false} RunKeepsTracking(word: string, s: Snapshot, inputs: seq<Result<Command>>)
    requires Tracks(s.usedLetters)
    ensures Tracks(Run(word, s, inputs).usedLetters)
    decreases |inputs|
  {
    if inputs != [] && s.keepGoing {
      RunKeepsTracking(word, Next(word, s, inputs[0]), inputs[1..]);
    }
  }

  class Game {
    /** The secret word. */
    const word: string
    /** Whether the loop reads another line. */
    var keepGoing: bool
    /** For every character seen, whether it has been guessed. */
    var usedLetters: map<char, bool>

    ghost predicate Valid()
      reads this
    {
      Tracks(usedLetters)
    }

    function Snap(): Snapshot
      reads this
    {
      Snapshot(keepGoing, usedLetters)
    }

    /** A new game on line `index` of `dict` (the index stands for the random draw). */
    constructor FromDict(dict: string, index: nat)
      requires index < |Lines(dict)|
      ensures Valid()
      ensures word == Lines(dict)[index]
      ensures keepGoing
      ensures usedLetters == InitialLetters()
    {
      var words := Lines(dict);
      var letters := NewLetterMap();
      word := words[index];
      keepGoing := true;
      usedLetters := letters;
    }

    /** The untried letters, sorted: collected from the map, then sorted in place. */
    method Letters() returns (unused: string)
      requires Valid()
      ensures ListsUnused(unused, usedLetters)
      ensures forall c :: c in unused ==> IsLetter(c)
    {
      var collected: string := [];
      var rest := usedLetters.Keys;
      while rest != {}
        invariant rest <= usedLetters.Keys
        invariant multiset(collected) == multiset(Unused(usedLetters) - rest)
        decreases rest
      {
        var c :| c in rest;
        if !usedLetters[c] {
          assert Unused(usedLetters) - (rest - {c}) == (Unused(usedLetters) - rest) + {c};
          collected := collected + [c];
        } else {
          assert Unused(usedLetters) - (rest - {c}) == Unused(usedLetters) - rest;
        }
        rest := rest - {c};
      }
      var a := new char[|collected|](k requires 0 <= k < |collected| => collected[k]);
      assert a[..] == collected;
      SortInPlace(a);
      unused := a[..];
      assert multiset(unused) == multiset(Unused(usedLetters));
      forall c
        ensures c in unused <==> c in Unused(usedLetters)
      {
        assert c in unused <==> c in multiset(unused);
      }
      SortedDistinctIsStrict(unused);
    }

    /** Judges `guess` against the secret word, flagging each walked character as used. */
    method Guess(guess: string) returns (r: Result<seq<GuessChar>>)
      requires Valid()
      modifies this`usedLetters
      ensures Valid()
      ensures r == Compare(word, guess)
      ensures usedLetters == Marked(old(usedLetters), guess[..Consumed(word, guess)])
    {
      if |guess| < WordLength {
        return Err(GuessTooShort);
      }
      if |guess| > WordLength {
        return Err(GuessTooLong);
      }
      var res: seq<GuessChar> := [];
      var i := 0;
      while i < |guess|
        invariant i <= |guess| && i <= |word|
        invariant |res| == i
        invariant forall k :: 0 <= k < i ==> res[k] == Classify(word, guess[k], word[k])
        invariant usedLetters == Marked(old(usedLetters), guess[..i])
      {
        var c := guess[i];
        if i == |word| {
          MarkingKeepsTracking(old(usedLetters), guess[..i]);
          return Err(GuessTooLong);
        }
        var samePos := word[i];
        if c == samePos {
          res := res + [Correct];
        } else if c in word {
          res := res + [OutOfPlace];
        } else {
          res := res + [Absent];
        }
        assert guess[..i + 1] == guess[..i] + [c];
        MarkedOneMore(old(usedLetters), guess[..i], c);
        usedLetters := usedLetters[c := true];
        i := i + 1;
      }
      assert guess[..i] == guess;
      MarkingKeepsTracking(old(usedLetters), guess);
      ComparisonOfWalk(word, guess, res);
      return Ok(res);
    }

    /** Evaluates a parsed command. */
    method Eval(cmd: Command) returns (resp: Response)
      requires Valid()
      modifies this`keepGoing, this`usedLetters
      ensures Valid()
      ensures Snap() == Apply(word, old(Snap()), cmd)
      ensures Answers(word, old(Snap()), cmd, resp)
    {
      match cmd
      case Guess(g) =>
        var r := this.Guess(g);
        if r.Ok? {
          resp := Shown(r.value, AllCorrect(r.value));
          if AllCorrect(r.value) {
            keepGoing := false;
          }
        } else {
          resp := Reported(r.error);
        }
      case Help =>
        resp := HelpText;
      case Letters =>
        var unused := this.Letters();
        resp := UntriedLetters(unused);
      case Exit =>
        keepGoing := false;
        resp := Quit;
    }

    /** One turn of the loop on an input line already read: trim, parse, evaluate or
        report. `fatal` tells the loop to stop because the error is not retryable. */
    method Turn(line: string) returns (resp: Response, fatal: bool)
      requires Valid()
      modifies this`keepGoing, this`usedLetters
      ensures Valid()
      ensures Snap() == Next(word, old(Snap()), Parse(Text.Trim(line)))
      ensures Parse(Text.Trim(line)).Ok? ==> Answers(word, old(Snap()), Parse(Text.Trim(line)).value, resp)
      ensures Parse(Text.Trim(line)).Err? ==> resp == Reported(InvalidCommand)
      ensures !fatal
    {
      var input := Text.Trim(line);
      var parsed := Parse(input);
      match parsed
      case Ok(cmd) =>
        resp := Eval(cmd);
        fatal := false;
      case Err(e) =>
        resp := Reported(e);
        fatal := !Retryable(e);
    }

    /** The loop over the lines of input, in order, until the game is over or the input
        runs out. Returns how many lines it read. */
    method Repl(lines: seq<string>) returns (consumed: nat)
      requires Valid()
      modifies this`keepGoing, this`usedLetters
      ensures Valid()
      ensures Snap() == Run(word, old(Snap()), Inputs(lines))
      ensures consumed == Read(word, old(Snap()), Inputs(lines))
    {
      consumed := 0;
      while keepGoing && consumed < |lines|
        invariant consumed <= |lines|
        invariant Valid()
        invariant Run(word, old(Snap()), Inputs(lines)) == Run(word, Snap(), Inputs(lines)[consumed..])
        invariant Read(word, old(Snap()), Inputs(lines)) == consumed + Read(word, Snap(), Inputs(lines)[consumed..])
        decreases |lines| - consumed
      {
        var _, fatal := Turn(lines[consumed]);
        assert Inputs(lines)[consumed..][1..] == Inputs(lines)[consumed + 1..];
        consumed := consumed + 1;
        if fatal {
          break;
        }
      }
    }
  }
}
