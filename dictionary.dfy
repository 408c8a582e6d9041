/** The dictionary is newline-delimited text; the game splits it into lines the way the
    standard library's `lines` does: lines end at "\n" or "\r\n", and the last line
    needs no terminator. */
module Dictionary {

  /** Index of the first line feed in `s`, or |s| when there is none. */
  function LineEnd(s: string): (k: nat)
    ensures k <= |s|
    ensures forall j :: 0 <= j < k ==> s[j] != '\n'
    ensures k < |s| ==> s[k] == '\n'
  {
    if s == [] || s[0] == '\n' then 0 else 1 + LineEnd(s[1..])
  }

  /** A line that was terminated by "\r\n" loses its carriage return. */
  function StripCr(line: string): string
  {
    if line != [] && line[|line| - 1] == '\r' then line[..|line| - 1] else line
  }

  /** The lines of `text`, without their terminators. */
  function Lines(text: string): (ls: seq<string>)
    ensures forall k :: 0 <= k < |ls| ==> '\n' !in ls[k]
    decreases |text|
  {
    if text == [] then []
    else
      var k := LineEnd(text);
      if k == |text| then [text]
      else [StripCr(text[..k])] + Lines(text[k + 1..])
  }

  /** Each line followed by a line feed: the inverse of `Lines` for well-formed lines. */
  function Unlines(ls: seq<string>): string
  {
    if ls == [] then [] else ls[0] + "\n" + Unlines(ls[1..])
  }

  /** A line `Unlines` can encode so that `Lines` gives it back. */
  predicate PlainLine(line: string)
  {
    '\n' !in line && (line == [] || line[|line| - 1] != '\r')
  }

  /** One line per line feed, plus one for a last line left unterminated. */
  lemma {:induction false} LineCount(text: string)
    ensures |Lines(text)| == multiset(text)['\n'] + (if text != [] && text[|text| - 1] != '\n' then 1 else 0)
    decreases |text|
  {
    if text != [] {
      var k := LineEnd(text);
      if k == |text| {
        assert '\n' !in text;
      } else {
        var rest := text[k + 1..];
        assert text == text[..k] + "\n" + rest;
        assert '\n' !in text[..k];
        assert multiset(text)['\n'] == multiset(text[..k])['\n'] + 1 + multiset(rest)['\n'];
        LineCount(rest);
        if rest != [] {
          assert text[|text| - 1] == rest[|rest| - 1];
        }
      }
    }
  }

  /** A line feed after a line without one ends exactly that line. */
  lemma SplitAtFirstLineFeed(line: string, rest: string)
    requires '\n' !in line
    ensures Lines(line + "\n" + rest) == [StripCr(line)] + Lines(rest)
  {
    var text := line + "\n" + rest;
    var k := LineEnd(text);
    assert text[|line|] == '\n';
    assert forall j :: 0 <= j < |line| ==> text[j] == line[j];
    assert text[..k] == line;
    assert text[k + 1..] == rest;
  }

  /** Splitting the encoding of plain lines gives the lines back. */
  lemma {:induction false} LinesOfUnlines(ls: seq<string>)
    requires forall k :: 0 <= k < |ls| ==> PlainLine(ls[k])
    ensures Lines(Unlines(ls)) == ls
  {
    if ls != [] {
      assert PlainLine(ls[0]);
      SplitAtFirstLineFeed(ls[0], Unlines(ls[1..]));
      LinesOfUnlines(ls[1..]);
    }
  }

  /** Text without carriage returns whose last line is terminated is rebuilt from its lines. */
  lemma {:induction false} UnlinesOfLines(text: string)
    requires '\r' !in text
    requires text == [] || text[|text| - 1] == '\n'
    ensures Unlines(Lines(text)) == text
    decreases |text|
  {
    if text != [] {
      var k := LineEnd(text);
      var line, rest := text[..k], text[k + 1..];
      assert text == line + "\n" + rest;
      assert '\r' !in line && '\r' !in rest;
      SplitAtFirstLineFeed(line, rest);
      assert rest == [] || rest[|rest| - 1] == text[|text| - 1];
      UnlinesOfLines(rest);
    }
  }

  /** A dictionary holding a single unterminated word has that word as its only line. */
  lemma SingleWord(word: string)
    requires word != [] && '\n' !in word
    ensures Lines(word) == [word]
  {
  }
}
