/** Commands typed at the prompt, and how a trimmed input line is parsed into one. */
module Commands {
  import opened Errors

  /** A parsed input line: a guess carrying its text, or one of three meta-commands. */
  datatype Command = Guess(text: string) | Help | Letters | Exit

  /** Parses a (trimmed) input line. The three keywords are matched exactly; any other
      line starting with '/' is an invalid command; everything else is a guess. */
  function Parse(com: string): (r: Result<Command>)
    ensures r == Ok(Help) <==> com == "/help"
    ensures r == Ok(Letters) <==> com == "/letters"
    ensures r == Ok(Exit) <==> com == "/exit"
    ensures r.Err? <==>
              |com| > 0 && com[0] == '/' && com != "/help" && com != "/letters" && com != "/exit"
    ensures r.Err? ==> r.error == InvalidCommand && Retryable(r.error)
    ensures r.Ok? && r.value.Guess? <==> com == [] || com[0] != '/'
    ensures r.Ok? && r.value.Guess? ==> r.value.text == com
  {
    if com == "/help" then Ok(Help)
    else if com == "/letters" then Ok(Letters)
    else if com == "/exit" then Ok(Exit)
    else if |com| > 0 && com[0] == '/' then Err(InvalidCommand)
    else Ok(Guess(com))
  }
}
