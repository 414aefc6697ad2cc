/**
 * The last step of reading a command line (main.c:31): the line that `fgets`
 * returned is cut at its first newline by writing the terminator at
 * `strcspn(userInput, "\n")`. A C string is modelled as the characters before
 * its terminator.
 */
module Input {
  import opened CString

  /** The line after `userInput[strcspn(userInput, "\n")] = 0`. */
  function StripNewline(line: string): (r: string)
    ensures r <= line
    ensures '\n' !in r
    ensures |r| < |line| ==> line[|r|] == '\n'
  {
    line[..Span(line, '\n')]
  }

  /** A line without a newline is left as it is. */
  lemma StripNewlineKeepsPlainLine(line: string)
    requires '\n' !in line
    ensures StripNewline(line) == line
  {
  }

  /** The line `fgets` hands back for a typed command, `text` followed by its newline, strips to `text`. */
  lemma StripNewlineOfTypedLine(text: string, rest: string)
    requires '\n' !in text
    ensures StripNewline(text + "\n" + rest) == text
  {
    var line := text + "\n" + rest;
    assert line[|text|] == '\n';
    assert line[..|text|] == text;
  }

  /** Stripping a second time changes nothing. */
  lemma StripNewlineIdempotent(line: string)
    ensures StripNewline(StripNewline(line)) == StripNewline(line)
  {
    StripNewlineKeepsPlainLine(StripNewline(line));
  }
}
