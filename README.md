# jrshell command-line core, modelled in Dafny

jrshell is a minimal interactive shell written in C. It reads a line, splits
it into tokens, runs `exit` and `cd` itself, and otherwise forks a child. The
child moves stdout or stdin onto a file when the line holds a redirection
operator, and then runs the program with `execvp`. This project models the
string and argument-vector handling of `main.c`:

- `input.dfy`, module `Input`: the newline strip at the end of `getUserInput`.
- `argv.dfy`, module `ArgVector`: the `NULL`-terminated `char**` argument
  vector. Its slots are `Option<string>`, and `None` stands for `NULL`.
  `Command` reads the strings before the first `NULL`, as `execvp` does.
- `cstring.dfy`, module `CString`: `strcspn` with a single-character set, which
  both the newline strip and `strtok` use.
- `tokenizer.dfy`, module `Tokenizer`: `parseInput`. `strtok(…, " ")` is the
  step function `Strtok`, and `StrtokCall` is one call of it as the loop
  sees it. `ParseInput` is the source's `while` loop, and it fills a fresh `array<Option<string>>` of `MAX_ARGS + 1` slots. It is proved
  against `Parse(line, maxArgs)`, the first `min(k, maxArgs)` of the `k` words
  of the line. `Words` is the reference definition: the maximal runs of
  non-space characters, from left to right.
- `builtins.dfy`, module `Builtins`: `checkBuiltIns`, a pure classification
  of the first token.
- `redirection.dfy`, module `Redirection`: `handleRedirection`.
  `HandleRedirection` is the source's loop over the array. It cuts the array
  in place and returns the redirection as a `RedirectionSpec` (kind and
  target), without opening the file. `Redirect` states the same result as a
  value, and the lemmas about `Redirect` hold the properties. `ScanStop` is
  where the scan stops.
- `wrappers.dfy`, module `Wrappers`: the `Option` type.

A C string is modelled as the characters before its terminator.

Some of the code's behaviour is easy to misread; the model follows the code:

- Tokens are split on the space character only. Tabs and other whitespace are
  part of a token.
- A redirection operator with no token after it produces no "no file
  provided" diagnostic. The guards at main.c:91, 112 and 133 test `args[i]`,
  and that slot has just been compared with `strcmp`, so they never fire. The
  target is then the `NULL` sentinel (`None`), and it is handed to `fopen`.
- Empty lines are not discarded before dispatch. `main` calls
  `checkBuiltIns` on a line without tokens, where `args[0]` is `NULL`. The
  model makes a non-empty token sequence a precondition of `CheckBuiltIns`.
- `cd` without an argument passes `NULL` to `chdir` and still reports the
  command as handled.

## Model

| member | source | states |
|---|---|---|
| CString.Span | main.c:31 | `strcspn(s, [c])` is at most the length; `c` does not occur before it; `c` sits at it when it is inside the string |
| CString.SpanUnique | main.c:31 | the span is the only length meeting those three conditions |
| Input.StripNewline | main.c:31 | the stripped line is a prefix of the input, has no newline, and is followed in the input by a newline when it is shorter |
| Input.StripNewlineKeepsPlainLine | main.c:31 | a line without a newline is unchanged |
| Input.StripNewlineOfTypedLine | main.c:25-31 | text followed by a newline and anything else strips to exactly that text |
| Input.StripNewlineIdempotent | main.c:31 | stripping twice gives the same line as stripping once |
| ArgVector.Terminate | main.c:58-71 | laying out tokens gives one `Some` slot per token, in order, and then the `NULL` sentinel |
| ArgVector.Command | main.c:71 | definition: what a `NULL`-terminated `char**` denotes, the strings before the first `NULL`, as `execvp` (main.c:170) and the `free` loop (main.c:223) read it (its properties are `CommandOfTerminate`, `CommandOfCut`, `CommandPrefix` and `LaidOut`) |
| ArgVector.SentinelIndex | main.c:71 | every slot before the first `NULL` holds a string, and a `NULL` sits at that index when it is inside the argv |
| ArgVector.SentinelIndexUnique | main.c:71 | the first `NULL` is the only index meeting those conditions |
| ArgVector.CommandOfTerminate | main.c:71 | reading back a laid-out argv gives the tokens laid out |
| ArgVector.CommandOfCut | main.c:108 | writing `NULL` into slot `i` leaves the command holding the first `i` strings |
| ArgVector.CommandPrefix | main.c:71 | the slots after the sentinel do not change the command |
| ArgVector.LaidOut | main.c:58-71 | an array holding the tokens in order and then `NULL` starts with those tokens laid out, and its command is exactly those tokens |
| Tokenizer.SkipSpaces | main.c:51 | `strtok` skips only leading spaces: the result is a suffix of the input, everything removed is a space, and what remains does not start with one |
| Tokenizer.Strtok | main.c:51-69 | `strtok` returns a non-empty, space-free token with a shorter saved rest, or `NULL` with nothing saved |
| Tokenizer.TakeToken | main.c:51-69 | after the leading spaces, `strtok` returns a non-empty, space-free token with a shorter saved rest, or `NULL` with nothing saved; which token comes back is stated by `TakeTokenDeliversWords` |
| Tokenizer.Words | main.c:51-70 | definition: the maximal runs of non-space characters of the line, from left to right (its properties are the `Words…` lemmas below) |
| Tokenizer.WordsAreTokens | main.c:51-70 | every word of a line is non-empty and contains no space |
| Tokenizer.WordsSkipSpaces | main.c:51 | leading spaces produce no tokens |
| Tokenizer.WordsEmptyIffBlank | main.c:51-53 | a line has no words exactly when every character is a space |
| Tokenizer.WordsAtWordStart | main.c:51 | unfolding lemma: one step of the definition of `Words` on a line that starts with a non-space |
| Tokenizer.WordsAtSpace | main.c:51 | unfolding lemma: one step of the definition of `Words` on a line that starts with a space |
| Tokenizer.TakeTokenDeliversWords | main.c:51-69 | on a line that does not start with a space, the token taken followed by the words of the saved rest are exactly the line's words |
| Tokenizer.StrtokDeliversWords | main.c:51-69 | one `strtok` call returns the first word, and its saved position holds exactly the remaining words |
| Tokenizer.StrtokNullIffBlank | main.c:51-53 | `strtok` returns `NULL` exactly on a line made only of spaces |
| Tokenizer.WordsAppendAtSpace | main.c:51-70 | splitting a line at a space splits its words: runs of spaces count as one separator |
| Tokenizer.OneWord | main.c:51-70 | a non-empty space-free string is one token |
| Tokenizer.WordsOfJoin | main.c:51-70 | words joined with single spaces tokenize back to the same words |
| Tokenizer.Parse | main.c:51-56 | definition: the words of the line, cut to the first `maxArgs` when there are more (its properties are `ParseKeepsLeadingWords` and `ParseEmptyIffBlank`) |
| Tokenizer.ParseKeepsLeadingWords | main.c:51-70 | at most `maxArgs` tokens are kept, each non-empty and space-free; they are a prefix of the words; there are `min(k, maxArgs)` of them |
| Tokenizer.ParseEmptyIffBlank | main.c:51-53 | an empty or all-space line yields no tokens, and, for `maxArgs > 0` (as with `MAX_ARGS` = 20), any other line yields at least one |
| Tokenizer.ParseEchoExample | main.c:51-70 | `"echo a b"` yields `echo`, `a`, `b` |
| Tokenizer.ParseTabIsNotSeparator | main.c:51 | a tab is not a delimiter: `"ls\t-l"` is one token |
| Tokenizer.StrtokCall | main.c:51-69 | a `strtok` call delivers the words of its saved position in order, and that position shrinks while tokens remain |
| Tokenizer.StrtokStep | main.c:58-69 | on each turn of the loop the token stored is the next word, and the words after it are still to come |
| Tokenizer.LoopExit | main.c:53-57 | the loop ends either with the warning after `maxArgs` tokens while a word is left, or with no token left; the stored tokens are those `Parse` keeps, and the warning is given exactly when the line has more than `maxArgs` words |
| Tokenizer.ParseInput | main.c:36-74 | a fresh array of `maxArgs + 1` slots holds the kept tokens in order, with the `NULL` sentinel in slot `argCount`; its command is exactly the kept tokens; the warning is given exactly when the line has more than `maxArgs` words |
| Builtins.CheckBuiltIns | main.c:76-84 | `exit` exits with `EXIT_SUCCESS`; `cd` changes to `args[1]`, which is `NULL` when absent; every other first token is not a built-in; each holds in both directions |
| Builtins.SecondArg | main.c:80 | definition: `args[1]`, which is the second token or, with a single token, the `NULL` sentinel |
| Builtins.Handled | main.c:81-83 | definition: the `bool` returned when the shell does not exit, `true` for `cd` and `false` otherwise |
| Builtins.CdIsHandledWhateverChdirReturns | main.c:79-82 | `cd` returns `true` whatever `chdir` returned |
| Builtins.ExitIgnoresArguments | main.c:77-78 | `exit` ends the shell whatever tokens follow it |
| Builtins.CdWithoutArgumentPassesNull | main.c:79-80 | `cd` alone calls `chdir` with `NULL` |
| Redirection.KindOf | main.c:90-132 | definition: the kind of redirection the `strcmp` chain picks: `>` truncates, `>>` appends, `<` reads |
| Redirection.RedirectionSpec.Mode | main.c:95-137 | definition: the `fopen` mode for each kind, `w`, `a` or `r` |
| Redirection.RedirectionSpec.Stream | main.c:102-144 | definition: the stream `dup2` replaces, stdin for `<` and stdout for `>` and `>>` |
| Redirection.Redirect | main.c:86-156 | definition: `handleRedirection` as a value: at the scan's stopping point, an operator makes a redirection to the next slot and is overwritten with `NULL`; otherwise nothing changes (its properties are the lemmas below) |
| Redirection.ScanStop | main.c:88-154 | the scan passes only non-operator strings and stops at the first `NULL` or operator |
| Redirection.ScanStopUnique | main.c:88-154 | that stopping point is the only index meeting both conditions |
| Redirection.RedirectsIffOperatorPresent | main.c:88-155 | a redirection is made exactly when an operator is among the tokens; without one the argv is unchanged |
| Redirection.LeftmostOperatorActedOn | main.c:90-152 | at the leftmost operator `i`, slot `i` becomes `NULL` and no other slot changes; `>` gives mode `w` on stdout, `>>` mode `a` on stdout, `<` mode `r` on stdin; the target is slot `i+1` |
| Redirection.LaterOperatorsIgnored | main.c:108-109 | two argvs that agree up to the first operator and its target get the same redirection: later operators are ignored |
| Redirection.ProgramSeesTokensBeforeOperator | main.c:108 | after redirection the command is the tokens before the first operator, or all tokens when there is none |
| Redirection.TrailingOperatorHasNoTarget | main.c:90-95 | `cat >` gives a truncating redirection whose target is `NULL`: nothing reports a missing file |
| Redirection.HandleRedirection | main.c:86-156 | the returned redirection and the new array contents are those `Redirect` gives for the old contents |
## Left out

- `printDir` (main.c:8-16): it only writes the working directory and colour codes to the terminal.
- The `malloc`/`fgets` part of `getUserInput` (main.c:19-29): input and allocation. The model starts from the line `fgets` returned, so the `MAX_CHARS` bound on one read is not modelled.
- `executeArgs` (main.c:158-195): `fork`, `execvp`, `waitpid` and the decoding of the wait status are process control.
- `fopen`, `fileno`, `dup2` and `close` in `handleRedirection`, and the `exit(EXIT_FAILURE)` when they fail: these are file-descriptor effects. The model returns only the redirection that would be set up.
- The effects of `chdir` and `exit` in `checkBuiltIns`. The outcome names the call and its argument. The result of `chdir` is a parameter that the classification ignores.
- Allocation-failure branches and `free` bookkeeping (main.c:39-49, 59-67, 215-226): manual memory management. The `strdup` copies are plain string values.
- The `main` loop (main.c:197-230), the debug `printf("%d", i)` at main.c:89, and the text of the too-many-arguments warning. The warning is modelled by the `warned` result of `ParseInput`.
- Tokenizer.ParseInput: slots after the sentinel are left unconstrained, as in the source, where they are never written.
