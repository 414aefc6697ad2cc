/**
 * `checkBuiltIns` (main.c:76-84): the first token decides whether the shell
 * handles the command itself. The effects of `exit` and `chdir` are not
 * modelled; the outcome says which of them the source performs, and with
 * which argument.
 */
module Builtins {
  import opened Wrappers

  /** `EXIT_SUCCESS` from stdlib.h. */
  const EXIT_SUCCESS: int := 0

  datatype BuiltinOutcome =
    | Exit(status: int)                  // `exit(status)`: the shell process ends, nothing is returned
    | ChangeDir(target: Option<string>)  // `chdir(args[1])` was called and `true` is returned
    | NotBuiltin                         // `false` is returned: the command is to be executed

  /** `args[1]`: the second token, or the `NULL` sentinel when there is only one. */
  function SecondArg(args: seq<string>): Option<string> {
    if |args| > 1 then Some(args[1]) else None
  }

  /**
   * `checkBuiltIns(args)`, where `args` are the tokens before the sentinel and
   * `chdirResult` is what `chdir` returns; the source does not look at it.
   * `args[0]` must exist: the source compares it with `strcmp`.
   */
  function CheckBuiltIns(args: seq<string>, chdirResult: int): (o: BuiltinOutcome)
    requires |args| > 0
    ensures o.Exit? <==> args[0] == "exit"
    ensures o.Exit? ==> o.status == EXIT_SUCCESS
    ensures o.ChangeDir? <==> args[0] == "cd"
    ensures o.ChangeDir? ==> o.target == SecondArg(args)
    ensures o.NotBuiltin? <==> args[0] != "exit" && args[0] != "cd"
  {
    if args[0] == "exit" then Exit(EXIT_SUCCESS)
    else if args[0] == "cd" then ChangeDir(SecondArg(args))
    else NotBuiltin
  }

  /** The `bool` that `checkBuiltIns` returns when it returns at all. */
  function Handled(o: BuiltinOutcome): bool
    requires !o.Exit?
  {
    o.ChangeDir?
  }

  /** `cd` reports "handled" whatever `chdir` returned, and its outcome does not depend on it. */
  lemma CdIsHandledWhateverChdirReturns(args: seq<string>, r1: int, r2: int)
    requires |args| > 0 && args[0] == "cd"
    ensures Handled(CheckBuiltIns(args, r1))
    ensures CheckBuiltIns(args, r1) == CheckBuiltIns(args, r2)
  {
  }

  /** Only the first token counts: `exit` ends the shell whatever follows it. */
  lemma ExitIgnoresArguments(args: seq<string>, chdirResult: int)
    requires |args| > 0 && args[0] == "exit"
    ensures CheckBuiltIns(args, chdirResult) == CheckBuiltIns(["exit"], chdirResult)
  {
  }

  /** `cd` alone passes the `NULL` sentinel to `chdir`. */
  lemma CdWithoutArgumentPassesNull(chdirResult: int)
    ensures CheckBuiltIns(["cd"], chdirResult) == ChangeDir(None)
  {
  }
}
