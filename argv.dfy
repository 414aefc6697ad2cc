/**
 * The argument vector the shell passes between its stages: a `char**` whose
 * entries are strings up to a `NULL` sentinel, as `execvp` expects
 * (main.c:71, 88, 170). Entries are `Option<string>` and `None` is `NULL`.
 */
module ArgVector {
  import opened Wrappers

  /** The strings `tokens` laid out as argv slots followed by the `NULL` sentinel. */
  function Terminate(tokens: seq<string>): (argv: seq<Option<string>>)
    ensures |argv| == |tokens| + 1
    ensures forall k :: 0 <= k < |tokens| ==> argv[k] == Some(tokens[k])
    ensures argv[|tokens|] == None
  {
    seq(|tokens|, k requires 0 <= k < |tokens| => Some(tokens[k])) + [None]
  }

  /** The index of the first `NULL` slot, or the length when there is none. */
  function SentinelIndex(argv: seq<Option<string>>): (n: nat)
    ensures n <= |argv|
    ensures forall j :: 0 <= j < n ==> argv[j].Some?
    ensures n < |argv| ==> argv[n].None?
  {
    if argv == [] || argv[0].None? then 0 else 1 + SentinelIndex(argv[1..])
  }

  /** The command an argv denotes: its strings before the first `NULL` (what `execvp` reads). */
  function Command(argv: seq<Option<string>>): seq<string> {
    var n := SentinelIndex(argv);
    seq(n, k requires 0 <= k < n => argv[k].value)
  }

  /** The first `NULL` is the one index before which every slot is a string and at which there is none. */
  lemma SentinelIndexUnique(argv: seq<Option<string>>, n: nat)
    requires n <= |argv|
    requires forall j :: 0 <= j < n ==> argv[j].Some?
    requires n < |argv| ==> argv[n].None?
    ensures SentinelIndex(argv) == n
  {
  }

  /** Reading back a laid-out argv gives the tokens that were laid out. */
  lemma CommandOfTerminate(tokens: seq<string>)
    ensures Command(Terminate(tokens)) == tokens
  {
    SentinelIndexUnique(Terminate(tokens), |tokens|);
  }

  /** Writing `NULL` into slot `i` of an argv whose first `i` slots are strings leaves its first `i` strings. */
  lemma CommandOfCut(argv: seq<Option<string>>, i: nat)
    requires i < |argv|
    requires forall j :: 0 <= j < i ==> argv[j].Some?
    ensures Command(argv[i := None]) == Command(argv)[..i]
  {
    SentinelIndexUnique(argv[i := None], i);
    assert SentinelIndex(argv) >= i;
  }

  /** `Command` stops at the first `NULL`, so slots after it do not matter. */
  lemma CommandPrefix(argv: seq<Option<string>>, m: nat)
    requires m <= |argv|
    requires None in argv[..m]
    ensures Command(argv) == Command(argv[..m])
  {
    var n := SentinelIndex(argv[..m]);
    var k :| 0 <= k < m && argv[..m][k] == None;
    assert n < m;
    SentinelIndexUnique(argv, n);
  }

  /** An argv whose first slots hold `tokens` and then `NULL` starts with `tokens` laid out, and denotes them. */
  lemma LaidOut(argv: seq<Option<string>>, tokens: seq<string>)
    requires |tokens| < |argv| && argv[|tokens|] == None
    requires forall k :: 0 <= k < |tokens| ==> argv[k] == Some(tokens[k])
    ensures argv[..|tokens| + 1] == Terminate(tokens)
    ensures Command(argv) == tokens
  {
    assert argv[..|tokens| + 1] == Terminate(tokens);
    SentinelIndexUnique(argv, |tokens|);
  }
}
