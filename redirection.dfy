/**
 * `handleRedirection` (main.c:86-156): a left-to-right scan of a
 * `NULL`-terminated argv for the first of `>`, `>>` and `<`. On a hit the
 * source opens `args[i+1]` and moves it onto stdout or stdin; the model
 * returns which file and stream that would be as a `RedirectionSpec`. The
 * argv is cut in place at the operator (`args[i] = NULL`) and the scan stops,
 * so every later operator is ignored.
 */
module Redirection {
  import opened Wrappers
  import opened ArgVector

  datatype RedirectionKind = Truncate | Append | Input

  datatype StdStream = Stdin | Stdout

  /**
   * The redirection the source sets up. `target` is `args[i+1]`, which is the
   * `NULL` sentinel when the operator is the last token.
   */
  datatype RedirectionSpec = RedirectionSpec(kind: RedirectionKind, target: Option<string>) {

    /** The mode string given to `fopen`. */
    function Mode(): string {
      match kind
      case Truncate => "w"
      case Append => "a"
      case Input => "r"
    }

    /** The standard stream `dup2` replaces. */
    function Stream(): StdStream {
      if kind == Input then Stdin else Stdout
    }
  }

  datatype Redirected = Redirected(spec: Option<RedirectionSpec>, argv: seq<Option<string>>)

  predicate IsOperator(s: string) {
    s == ">" || s == ">>" || s == "<"
  }

  /** The operator the source tests for, in the order of its `strcmp` chain. */
  function KindOf(op: string): RedirectionKind
    requires IsOperator(op)
  {
    if op == ">" then Truncate else if op == ">>" then Append else Input
  }

  /** Slot `j` holds a redirection operator. */
  predicate IsOperatorAt(argv: seq<Option<string>>, j: int) {
    0 <= j < |argv| && argv[j].Some? && IsOperator(argv[j].value)
  }

  /** Every slot before `i` holds a string that is not an operator: the scan has gone past them. */
  predicate PassedOver(argv: seq<Option<string>>, i: nat) {
    i <= |argv| && forall j :: 0 <= j < i ==> argv[j].Some? && !IsOperator(argv[j].value)
  }

  /** Where the scan stops: at the first `NULL` or the first operator, whichever comes first. */
  function ScanStop(argv: seq<Option<string>>): (i: nat)
    ensures PassedOver(argv, i)
    ensures i < |argv| ==> argv[i].None? || IsOperator(argv[i].value)
  {
    if argv == [] || argv[0].None? || IsOperator(argv[0].value) then 0
    else 1 + ScanStop(argv[1..])
  }

  /** The argv the source is given ends with a `NULL` somewhere. */
  predicate NullTerminated(argv: seq<Option<string>>) {
    None in argv
  }

  /** The result of `handleRedirection` on an argv, as a value. */
  function Redirect(argv: seq<Option<string>>): Redirected
    requires NullTerminated(argv)
  {
    var i := ScanStop(argv);
    if IsOperatorAt(argv, i) then
      assert argv[i + 1..] != [] by {
        var k :| 0 <= k < |argv| && argv[k] == None;
        assert k > i;
      }
      Redirected(Some(RedirectionSpec(KindOf(argv[i].value), argv[i + 1])), argv[i := None])
    else
      Redirected(None, argv)
  }

  /** The stopping point of the scan is the one index that meets both of its conditions. */
  lemma ScanStopUnique(argv: seq<Option<string>>, i: nat)
    requires PassedOver(argv, i)
    requires i < |argv| ==> argv[i].None? || IsOperator(argv[i].value)
    ensures ScanStop(argv) == i
  {
  }

  /** Some token of `cmd` is a redirection operator. */
  predicate HasOperator(cmd: seq<string>) {
    exists k :: 0 <= k < |cmd| && IsOperator(cmd[k])
  }

  /**
   * A redirection is made exactly when an operator is among the strings
   * before the sentinel; without one the argv is left unchanged.
   */
  lemma RedirectsIffOperatorPresent(argv: seq<Option<string>>)
    requires NullTerminated(argv)
    ensures Redirect(argv).spec.Some? <==> HasOperator(Command(argv))
    ensures Redirect(argv).spec.None? ==> Redirect(argv).argv == argv
  {
    var cmd := Command(argv);
    var i := ScanStop(argv);
    if IsOperatorAt(argv, i) {
      assert |cmd| > i;
      assert argv[i] == Some(cmd[i]);
      assert IsOperator(cmd[i]);
    } else {
      assert argv[i] == None;
      forall k | 0 <= k < |cmd| ensures !IsOperator(cmd[k]) {
        assert k < i;
        assert argv[k] == Some(cmd[k]);
      }
    }
  }

  /**
   * When `i` is the leftmost operator, only it is acted on: slot `i` becomes
   * `NULL`, every other slot is unchanged, the kind is the one the operator
   * names, with its `fopen` mode and stream, and the target is the next slot.
   */
  lemma LeftmostOperatorActedOn(argv: seq<Option<string>>, i: nat)
    requires NullTerminated(argv)
    requires IsOperatorAt(argv, i) && PassedOver(argv, i)
    ensures i + 1 < |argv|
    ensures Redirect(argv).argv == argv[i := None]
    ensures Redirect(argv).argv[..i] == argv[..i]
    ensures Redirect(argv).spec == Some(RedirectionSpec(KindOf(argv[i].value), argv[i + 1]))
    ensures argv[i] == Some(">") ==> Redirect(argv).spec.value.Mode() == "w" && Redirect(argv).spec.value.Stream() == Stdout
    ensures argv[i] == Some(">>") ==> Redirect(argv).spec.value.Mode() == "a" && Redirect(argv).spec.value.Stream() == Stdout
    ensures argv[i] == Some("<") ==> Redirect(argv).spec.value.Mode() == "r" && Redirect(argv).spec.value.Stream() == Stdin
  {
    ScanStopUnique(argv, i);
    var k :| 0 <= k < |argv| && argv[k] == None;
    assert k > i;
  }

  /** Operators after the first one do not influence the redirection. */
  lemma LaterOperatorsIgnored(a: seq<Option<string>>, b: seq<Option<string>>, i: nat)
    requires NullTerminated(a) && NullTerminated(b)
    requires IsOperatorAt(a, i) && PassedOver(a, i)
    requires i + 2 <= |b| && i + 2 <= |a| && a[..i + 2] == b[..i + 2]
    ensures Redirect(a).spec == Redirect(b).spec
    ensures Redirect(b).argv[..i + 1] == Redirect(a).argv[..i + 1]
  {
    assert a[i] == b[i] && a[i + 1] == b[i + 1];
    assert forall j :: 0 <= j < i ==> a[j] == a[..i + 2][j] == b[j];
    LeftmostOperatorActedOn(a, i);
    LeftmostOperatorActedOn(b, i);
  }

  /** The program is started with the tokens before the first operator (all of them if there is none). */
  lemma ProgramSeesTokensBeforeOperator(argv: seq<Option<string>>)
    requires NullTerminated(argv)
    ensures ScanStop(argv) <= |Command(argv)|
    ensures Command(Redirect(argv).argv) == Command(argv)[..ScanStop(argv)]
  {
    var i := ScanStop(argv);
    var cmd := Command(argv);
    if IsOperatorAt(argv, i) {
      CommandOfCut(argv, i);
    } else {
      assert cmd[..i] == cmd;
    }
  }

  /**
   * With the operator last, the target is the `NULL` sentinel: the source's
   * "no file provided" check (which tests `args[i]`, not `args[i+1]`) does not
   * catch it, and `fopen` is handed `NULL`.
   */
  lemma TrailingOperatorHasNoTarget()
    ensures Redirect([Some("cat"), Some(">"), None]).spec == Some(RedirectionSpec(Truncate, None))
  {
    LeftmostOperatorActedOn([Some("cat"), Some(">"), None], 1);
  }

  /**
   * `handleRedirection`: walks the argv until the sentinel, and at the first
   * operator records the redirection, overwrites that slot with `NULL` and
   * returns.
   */
  method HandleRedirection(args: array<Option<string>>) returns (spec: Option<RedirectionSpec>)
    requires NullTerminated(args[..])
    modifies args
    ensures spec == Redirect(old(args[..])).spec
    ensures args[..] == Redirect(old(args[..])).argv
  {
    ghost var n :| 0 <= n < args.Length && args[n] == None;
    var i := 0;
    while args[i] != None
      invariant i <= n
      invariant PassedOver(args[..], i)
      invariant args[..] == old(args[..])
      decreases n - i
    {
      if args[i] == Some(">") {
        LeftmostOperatorActedOn(args[..], i);
        spec := Some(RedirectionSpec(Truncate, args[i + 1]));
        args[i] := None;
        return;
      } else if args[i] == Some(">>") {
        LeftmostOperatorActedOn(args[..], i);
        spec := Some(RedirectionSpec(Append, args[i + 1]));
        args[i] := None;
        return;
      } else if args[i] == Some("<") {
        LeftmostOperatorActedOn(args[..], i);
        spec := Some(RedirectionSpec(Input, args[i + 1]));
        args[i] := None;
        return;
      }
      i := i + 1;
    }
    ScanStopUnique(args[..], i);
    spec := None;
  }
}
