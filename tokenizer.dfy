/**
 * The tokenizer `parseInput` (main.c:36-74): the line is split by `strtok` on
 * the single delimiter `' '` and at most `MAX_ARGS` tokens go into an array of
 * `MAX_ARGS + 1` slots that ends with a `NULL` sentinel.
 */
module Tokenizer {
  import opened Wrappers
  import opened ArgVector
  import opened CString

  /** The bound `main` passes (main.c:200). */
  const MAX_ARGS: nat := 20

  /** A token: non-empty and free of the delimiter `' '`. */
  predicate IsWord(w: string) {
    |w| > 0 && ' ' !in w
  }

  /** `s + strspn(s, " ")`: `s` after its leading spaces. */
  function SkipSpaces(s: string): (r: string)
    ensures |r| <= |s|
    ensures r == s[|s| - |r|..]
    ensures forall j :: 0 <= j < |s| - |r| ==> s[j] == ' '
    ensures r != [] ==> r[0] != ' '
  {
    if s != [] && s[0] == ' ' then SkipSpaces(s[1..]) else s
  }

  /**
   * Reference definition of what the tokenizer is meant to find: the maximal
   * runs of non-space characters of `s`, from left to right.
   */
  function Words(s: string): seq<string>
    decreases |s|
  {
    if s == [] then []
    else if s[0] == ' ' then Words(s[1..])
    else
      var n := Span(s, ' ');
      [s[..n]] + Words(s[n..])
  }

  /** The words of `tokens` written out with one space between neighbours. */
  function JoinWithSpaces(tokens: seq<string>): string {
    if tokens == [] then []
    else if |tokens| == 1 then tokens[0]
    else tokens[0] + " " + JoinWithSpaces(tokens[1..])
  }

  /**
   * What a `strtok` call leaves behind: the token it returns (`None` for
   * `NULL`) and the position it saves for the next call, `strtok(NULL, " ")`.
   */
  datatype StrtokState = StrtokState(token: Option<string>, saved: string)

  /**
   * One call of `strtok(s, " ")`: skip the leading spaces, then take the token.
   * The delimiter that ends a token is overwritten with the terminator and
   * skipped.
   */
  function Strtok(s: string): (st: StrtokState)
    ensures st.token.None? ==> st.saved == []
    ensures st.token.Some? ==> IsWord(st.token.value) && |st.saved| < |s|
  {
    TakeToken(SkipSpaces(s))
  }

  /**
   * The second half of a `strtok` call, on a string that does not start with
   * a space: the run up to the next space is the token, and the space after it
   * is overwritten and skipped.
   */
  function TakeToken(t: string): (st: StrtokState)
    requires t == [] || t[0] != ' '
    ensures st.token.None? ==> st.saved == []
    ensures st.token.Some? ==> IsWord(st.token.value) && |st.saved| < |t|
  {
    if t == [] then StrtokState(None, [])
    else
      var n := Span(t, ' ');
      StrtokState(Some(t[..n]), if n < |t| then t[n + 1..] else [])
  }

  /** The tokens that a `strtok` state still has to deliver: its current token and all after it. */
  function Pending(st: StrtokState): seq<string> {
    match st.token
    case None => []
    case Some(t) => [t] + Words(st.saved)
  }

  /**
   * What `parseInput` keeps of a line: the first `maxArgs` words, or all of
   * them when there are fewer.
   */
  function Parse(line: string, maxArgs: nat): seq<string> {
    var ws := Words(line);
    if |ws| <= maxArgs then ws else ws[..maxArgs]
  }

  /** Every word is non-empty and free of spaces. */
  lemma {:induction false} WordsAreTokens(s: string)
    ensures forall k :: 0 <= k < |Words(s)| ==> IsWord(Words(s)[k])
    decreases |s|
  {
    if s != [] {
      if s[0] == ' ' {
        WordsAreTokens(s[1..]);
      } else {
        var n := Span(s, ' ');
        WordsAreTokens(s[n..]);
        assert IsWord(s[..n]);
      }
    }
  }

  /** Leading spaces produce no words. */
  lemma {:induction false} WordsSkipSpaces(s: string)
    ensures Words(SkipSpaces(s)) == Words(s)
    decreases |s|
  {
    if s != [] && s[0] == ' ' {
      WordsSkipSpaces(s[1..]);
    }
  }

  /** A line has no words exactly when every character of it is a space. */
  lemma {:induction false} WordsEmptyIffBlank(s: string)
    ensures Words(s) == [] <==> forall j :: 0 <= j < |s| ==> s[j] == ' '
    decreases |s|
  {
    if s != [] {
      WordsEmptyIffBlank(s[1..]);
      if s[0] == ' ' {
        assert forall j :: 1 <= j < |s| ==> s[j] == s[1..][j - 1];
      }
    }
  }

  /** A line that starts with a word splits into that word and the words after it. */
  lemma WordsAtWordStart(t: string)
    requires t != [] && t[0] != ' '
    ensures Words(t) == [t[..Span(t, ' ')]] + Words(t[Span(t, ' ')..])
  {
  }

  /** A space in front of a line adds no word. */
  lemma WordsAtSpace(t: string)
    requires t != [] && t[0] == ' '
    ensures Words(t) == Words(t[1..])
  {
  }

  /** On a line that does not start with a space, the token taken and the words after it are all its words. */
  lemma TakeTokenDeliversWords(t: string)
    requires t == [] || t[0] != ' '
    ensures Pending(TakeToken(t)) == Words(t)
  {
    if t != [] {
      var n := Span(t, ' ');
      WordsAtWordStart(t);
      if n < |t| {
        WordsAtSpace(t[n..]);
        assert t[n..][1..] == t[n + 1..];
      } else {
        assert t[n..] == [];
      }
    }
  }

  /** Each call of `strtok` delivers the next word and leaves the rest in its saved position. */
  lemma StrtokDeliversWords(s: string)
    ensures Pending(Strtok(s)) == Words(s)
  {
    WordsSkipSpaces(s);
    TakeTokenDeliversWords(SkipSpaces(s));
  }

  /** `strtok` returns `NULL` exactly on a line made only of spaces. */
  lemma StrtokNullIffBlank(s: string)
    ensures Strtok(s).token.None? <==> forall j :: 0 <= j < |s| ==> s[j] == ' '
  {
    StrtokDeliversWords(s);
    WordsEmptyIffBlank(s);
  }

  /** Splitting a line at a space splits its words. */
  lemma {:induction false} WordsAppendAtSpace(a: string, b: string)
    ensures Words(a + " " + b) == Words(a) + Words(b)
    decreases |a|
  {
    if a == [] {
      assert (a + " " + b)[1..] == b;
    } else if a[0] == ' ' {
      assert (a + " " + b)[1..] == a[1..] + " " + b;
      WordsAppendAtSpace(a[1..], b);
    } else {
      var s := a + " " + b;
      var n := Span(a, ' ');
      SpanUnique(s, ' ', n);
      WordsAtWordStart(s);
      WordsAtWordStart(a);
      assert s[..n] == a[..n];
      assert s[n..] == a[n..] + " " + b;
      WordsAppendAtSpace(a[n..], b);
    }
  }

  /** A single word is its own only word. */
  lemma OneWord(w: string)
    requires IsWord(w)
    ensures Words(w) == [w]
  {
    assert Span(w, ' ') == |w|;
    assert w[..|w|] == w;
    assert w[|w|..] == [];
  }

  /** Words joined with single spaces split back into the same words. */
  lemma {:induction false} WordsOfJoin(tokens: seq<string>)
    requires forall k :: 0 <= k < |tokens| ==> IsWord(tokens[k])
    ensures Words(JoinWithSpaces(tokens)) == tokens
    decreases |tokens|
  {
    if |tokens| == 1 {
      OneWord(tokens[0]);
    } else if |tokens| > 1 {
      OneWord(tokens[0]);
      WordsOfJoin(tokens[1..]);
      WordsAppendAtSpace(tokens[0], JoinWithSpaces(tokens[1..]));
      assert tokens == [tokens[0]] + tokens[1..];
    }
  }

  /**
   * What `parseInput` keeps: no more than `maxArgs` tokens, each non-empty and
   * space-free, and they are the first `min(k, maxArgs)` words of the line in
   * order, where `k` is the number of words.
   */
  lemma ParseKeepsLeadingWords(line: string, maxArgs: nat)
    ensures |Parse(line, maxArgs)| <= maxArgs
    ensures |Parse(line, maxArgs)| == if |Words(line)| <= maxArgs then |Words(line)| else maxArgs
    ensures Parse(line, maxArgs) <= Words(line)
    ensures forall k :: 0 <= k < |Parse(line, maxArgs)| ==> IsWord(Parse(line, maxArgs)[k])
  {
    WordsAreTokens(line);
  }

  /** An empty or all-space line yields no tokens, and any other line at least one (when `maxArgs > 0`). */
  lemma ParseEmptyIffBlank(line: string, maxArgs: nat)
    requires maxArgs > 0
    ensures Parse(line, maxArgs) == [] <==> forall j :: 0 <= j < |line| ==> line[j] == ' '
  {
    WordsEmptyIffBlank(line);
  }

  /** `"echo a b"` yields the tokens `echo`, `a`, `b`. */
  lemma ParseEchoExample()
    ensures Parse("echo a b", MAX_ARGS) == ["echo", "a", "b"]
  {
    WordsOfJoin(["echo", "a", "b"]);
    assert JoinWithSpaces(["echo", "a", "b"]) == "echo a b";
  }

  /** A tab is not a delimiter: `"ls\t-l"` is one token. */
  lemma ParseTabIsNotSeparator()
    ensures Parse("ls\t-l", MAX_ARGS) == ["ls\t-l"]
  {
    OneWord("ls\t-l");
  }

  /**
   * The loop's view of a `strtok` call (main.c:51 and main.c:69), and nothing
   * more: it returns `Strtok(saved)`, described only by the words it still has
   * to deliver and by the saved position shrinking while tokens remain.
   */
  method StrtokCall(saved: string) returns (st: StrtokState)
    ensures Pending(st) == Words(saved)
    ensures st.token.None? ==> st.saved == []
    ensures st.token.Some? ==> |st.saved| < |saved|
  {
    st := Strtok(saved);
    StrtokDeliversWords(saved);
  }

  /**
   * `parseInput`: fills a fresh array of `maxArgs + 1` slots with copies of the
   * tokens `strtok` delivers, stops with a warning when a token is left over
   * once `maxArgs` are stored, and puts the `NULL` sentinel after the last one.
   * `warned` stands for the warning printed on stderr.
   */
  method ParseInput(userInput: string, maxArgs: nat) returns (args: array<Option<string>>, warned: bool)
    ensures fresh(args) && args.Length == maxArgs + 1
    ensures args[..|Parse(userInput, maxArgs)| + 1] == Terminate(Parse(userInput, maxArgs))
    ensures Command(args[..]) == Parse(userInput, maxArgs)
    ensures warned <==> |Words(userInput)| > maxArgs
  {
    args := new Option<string>[maxArgs + 1](_ => None);
    ghost var ws := Words(userInput);
    var inputCopy := userInput;
    var st := StrtokCall(inputCopy);
    var argCount := 0;
    warned := false;
    while st.token.Some?
      invariant argCount <= maxArgs && argCount <= |ws|
      invariant forall k :: 0 <= k < argCount ==> args[k] == Some(ws[k])
      invariant ws[argCount..] == Pending(st)
      invariant !warned
      decreases |st.saved| + if st.token.Some? then 1 else 0
    {
      if argCount >= maxArgs {
        warned := true;
        break;
      }
      StrtokStep(ws, argCount, st);
      args[argCount] := st.token;
      argCount := argCount + 1;
      st := StrtokCall(st.saved);
    }
    args[argCount] := None;
    LoopExit(userInput, maxArgs, argCount, st, warned);
    LaidOut(args[..], ws[..argCount]);
  }

  /** One turn of the tokenizer loop: the current token is word `i`, and the next call delivers the words after it. */
  lemma StrtokStep(ws: seq<string>, i: nat, st: StrtokState)
    requires i <= |ws| && ws[i..] == Pending(st) && st.token.Some?
    ensures i < |ws| && ws[i] == st.token.value
    ensures ws[i + 1..] == Words(st.saved)
  {
    assert ws[i..] == [st.token.value] + Words(st.saved);
    assert ws[i + 1..] == ws[i..][1..];
  }

  /**
   * How the tokenizer loop ends: with the warning after `maxArgs` tokens while
   * one is left, or when `strtok` has no token left. Either way the tokens
   * stored are those `Parse` keeps.
   */
  lemma LoopExit(line: string, maxArgs: nat, argCount: nat, st: StrtokState, warned: bool)
    requires argCount <= maxArgs && argCount <= |Words(line)|
    requires Words(line)[argCount..] == Pending(st)
    requires warned ==> argCount == maxArgs && st.token.Some?
    requires !warned ==> st.token.None?
    ensures Parse(line, maxArgs) == Words(line)[..argCount]
    ensures warned <==> |Words(line)| > maxArgs
  {
    var ws := Words(line);
    if !warned {
      assert ws[argCount..] == [];
      assert ws[..argCount] == ws;
    }
  }
}
