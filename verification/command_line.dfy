/** The command-line parsing of vds_template_4.cpp. The arguments are read from last to first;
    words are stacked until a flag is met, and the flag then takes the stacked words (put back
    in command-line order) as its arguments. */
module CommandLine {
  import opened Wrappers

  //---------------------------------------------------------------------------
  // Reversal

  function Reversed<T>(s: seq<T>): (r: seq<T>)
    ensures |r| == |s|
    ensures forall k | 0 <= k < |s| :: r[k] == s[|s| - 1 - k]
  {
    if s == [] then [] else [s[|s| - 1]] + Reversed(s[..|s| - 1])
  }

  lemma ReversedTwice<T>(s: seq<T>)
    ensures Reversed(Reversed(s)) == s
  {
  }

  lemma ReversedAppend<T>(s: seq<T>, x: T)
    ensures Reversed([x] + s) == Reversed(s) + [x]
  {
  }

  //---------------------------------------------------------------------------
  // IsFlag, ParseArgsOfFlag

  datatype ArgError = BadFlagArity(flag: string) | BadDuration | InvalidFlag | NotANumber

  /** Whether the word stacked last is `flagName`. */
  function IsFlag(argsOfFlag: seq<string>, flagName: string): bool
    requires |argsOfFlag| > 0
  {
    argsOfFlag[|argsOfFlag| - 1] == flagName
  }

  /** After a word is pushed, `IsFlag` tests that word alone, whatever is stacked below it. */
  lemma IsFlagTestsPushedWord(stack: seq<string>, word: string, flagName: string)
    ensures IsFlag(stack + [word], flagName) <==> word == flagName
    ensures IsFlag(stack + [word], flagName) <==> stack + [word] == stack + [flagName]
  {
    if stack + [word] == stack + [flagName] {
      assert (stack + [word])[|stack|] == (stack + [flagName])[|stack|];
    }
  }

  /** What `ParseArgsOfFlag` returns for a stack whose top is the flag. */
  function ArgsOfFlag(argsOfFlag: seq<string>, validCondition: nat -> bool): Result<seq<string>, ArgError>
    requires |argsOfFlag| > 0
  {
    var n := |argsOfFlag| - 1;
    if !validCondition(n) then Err(BadFlagArity(argsOfFlag[n]))
    else Ok(Reversed(argsOfFlag[..n]))
  }

  /** `std::reverse` on a vector, in place. */
  method ReverseInPlace(a: array<string>)
    modifies a
    ensures a[..] == Reversed(old(a[..]))
  {
    ghost var before := a[..];
    var n := a.Length;
    var lo, hi := 0, n - 1;
    while lo < hi
      invariant 0 <= lo <= n && hi == n - 1 - lo
      invariant forall k | 0 <= k < n && (k < lo || k > hi) :: a[k] == before[n - 1 - k]
      invariant forall k | lo <= k <= hi :: a[k] == before[k]
    {
      a[lo], a[hi] := a[hi], a[lo];
      lo, hi := lo + 1, hi - 1;
    }
  }

  /** Pops the flag, checks the number of words left against the flag's condition (the source
      throws "(Bad Input) <flag>" when it fails), and reverses the words. */
  method ParseArgsOfFlag(argsOfFlag: seq<string>, validCondition: nat -> bool)
    returns (r: Result<seq<string>, ArgError>)
    requires |argsOfFlag| > 0
    ensures r.Err? <==> !validCondition(|argsOfFlag| - 1)
    ensures r.Err? ==> r.error == BadFlagArity(argsOfFlag[|argsOfFlag| - 1])
    ensures r.Ok? ==> r.value == Reversed(argsOfFlag[..|argsOfFlag| - 1])
  {
    var flagName := argsOfFlag[|argsOfFlag| - 1];
    var words := argsOfFlag[..|argsOfFlag| - 1];
    if !validCondition(|words|) {
      return Err(BadFlagArity(flagName));
    }
    var a := new string[|words|](i requires 0 <= i < |words| => words[i]);
    assert a[..] == words;
    ReverseInPlace(a);
    return Ok(a[..]);
  }

  //---------------------------------------------------------------------------
  // The run options and the scan

  /** The settings `main` reads from the command line. `outputFile` is the file `outData` writes
      to (`None`: the terminal); `filesOpened` lists every file an `ofstream` has been opened on
      (and so created) while parsing, in the order the scan opened them. */
  datatype Options = Options(
    outputFile: Option<string>,
    hostName: string,
    allowedObjects: seq<string>,
    saveMarkerLocations: bool,
    durationSeconds: real,
    filesOpened: seq<string>)

  /** Print to the terminal, the lab's Tracker host, no objects, no markers, 10/200 s. */
  const Defaults := Options(None, "192.168.11.3", [], false, 10.0 / 200.0, [])

  datatype ParseOutcome = ShowHelp | Run(options: Options) | BadInput(error: ArgError)

  /** How a parse can end early: with the help text or an error. */
  type Halt = o: ParseOutcome | !o.Run? witness ShowHelp

  /** The loop state: the stacked words and the options so far, or the end of the parse with
      the files opened before it (an early end does not remove them). */
  datatype State = Continue(argsOfFlag: seq<string>, options: Options) | Stop(outcome: Halt, filesOpened: seq<string>)

  /** The files opened so far in either state. */
  function FilesOf(state: State): seq<string>
  {
    match state
    case Continue(_, o) => o.filesOpened
    case Stop(_, files) => files
  }

  /** `--FileName name` opens `name + ".csv"` and points the output at it. */
  function OpenOutput(o: Options, name: string): Options
  {
    o.(outputFile := Some(name + ".csv"), filesOpened := o.filesOpened + [name + ".csv"])
  }

  predicate IsDashDash(word: string)
  {
    |word| >= 2 && word[..2] == "--"
  }

  function ExactlyOne(n: nat): bool { n == 1 }
  function AtLeastOne(n: nat): bool { n > 0 }
  function NoArgs(n: nat): bool { n == 0 }

  /** One pass of the loop body: stack `arg`, then act on it if it is a flag. `toDouble` is
      `std::stod`: `None` where it throws. */
  function Step(state: State, arg: string, toDouble: string -> Option<real>): State
  {
    match state
    case Stop(_, _) => state
    case Continue(stack, o) => Act(stack + [arg], o, toDouble)
  }

  /** The if-chain of the loop body, on the stack with the new word on top. */
  function Act(argsOfFlag: seq<string>, o: Options, toDouble: string -> Option<real>): State
    requires |argsOfFlag| > 0
  {
      var arg := argsOfFlag[|argsOfFlag| - 1];
      if IsFlag(argsOfFlag, "--Help") then Stop(ShowHelp, o.filesOpened)
      else if IsFlag(argsOfFlag, "--FileName") then
        match ArgsOfFlag(argsOfFlag, ExactlyOne)
        case Err(e) => Stop(BadInput(e), o.filesOpened)
        case Ok(words) => Continue([], OpenOutput(o, words[0]))
      else if IsFlag(argsOfFlag, "--HostName") then
        match ArgsOfFlag(argsOfFlag, ExactlyOne)
        case Err(e) => Stop(BadInput(e), o.filesOpened)
        case Ok(words) => Continue([], o.(hostName := words[0]))
      else if IsFlag(argsOfFlag, "--Objects") then
        match ArgsOfFlag(argsOfFlag, AtLeastOne)
        case Err(e) => Stop(BadInput(e), o.filesOpened)
        case Ok(words) => Continue([], o.(allowedObjects := words))
      else if IsFlag(argsOfFlag, "--SaveMarkerLocations") then
        match ArgsOfFlag(argsOfFlag, NoArgs)
        case Err(e) => Stop(BadInput(e), o.filesOpened)
        case Ok(_) => Continue([], o.(saveMarkerLocations := true))
      else if IsFlag(argsOfFlag, "--DurationSeconds") then
        match ArgsOfFlag(argsOfFlag, AtLeastOne)
        case Err(e) => Stop(BadInput(e), o.filesOpened)
        case Ok(words) =>
          match toDouble(words[0])
          case None => Stop(BadInput(NotANumber), o.filesOpened)
          case Some(d) =>
            if d <= 0.0 then Stop(BadInput(BadDuration), o.filesOpened) else Continue([], o.(durationSeconds := d))
      else if IsDashDash(arg) then Stop(BadInput(InvalidFlag), o.filesOpened)
      else Continue(argsOfFlag, o)
  }

  /** The state once the loop has read `args[i..]`, last word first. */
  function ScanSuffix(args: seq<string>, i: nat, toDouble: string -> Option<real>): State
    requires i <= |args|
    decreases |args| - i
  {
    if i == |args| then Continue([], Defaults)
    else Step(ScanSuffix(args, i + 1, toDouble), args[i], toDouble)
  }

  function Outcome(args: seq<string>, toDouble: string -> Option<real>): ParseOutcome
  {
    match ScanSuffix(args, 0, toDouble)
    case Stop(o, _) => o
    case Continue(_, o) => Run(o)
  }

  /** The files the parse leaves created, whether it ends in a run, the help text or an error. */
  function OpenedFiles(args: seq<string>, toDouble: string -> Option<real>): seq<string>
  {
    FilesOf(ScanSuffix(args, 0, toDouble))
  }

  /** Once the parse has stopped, the words before do not matter. */
  lemma {:induction false} StopIsFinal(args: seq<string>, i: nat, toDouble: string -> Option<real>)
    requires i <= |args| && ScanSuffix(args, i, toDouble).Stop?
    ensures Outcome(args, toDouble) == ScanSuffix(args, i, toDouble).outcome
    ensures OpenedFiles(args, toDouble) == ScanSuffix(args, i, toDouble).filesOpened
    decreases i
  {
    if i > 0 {
      StopIsFinal(args, i - 1, toDouble);
    }
  }

  //---------------------------------------------------------------------------
  // What the scan means, in command-line order

  /** The effect of one flag given the words that follow it on the command line. */
  function ApplyFlag(flag: string, words: seq<string>, o: Options, toDouble: string -> Option<real>): State
  {
    var files := o.filesOpened;
    if flag == "--Help" then Stop(ShowHelp, files)
    else if flag == "--FileName" then
      if |words| == 1 then Continue([], OpenOutput(o, words[0])) else Stop(BadInput(BadFlagArity(flag)), files)
    else if flag == "--HostName" then
      if |words| == 1 then Continue([], o.(hostName := words[0])) else Stop(BadInput(BadFlagArity(flag)), files)
    else if flag == "--Objects" then
      if |words| > 0 then Continue([], o.(allowedObjects := words)) else Stop(BadInput(BadFlagArity(flag)), files)
    else if flag == "--SaveMarkerLocations" then
      if |words| == 0 then Continue([], o.(saveMarkerLocations := true)) else Stop(BadInput(BadFlagArity(flag)), files)
    else if flag == "--DurationSeconds" then
      if |words| == 0 then Stop(BadInput(BadFlagArity(flag)), files)
      else if toDouble(words[0]).None? then Stop(BadInput(NotANumber), files)
      else if toDouble(words[0]).value <= 0.0 then Stop(BadInput(BadDuration), files)
      else Continue([], o.(durationSeconds := toDouble(words[0]).value))
    else Stop(BadInput(InvalidFlag), files)
  }

  /** No step closes a file: the files opened before a step are the first ones opened after it. */
  lemma StepKeepsFiles(state: State, arg: string, toDouble: string -> Option<real>)
    ensures FilesOf(state) <= FilesOf(Step(state, arg, toDouble))
  {
  }

  /** The files opened after reading `args[i..]` are the first files the whole parse opens. */
  lemma {:induction false} FilesKept(args: seq<string>, i: nat, toDouble: string -> Option<real>)
    requires i <= |args|
    ensures FilesOf(ScanSuffix(args, i, toDouble)) <= OpenedFiles(args, toDouble)
    decreases i
  {
    if i > 0 {
      StepKeepsFiles(ScanSuffix(args, i, toDouble), args[i - 1], toDouble);
      FilesKept(args, i - 1, toDouble);
      var a, b, c := FilesOf(ScanSuffix(args, i, toDouble)), FilesOf(ScanSuffix(args, i - 1, toDouble)), OpenedFiles(args, toDouble);
      assert a == b[..|a|] && b == c[..|b|];
      assert c[..|b|][..|a|] == c[..|a|];
    }
  }

  /** "--FileName name" creates "name.csv" as soon as the scan reaches it, so the file exists
      after the parse even when an earlier "--FileName" on the command line takes over the
      output, or a word further left stops the parse with the help text or an error. */
  lemma FileNameCreatesFile(args: seq<string>, i: nat, toDouble: string -> Option<real>)
    requires i + 2 <= |args| && args[i] == "--FileName" && !IsDashDash(args[i + 1])
    requires ScanSuffix(args, i + 2, toDouble).Continue? && ScanSuffix(args, i + 2, toDouble).argsOfFlag == []
    ensures args[i + 1] + ".csv" in OpenedFiles(args, toDouble)
  {
    assert "--FileName"[..2] == "--";
    FlagTakesFollowingWords(args, i, i + 2, toDouble);
    assert args[i + 1..i + 2] == [args[i + 1]];
    var here := FilesOf(ScanSuffix(args, i, toDouble));
    assert here[|here| - 1] == args[i + 1] + ".csv";
    FilesKept(args, i, toDouble);
    assert OpenedFiles(args, toDouble)[|here| - 1] == here[|here| - 1];
  }

  /** A word that is not a flag is stacked. */
  lemma StepOnWord(stack: seq<string>, o: Options, word: string, toDouble: string -> Option<real>)
    requires !IsDashDash(word)
    ensures Step(Continue(stack, o), word, toDouble) == Continue(stack + [word], o)
  {
    assert "--Help"[..2] == "--" && "--FileName"[..2] == "--" && "--HostName"[..2] == "--";
    assert "--Objects"[..2] == "--" && "--SaveMarkerLocations"[..2] == "--" && "--DurationSeconds"[..2] == "--";
  }

  /** A flag acts on the stacked words, turned back into command-line order. */
  lemma StepOnFlag(stack: seq<string>, o: Options, flag: string, toDouble: string -> Option<real>)
    requires IsDashDash(flag)
    ensures Step(Continue(stack, o), flag, toDouble) == ApplyFlag(flag, Reversed(stack), o, toDouble)
  {
    var argsOfFlag := stack + [flag];
    assert argsOfFlag[..|argsOfFlag| - 1] == stack;
  }

  /** Only "--HostName" sets the host name. */
  lemma StepKeepsHostName(state: State, word: string, toDouble: string -> Option<real>)
    requires word != "--HostName"
    requires Step(state, word, toDouble).Continue? && state.Continue?
    ensures Step(state, word, toDouble).options.hostName == state.options.hostName
  {
  }

  /** Words that are not flags pile up on the stack, last word at the bottom. */
  lemma {:induction false} WordsStack(args: seq<string>, m: nat, j: nat, toDouble: string -> Option<real>)
    requires m <= j <= |args|
    requires forall k | m <= k < j :: !IsDashDash(args[k])
    requires ScanSuffix(args, j, toDouble).Continue? && ScanSuffix(args, j, toDouble).argsOfFlag == []
    ensures ScanSuffix(args, m, toDouble) == Continue(Reversed(args[m..j]), ScanSuffix(args, j, toDouble).options)
    decreases j - m
  {
    if m < j {
      WordsStack(args, m + 1, j, toDouble);
      var w := args[m];
      var o := ScanSuffix(args, j, toDouble).options;
      StepOnWord(Reversed(args[m + 1..j]), o, w, toDouble);
      assert args[m..j] == [w] + args[m + 1..j];
      ReversedAppend(args[m + 1..j], w);
    } else {
      assert args[m..j] == [];
    }
  }

  /** A flag takes as its arguments exactly the words between it and the next flag (or the
      end), in command-line order. */
  lemma FlagTakesFollowingWords(args: seq<string>, i: nat, j: nat, toDouble: string -> Option<real>)
    requires i < j <= |args| && IsDashDash(args[i])
    requires forall k | i < k < j :: !IsDashDash(args[k])
    requires ScanSuffix(args, j, toDouble).Continue? && ScanSuffix(args, j, toDouble).argsOfFlag == []
    ensures ScanSuffix(args, i, toDouble)
         == ApplyFlag(args[i], args[i + 1..j], ScanSuffix(args, j, toDouble).options, toDouble)
  {
    var words := args[i + 1..j];
    WordsStack(args, i + 1, j, toDouble);
    StepOnFlag(Reversed(words), ScanSuffix(args, j, toDouble).options, args[i], toDouble);
    ReversedTwice(words);
  }

  /** Words before the first flag are dropped without complaint. */
  lemma LeadingWordsIgnored(args: seq<string>, j: nat, toDouble: string -> Option<real>)
    requires j <= |args|
    requires forall k | 0 <= k < j :: !IsDashDash(args[k])
    requires ScanSuffix(args, j, toDouble).Continue? && ScanSuffix(args, j, toDouble).argsOfFlag == []
    ensures Outcome(args, toDouble) == Run(ScanSuffix(args, j, toDouble).options)
  {
    WordsStack(args, 0, j, toDouble);
  }

  /** "--Help" ends the parse with the help text, whatever stands before it. */
  lemma HelpStopsTheParse(args: seq<string>, i: nat, toDouble: string -> Option<real>)
    requires i < |args| && args[i] == "--Help"
    requires ScanSuffix(args, i + 1, toDouble).Continue?
    ensures Outcome(args, toDouble) == ShowHelp
  {
    StopIsFinal(args, i, toDouble);
  }

  /** "--HostName" given more than once: the first occurrence on the command line wins, because
      the scan meets it last. */
  lemma FirstHostNameWins(args: seq<string>, i: nat, toDouble: string -> Option<real>)
    requires i < |args| && args[i] == "--HostName"
    requires forall k | 0 <= k < i :: args[k] != "--HostName"
    requires Outcome(args, toDouble).Run?
    ensures ScanSuffix(args, i, toDouble).Continue?
    ensures Outcome(args, toDouble).options.hostName == ScanSuffix(args, i, toDouble).options.hostName
  {
    if ScanSuffix(args, i, toDouble).Stop? {
      StopIsFinal(args, i, toDouble);
    }
    HostNameKept(args, 0, i, toDouble);
  }

  lemma {:induction false} HostNameKept(args: seq<string>, m: nat, i: nat, toDouble: string -> Option<real>)
    requires m <= i < |args|
    requires forall k | m <= k < i :: args[k] != "--HostName"
    requires ScanSuffix(args, m, toDouble).Continue?
    ensures ScanSuffix(args, i, toDouble).Continue?
    ensures ScanSuffix(args, m, toDouble).options.hostName == ScanSuffix(args, i, toDouble).options.hostName
    decreases i - m
  {
    if m < i {
      var before := ScanSuffix(args, m + 1, toDouble);
      HostNameKept(args, m + 1, i, toDouble);
      StepKeepsHostName(before, args[m], toDouble);
    }
  }

  /** The loop body of `main` once the word is stacked: act on it if it is a flag. */
  method HandleArg(argsOfFlag: seq<string>, options: Options, toDouble: string -> Option<real>)
    returns (state: State)
    requires |argsOfFlag| > 0
    ensures state == Act(argsOfFlag, options, toDouble)
  {
    if IsFlag(argsOfFlag, "--Help") {
      return Stop(ShowHelp, options.filesOpened);
    } else if IsFlag(argsOfFlag, "--FileName") {
      var parsed := ParseArgsOfFlag(argsOfFlag, ExactlyOne);
      if parsed.Err? {
        return Stop(BadInput(parsed.error), options.filesOpened);
      }
      var file := parsed.value[0] + ".csv";
      return Continue([], options.(outputFile := Some(file), filesOpened := options.filesOpened + [file]));
    } else if IsFlag(argsOfFlag, "--HostName") {
      var parsed := ParseArgsOfFlag(argsOfFlag, ExactlyOne);
      if parsed.Err? {
        return Stop(BadInput(parsed.error), options.filesOpened);
      }
      return Continue([], options.(hostName := parsed.value[0]));
    }
    state := HandleLaterFlags(argsOfFlag, options, toDouble);
  }

  /** The rest of the if-chain, from "--Objects" on. */
  method HandleLaterFlags(argsOfFlag: seq<string>, options: Options, toDouble: string -> Option<real>)
    returns (state: State)
    requires |argsOfFlag| > 0
    requires !IsFlag(argsOfFlag, "--Help") && !IsFlag(argsOfFlag, "--FileName") && !IsFlag(argsOfFlag, "--HostName")
    ensures state == Act(argsOfFlag, options, toDouble)
  {
    var arg := argsOfFlag[|argsOfFlag| - 1];
    if IsFlag(argsOfFlag, "--Objects") {
      var parsed := ParseArgsOfFlag(argsOfFlag, AtLeastOne);
      if parsed.Err? {
        return Stop(BadInput(parsed.error), options.filesOpened);
      }
      return Continue([], options.(allowedObjects := parsed.value));
    } else if IsFlag(argsOfFlag, "--SaveMarkerLocations") {
      var parsed := ParseArgsOfFlag(argsOfFlag, NoArgs);
      if parsed.Err? {
        return Stop(BadInput(parsed.error), options.filesOpened);
      }
      return Continue([], options.(saveMarkerLocations := true));
    } else if IsFlag(argsOfFlag, "--DurationSeconds") {
      var parsed := ParseArgsOfFlag(argsOfFlag, AtLeastOne);
      if parsed.Err? {
        return Stop(BadInput(parsed.error), options.filesOpened);
      }
      var durationSeconds := toDouble(parsed.value[0]);
      if durationSeconds.None? {
        return Stop(BadInput(NotANumber), options.filesOpened);
      }
      if durationSeconds.value <= 0.0 {
        return Stop(BadInput(BadDuration), options.filesOpened);
      }
      return Continue([], options.(durationSeconds := durationSeconds.value));
    } else if |arg| >= 2 && arg[..2] == "--" {
      return Stop(BadInput(InvalidFlag), options.filesOpened);
    }
    return Continue(argsOfFlag, options);
  }

  /** Reading `args[m]` after `args[m + 1..]` pushes it and runs the if-chain. */
  lemma ScanReadsOneWord(args: seq<string>, m: nat, toDouble: string -> Option<real>)
    requires m < |args| && ScanSuffix(args, m + 1, toDouble).Continue?
    ensures ScanSuffix(args, m, toDouble)
         == Act(ScanSuffix(args, m + 1, toDouble).argsOfFlag + [args[m]], ScanSuffix(args, m + 1, toDouble).options, toDouble)
  {
  }

  /** The argument loop of `main` (`args` is argv without the program name): the words are
      read from last to first, and help or the first error ends the parse. */
  method ParseCommandLine(args: seq<string>, toDouble: string -> Option<real>)
    returns (outcome: ParseOutcome, filesOpened: seq<string>)
    ensures outcome == Outcome(args, toDouble)
    ensures filesOpened == OpenedFiles(args, toDouble)
  {
    var argList := Reversed(args);
    var argsOfFlag: seq<string> := [];
    var options := Defaults;
    for k := 0 to |argList|
      invariant ScanSuffix(args, |args| - k, toDouble) == Continue(argsOfFlag, options)
    {
      assert argList[k] == args[|args| - (k + 1)];
      ScanReadsOneWord(args, |args| - (k + 1), toDouble);
      argsOfFlag := argsOfFlag + [argList[k]];
      var state := HandleArg(argsOfFlag, options, toDouble);
      if state.Stop? {
        StopIsFinal(args, |args| - (k + 1), toDouble);
        return state.outcome, state.filesOpened;
      }
      argsOfFlag, options := state.argsOfFlag, state.options;
    }
    return Run(options), options.filesOpened;
  }
}
