/**
 * Command-line parsing (`parseArgs` in src/index.ts): a single left-to-right
 * scan over the arguments in which `-m`/`--max-iterations` may take the
 * next argument as its value.
 */
module CliArgsParsing {

  import opened Wrappers
  import opened Strings
  import opened Types

  /** The options before any argument is read. */
  function Defaults(): (r: CliArgs)
    ensures !r.resume && !r.help && !r.verbose && !r.yolo && r.maxIterations.None?
  {
    CliArgs(false, false, false, None, false)
  }

  /** The digits at the start of `s`. */
  function DigitPrefix(s: string): (r: string)
    ensures AllDigits(r) && r <= s
    ensures |r| < |s| ==> !IsDigit(s[|r|])
    decreases |s|
  {
    if |s| > 0 && IsDigit(s[0]) then [s[0]] + DigitPrefix(s[1..]) else ""
  }

  /** The argument without the sign `parseInt` accepts in front of the digits. */
  function Unsigned(t: string): (r: string)
    ensures r == t || (|t| > 0 && (t[0] == '-' || t[0] == '+') && r == t[1..])
  {
    if |t| > 0 && (t[0] == '-' || t[0] == '+') then t[1..] else t
  }

  /** `parseInt(s, 10)`: optional leading whitespace and sign, then the leading digits; `None` stands for NaN. */
  function ParseIntPrefix(s: string): Option<int> {
    var t := TrimStart(s);
    var digits := DigitPrefix(Unsigned(t));
    if |digits| == 0 then None
    else
      var v: int := DecimalValue(digits);
      if t[0] == '-' then Some(-v) else Some(v)
  }

  lemma {:induction false} DigitPrefixOf(d: string, rest: string)
    requires AllDigits(d)
    requires |rest| == 0 || !IsDigit(rest[0])
    ensures DigitPrefix(d + rest) == d
    decreases |d|
  {
    if |d| > 0 {
      assert (d + rest)[1..] == d[1..] + rest;
      DigitPrefixOf(d[1..], rest);
    }
  }

  lemma TrimStartKeeps(s: string)
    requires |s| > 0 && IsDigit(s[0])
    ensures TrimStart(s) == s && Unsigned(s) == s
  {
    assert !IsSpace(s[0]);
  }

  /**
   * `parseInt` reads the leading digits and ignores what follows them:
   * digits `d` followed by anything not starting with a digit parse to
   * the value of `d`.
   */
  lemma ParseIntReadsLeadingDigits(d: string, rest: string)
    requires |d| > 0 && AllDigits(d)
    requires |rest| == 0 || !IsDigit(rest[0])
    ensures ParseIntPrefix(d + rest) == Some(DecimalValue(d))
  {
    var s := d + rest;
    assert IsDigit(s[0]);
    TrimStartKeeps(s);
    DigitPrefixOf(d, rest);
  }

  /** The decimal rendering of a number parses back to it. */
  lemma ParseIntOfNumeral(n: nat)
    ensures ParseIntPrefix(NatToString(n)) == Some(n)
  {
    var d := NatToString(n);
    assert d + "" == d;
    ParseIntReadsLeadingDigits(d, "");
    NatToStringValue(n);
  }

  /** Without a digit after the optional whitespace and sign the result is NaN. */
  lemma ParseIntNaN(s: string)
    requires var u := Unsigned(TrimStart(s)); |u| == 0 || !IsDigit(u[0])
    ensures ParseIntPrefix(s).None?
  {
  }

  /** The boolean options. */
  datatype Flag = Resume | Help | Verbose | Yolo

  /** What an argument is, by the cases of the option switch. */
  datatype Arg = FlagArg(flag: Flag) | MaxIterationsArg | Positional

  function Classify(arg: string): Arg {
    if arg == "--resume" || arg == "-r" then FlagArg(Resume)
    else if arg == "--help" || arg == "-h" then FlagArg(Help)
    else if arg == "--verbose" || arg == "-v" then FlagArg(Verbose)
    else if arg == "--max-iterations" || arg == "-m" then MaxIterationsArg
    else if arg == "--yolo" || arg == "-y" then FlagArg(Yolo)
    else Positional
  }

  /** Every option spelling starts with `-`. */
  lemma OptionsAreDashed(arg: string)
    requires !Classify(arg).Positional?
    ensures StartsWith(arg, "-")
  {
  }

  /**
   * The count a token gives when it follows `-m`: it must be non-empty,
   * must not start with `-`, and must parse to a positive number.
   */
  function AcceptedCount(token: string): (r: Option<int>)
    ensures r.Some? ==> r.value > 0 && token != "" && !StartsWith(token, "-")
    ensures r.Some? <==> token != "" && !StartsWith(token, "-") && ParseIntPrefix(token).Some? && ParseIntPrefix(token).value > 0
    ensures r.Some? ==> r == ParseIntPrefix(token)
  {
    if token != "" && !StartsWith(token, "-") then
      var value := ParseIntPrefix(token);
      if value.Some? && value.value > 0 then value else None
    else None
  }

  /** The count each argument would give after `-m`. */
  function Counts(argv: seq<string>): (r: seq<Option<int>>)
    ensures |r| == |argv| && forall k | 0 <= k < |argv| :: r[k] == AcceptedCount(argv[k])
  {
    seq(|argv|, k requires 0 <= k < |argv| => AcceptedCount(argv[k]))
  }

  /** What the scan needs of the count table: a count only ever comes from a positive value that is not an option. */
  predicate CountsFit(argv: seq<string>, counts: seq<Option<int>>) {
    && |counts| == |argv|
    && forall k | 0 <= k < |argv| :: counts[k].Some? ==> counts[k].value > 0 && Classify(argv[k]).Positional?
  }

  lemma CountsFitArguments(argv: seq<string>)
    ensures CountsFit(argv, Counts(argv))
  {
    forall k | 0 <= k < |argv| && Counts(argv)[k].Some?
      ensures Classify(argv[k]).Positional?
    {
      if !Classify(argv[k]).Positional? {
        OptionsAreDashed(argv[k]);
      }
    }
  }

  /** Whether the argument at `i` is `-m` taking the next argument as its value. */
  predicate SetsMax(argv: seq<string>, counts: seq<Option<int>>, i: nat)
    requires |counts| == |argv|
  {
    i + 1 < |argv| && Classify(argv[i]) == MaxIterationsArg && counts[i + 1].Some?
  }

  function WithFlag(args: CliArgs, f: Flag): CliArgs {
    match f
    case Resume => args.(resume := true)
    case Help => args.(help := true)
    case Verbose => args.(verbose := true)
    case Yolo => args.(yolo := true)
  }

  /** What the argument at `i` does to the options. */
  function Step(argv: seq<string>, counts: seq<Option<int>>, i: nat, args: CliArgs): CliArgs
    requires |counts| == |argv| && i < |argv|
  {
    match Classify(argv[i])
    case FlagArg(f) => WithFlag(args, f)
    case MaxIterationsArg => if SetsMax(argv, counts, i) then args.(maxIterations := counts[i + 1]) else args
    case Positional => args
  }

  /** The options after scanning `argv` from position `i` on, starting from `args`; a taken value is skipped. */
  function Scan(argv: seq<string>, counts: seq<Option<int>>, i: nat, args: CliArgs): CliArgs
    requires |counts| == |argv| && i <= |argv|
    decreases |argv| - i
  {
    if i == |argv| then args
    else if SetsMax(argv, counts, i) then Scan(argv, counts, i + 2, Step(argv, counts, i, args))
    else Scan(argv, counts, i + 1, Step(argv, counts, i, args))
  }

  /** The options `argv` selects. */
  function Parsed(argv: seq<string>): CliArgs {
    Scan(argv, Counts(argv), 0, Defaults())
  }

  /** One pass through the option switch at `argv[i]`: the new options and the next position. */
  method ApplyArg(argv: seq<string>, i: nat, args: CliArgs) returns (next: nat, after: CliArgs)
    requires i < |argv|
    ensures next == if SetsMax(argv, Counts(argv), i) then i + 2 else i + 1
    ensures after == Step(argv, Counts(argv), i, args)
  {
    ghost var counts := Counts(argv);
    after, next := args, i + 1;
    match Classify(argv[i]) {
      case FlagArg(f) =>
        after := WithFlag(args, f);
      case MaxIterationsArg =>
        if i + 1 < |argv| {
          var count := AcceptedCount(argv[i + 1]);
          assert counts[i + 1] == count;
          if count.Some? {
            after := args.(maxIterations := count);
            next := i + 2;
          }
        }
      case Positional =>
    }
  }

  /** `parseArgs`. */
  method ParseArgs(argv: seq<string>) returns (args: CliArgs)
    ensures args == Parsed(argv)
  {
    ghost var counts := Counts(argv);
    CountsFitArguments(argv);
    args := Defaults();
    var i := 0;
    while i < |argv|
      invariant i <= |argv|
      invariant Scan(argv, counts, i, args) == Parsed(argv)
      decreases |argv| - i
    {
      if SetsMax(argv, counts, i) {
        ScanTaken(argv, counts, i, args);
      } else {
        ScanOther(argv, counts, i, args);
      }
      i, args := ApplyArg(argv, i, args);
    }
  }

  // ---------------------------------------------------------------------------
  // What the scan means
  // ---------------------------------------------------------------------------

  /** The two spellings of each flag. */
  predicate Names(f: Flag, arg: string) {
    match f
    case Resume => arg == "--resume" || arg == "-r"
    case Help => arg == "--help" || arg == "-h"
    case Verbose => arg == "--verbose" || arg == "-v"
    case Yolo => arg == "--yolo" || arg == "-y"
  }

  /** The switch recognises exactly the spellings of each flag. */
  lemma ClassifyNames(f: Flag, arg: string)
    ensures Classify(arg) == FlagArg(f) <==> Names(f, arg)
  {
  }

  predicate IsSet(f: Flag, args: CliArgs) {
    match f
    case Resume => args.resume
    case Help => args.help
    case Verbose => args.verbose
    case Yolo => args.yolo
  }

  /** One of the spellings of `f` occurs in `argv` from position `i` on. */
  predicate OccursFrom(argv: seq<string>, i: nat, f: Flag) {
    exists j | i <= j < |argv| :: Classify(argv[j]) == FlagArg(f)
  }

  lemma OccursStep(argv: seq<string>, i: nat, f: Flag)
    requires i < |argv|
    ensures OccursFrom(argv, i, f) <==> Classify(argv[i]) == FlagArg(f) || OccursFrom(argv, i + 1, f)
  {
    if OccursFrom(argv, i, f) && Classify(argv[i]) != FlagArg(f) {
      var j :| i <= j < |argv| && Classify(argv[j]) == FlagArg(f);
      assert j != i;
    }
  }

  /** One step sets a flag iff it was set already or the argument at `i` spells it. */
  lemma StepFlag(argv: seq<string>, counts: seq<Option<int>>, i: nat, args: CliArgs, f: Flag)
    requires |counts| == |argv| && i < |argv|
    ensures IsSet(f, Step(argv, counts, i, args)) <==> IsSet(f, args) || Classify(argv[i]) == FlagArg(f)
  {
  }

  /** Scanning from `i` sets a flag iff it was set already or one of its spellings occurs from `i` on. */
  lemma {:induction false} ScanFlag(argv: seq<string>, counts: seq<Option<int>>, i: nat, args: CliArgs, f: Flag)
    requires CountsFit(argv, counts) && i <= |argv|
    ensures IsSet(f, Scan(argv, counts, i, args)) <==> IsSet(f, args) || OccursFrom(argv, i, f)
    decreases |argv| - i
  {
    if i < |argv| {
      var next := Step(argv, counts, i, args);
      StepFlag(argv, counts, i, args, f);
      OccursStep(argv, i, f);
      if SetsMax(argv, counts, i) {
        assert Classify(argv[i + 1]).Positional?;
        OccursStep(argv, i + 1, f);
        ScanFlag(argv, counts, i + 2, next, f);
      } else {
        ScanFlag(argv, counts, i + 1, next, f);
      }
    }
  }

  /**
   * Each flag is set exactly when one of its spellings is among the
   * arguments: a value taken by `-m` never starts with `-`, so no flag is
   * ever swallowed as a value.
   */
  lemma FlagsFromArguments(argv: seq<string>, f: Flag)
    ensures IsSet(f, Parsed(argv)) <==> exists j | 0 <= j < |argv| :: Names(f, argv[j])
  {
    CountsFitArguments(argv);
    ScanFlag(argv, Counts(argv), 0, Defaults(), f);
    forall j | 0 <= j < |argv|
      ensures Classify(argv[j]) == FlagArg(f) <==> Names(f, argv[j])
    {
      ClassifyNames(f, argv[j]);
    }
  }

  /** The last position from `i` on where `-m` takes a value. */
  function LastSetsMax(argv: seq<string>, counts: seq<Option<int>>, i: nat): (r: Option<nat>)
    requires |counts| == |argv| && i <= |argv|
    ensures r.Some? ==> i <= r.value && SetsMax(argv, counts, r.value)
    decreases |argv| - i
  {
    if i == |argv| then None
    else
      match LastSetsMax(argv, counts, i + 1)
      case Some(j) => Some(j)
      case None => if SetsMax(argv, counts, i) then Some(i) else None
  }

  /** `LastSetsMax` finds the last `-m` that takes a value, and finds none iff there is none. */
  lemma {:induction false} LastSetsMaxIsLast(argv: seq<string>, counts: seq<Option<int>>, i: nat)
    requires |counts| == |argv| && i <= |argv|
    ensures var r := LastSetsMax(argv, counts, i);
      && (r.Some? ==> forall j | r.value < j < |argv| :: !SetsMax(argv, counts, j))
      && (r.None? ==> forall j | i <= j < |argv| :: !SetsMax(argv, counts, j))
    decreases |argv| - i
  {
    if i < |argv| {
      LastSetsMaxIsLast(argv, counts, i + 1);
    }
  }

  /** The count the last `-m` from `i` on sets, or `current` when there is none. */
  function MaxAfter(argv: seq<string>, counts: seq<Option<int>>, i: nat, current: Option<int>): Option<int>
    requires |counts| == |argv| && i <= |argv|
  {
    match LastSetsMax(argv, counts, i)
    case None => current
    case Some(j) => counts[j + 1]
  }

  /** A value taken by `-m` is not itself a `-m` taking a value. */
  lemma TakenValueIsNotFlag(argv: seq<string>, counts: seq<Option<int>>, i: nat)
    requires CountsFit(argv, counts) && SetsMax(argv, counts, i)
    ensures !SetsMax(argv, counts, i + 1)
  {
  }

  /** One step of the scan at a `-m` that takes its value. */
  lemma ScanTaken(argv: seq<string>, counts: seq<Option<int>>, i: nat, args: CliArgs)
    requires CountsFit(argv, counts) && SetsMax(argv, counts, i)
    ensures Scan(argv, counts, i, args) == Scan(argv, counts, i + 2, Step(argv, counts, i, args))
    ensures MaxAfter(argv, counts, i, args.maxIterations) == MaxAfter(argv, counts, i + 2, Step(argv, counts, i, args).maxIterations)
  {
    TakenValueIsNotFlag(argv, counts, i);
    assert LastSetsMax(argv, counts, i + 1) == LastSetsMax(argv, counts, i + 2);
  }

  /** One step of the scan at any other argument. */
  lemma ScanOther(argv: seq<string>, counts: seq<Option<int>>, i: nat, args: CliArgs)
    requires |counts| == |argv| && i < |argv| && !SetsMax(argv, counts, i)
    ensures Scan(argv, counts, i, args) == Scan(argv, counts, i + 1, Step(argv, counts, i, args))
    ensures MaxAfter(argv, counts, i, args.maxIterations) == MaxAfter(argv, counts, i + 1, Step(argv, counts, i, args).maxIterations)
  {
  }

  lemma {:induction false} ScanMax(argv: seq<string>, counts: seq<Option<int>>, i: nat, args: CliArgs)
    requires CountsFit(argv, counts) && i <= |argv|
    ensures Scan(argv, counts, i, args).maxIterations == MaxAfter(argv, counts, i, args.maxIterations)
    decreases |argv| - i
  {
    if i < |argv| {
      if SetsMax(argv, counts, i) {
        ScanTaken(argv, counts, i, args);
        ScanMax(argv, counts, i + 2, Step(argv, counts, i, args));
      } else {
        ScanOther(argv, counts, i, args);
        ScanMax(argv, counts, i + 1, Step(argv, counts, i, args));
      }
    }
  }

  /**
   * `maxIterations` is the value after the LAST `-m` that takes one, and
   * is then positive; without such a `-m` it is absent.
   */
  lemma MaxIterationsFromLastValid(argv: seq<string>) returns (last: Option<nat>)
    ensures last.None? <==> forall j | 0 <= j < |argv| :: !SetsMax(argv, Counts(argv), j)
    ensures last.None? ==> Parsed(argv).maxIterations.None?
    ensures last.Some? ==>
      && last.value + 1 < |argv|
      && Classify(argv[last.value]) == MaxIterationsArg
      && Parsed(argv).maxIterations == ParseIntPrefix(argv[last.value + 1])
      && Parsed(argv).maxIterations.Some? && Parsed(argv).maxIterations.value > 0
      && forall k | last.value < k < |argv| :: !SetsMax(argv, Counts(argv), k)
  {
    var counts := Counts(argv);
    CountsFitArguments(argv);
    last := LastCountTaken(argv, counts);
    if last.Some? {
      var value := argv[last.value + 1];
      assert counts[last.value + 1] == AcceptedCount(value);
    }
  }

  /** `MaxIterationsFromLastValid` for any count table the scan can be given. */
  lemma LastCountTaken(argv: seq<string>, counts: seq<Option<int>>) returns (last: Option<nat>)
    requires CountsFit(argv, counts)
    ensures last.None? <==> forall j | 0 <= j < |argv| :: !SetsMax(argv, counts, j)
    ensures last.None? ==> Scan(argv, counts, 0, Defaults()).maxIterations.None?
    ensures last.Some? ==>
      && SetsMax(argv, counts, last.value)
      && Scan(argv, counts, 0, Defaults()).maxIterations == counts[last.value + 1]
      && forall k | last.value < k < |argv| :: !SetsMax(argv, counts, k)
  {
    ScanMax(argv, counts, 0, Defaults());
    LastSetsMaxIsLast(argv, counts, 0);
    last := LastSetsMax(argv, counts, 0);
  }

  /**
   * A value starting with `-` is not consumed: a `-m` followed by it leaves
   * the options as they were, and the scan goes on at that value, which is
   * then read as an option itself.
   */
  lemma RejectedValueIsScanned(argv: seq<string>, i: nat, args: CliArgs)
    requires i + 1 < |argv| && Classify(argv[i]) == MaxIterationsArg && StartsWith(argv[i + 1], "-")
    ensures !SetsMax(argv, Counts(argv), i)
    ensures Scan(argv, Counts(argv), i, args) == Scan(argv, Counts(argv), i + 1, args)
  {
    var counts := Counts(argv);
    assert counts[i + 1] == AcceptedCount(argv[i + 1]) == None;
    ScanOther(argv, counts, i, args);
  }

  /** A number after `-m` is taken exactly when it is positive. */
  lemma AcceptedNumeral(n: nat)
    ensures AcceptedCount(NatToString(n)) == if n > 0 then Some(n) else None
  {
    ParseIntOfNumeral(n);
    assert !StartsWith(NatToString(n), "-") by {
      assert IsDigit(NatToString(n)[0]);
    }
  }

  /** `-m` followed by a plain token sets `maxIterations` to that token's accepted count, if any. */
  lemma MaxIterationsPair(argv: seq<string>, i: nat, args: CliArgs)
    requires i + 1 < |argv| && Classify(argv[i]) == MaxIterationsArg && Classify(argv[i + 1]) == Positional
    ensures AcceptedCount(argv[i + 1]).Some? ==>
      Scan(argv, Counts(argv), i, args) == Scan(argv, Counts(argv), i + 2, args.(maxIterations := AcceptedCount(argv[i + 1])))
    ensures AcceptedCount(argv[i + 1]).None? ==>
      Scan(argv, Counts(argv), i, args) == Scan(argv, Counts(argv), i + 2, args)
  {
    CountsFitArguments(argv);
    PairScan(argv, Counts(argv), i, args);
  }

  /** `MaxIterationsPair` for any count table the scan may be given. */
  lemma PairScan(argv: seq<string>, counts: seq<Option<int>>, i: nat, args: CliArgs)
    requires CountsFit(argv, counts)
    requires i + 1 < |argv| && Classify(argv[i]) == MaxIterationsArg && Classify(argv[i + 1]) == Positional
    ensures counts[i + 1].Some? ==> Scan(argv, counts, i, args) == Scan(argv, counts, i + 2, args.(maxIterations := counts[i + 1]))
    ensures counts[i + 1].None? ==> Scan(argv, counts, i, args) == Scan(argv, counts, i + 2, args)
  {
    if counts[i + 1].Some? {
      assert SetsMax(argv, counts, i);
      ScanTaken(argv, counts, i, args);
    } else {
      ScanOther(argv, counts, i, args);
      ScanOther(argv, counts, i + 1, args);
    }
  }


}
