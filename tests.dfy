/** The tests a `#CPQA TEST` directive builds (cpqa/tests.py): the three
    factories, the numeric rules deciding `different` and `wrong`, the
    completeness rules, `run`, and the harvesting of output files into the
    tests' fragments. */
module Tests {
  import opened Wrappers
  import opened PyStr
  import Host
  import Paths
  import opened Fragments

  /** 1e-15: the relative tolerance against the reference, and the default
      threshold of a test. */
  const Tolerance: real := 0.000000000000001

  function Abs(x: real): real {
    if x < 0.0 then -x else x
  }

  // ---------------------------------------------------------------------------
  // Test descriptions and the factories

  /** What a TEST directive describes. */
  datatype TestSpec =
    | ScalarSpec(regex: string, column: int, expValue: Option<real>, threshold: real)
    | CompareScalarSpec(expPrefix: string, regex: string, column: int, threshold: real)
    | ScriptSpec(script: string, args: seq<string>)

  /** The directive name a test carries (its factory's key). */
  function Directive(spec: TestSpec): string {
    match spec
    case ScalarSpec(_, _, _, _) => "scalar"
    case CompareScalarSpec(_, _, _, _) => "compare-scalar"
    case ScriptSpec(_, _) => "script"
  }

  /** `fns_extra`: the files a test needs besides its input, which is the
      script of a script test and nothing for the others. */
  function FnsExtra(spec: TestSpec): (r: seq<string>)
    ensures spec.ScriptSpec? <==> r != []
    ensures r != [] ==> r == [spec.script]
  {
    if spec.ScriptSpec? then [spec.script] else []
  }

  /** What a factory call hands back: a test, or an exception object that it
      returns instead of raising. */
  datatype Made = Built(spec: TestSpec) | Returned(error: PyError)

  function IntWord(env: Host.Env, w: string): (r: Result<int>)
    ensures r.Ok? <==> env.parseInt(w).Some?
    ensures r.Ok? ==> r.value == env.parseInt(w).value
  {
    match env.parseInt(w)
    case None => Err(ValueError("invalid literal for int(): " + w))
    case Some(n) => Ok(n)
  }

  function FloatWord(env: Host.Env, w: string): (r: Result<real>)
    ensures r.Ok? <==> env.parseFloat(w).Some?
    ensures r.Ok? ==> r.value == env.parseFloat(w).value
  {
    match env.parseFloat(w)
    case None => Err(ValueError("could not convert string to float: " + w))
    case Some(x) => Ok(x)
  }

  /** The test constructor's `re.compile(regex)`, run once the numbers are
      parsed: a malformed pattern raises `re.error`. */
  function Compiled(env: Host.Env, spec: TestSpec): (r: Result<Made>)
    requires !spec.ScriptSpec?
    ensures r.Ok? <==> env.compiles(spec.regex)
    ensures r.Ok? ==> r.value == Built(spec)
    ensures r.Err? ==> r.error == ReError(spec.regex)
  {
    if env.compiles(spec.regex) then Ok(Built(spec)) else Err(ReError(spec.regex))
  }

  /** `ScalarFactory()(words)`: regex, column[, expected value[, threshold]]. */
  function ScalarFactory(env: Host.Env, words: seq<string>): (r: Result<Made>)
    ensures !(2 <= |words| <= 4) ==> r.Err? && r.error.TypeError?
    ensures 2 <= |words| <= 4 ==>
              (r.Ok? <==> env.parseInt(words[1]).Some? &&
                          (|words| >= 3 ==> env.parseFloat(words[2]).Some?) &&
                          (|words| == 4 ==> env.parseFloat(words[3]).Some?) &&
                          env.compiles(words[0]))
    ensures (2 <= |words| <= 4 && env.parseInt(words[1]).Some? &&
             (|words| >= 3 ==> env.parseFloat(words[2]).Some?) &&
             (|words| == 4 ==> env.parseFloat(words[3]).Some?) &&
             !env.compiles(words[0])) ==> r == Err(ReError(words[0]))
    ensures r.Ok? ==> r.value.Built? && r.value.spec.ScalarSpec? &&
                      r.value.spec.regex == words[0] &&
                      r.value.spec.column == env.parseInt(words[1]).value &&
                      (r.value.spec.expValue.Some? <==> |words| >= 3) &&
                      (|words| >= 3 ==> r.value.spec.expValue.value == env.parseFloat(words[2]).value) &&
                      r.value.spec.threshold == (if |words| == 4 then env.parseFloat(words[3]).value else Tolerance)
  {
    if 2 <= |words| <= 4 then
      match IntWord(env, words[1])
      case Err(e) => Err(e)
      case Ok(column) =>
        if |words| == 2 then Compiled(env, ScalarSpec(words[0], column, None, Tolerance))
        else
          match FloatWord(env, words[2])
          case Err(e) => Err(e)
          case Ok(expValue) =>
            if |words| == 3 then Compiled(env, ScalarSpec(words[0], column, Some(expValue), Tolerance))
            else
              match FloatWord(env, words[3])
              case Err(e) => Err(e)
              case Ok(threshold) => Compiled(env, ScalarSpec(words[0], column, Some(expValue), threshold))
    else Err(TypeError("There must be two, three or four arguments for a scalar test."))
  }

  /** `CompareScalarFactory()(words)`: prefix, regex, column[, threshold]. */
  function CompareScalarFactory(env: Host.Env, words: seq<string>): (r: Result<Made>)
    ensures !(3 <= |words| <= 4) ==> r.Err? && r.error.TypeError?
    ensures 3 <= |words| <= 4 ==>
              (r.Ok? <==> env.parseInt(words[2]).Some? &&
                          (|words| == 4 ==> env.parseFloat(words[3]).Some?) &&
                          env.compiles(words[1]))
    ensures (3 <= |words| <= 4 && env.parseInt(words[2]).Some? &&
             (|words| == 4 ==> env.parseFloat(words[3]).Some?) &&
             !env.compiles(words[1])) ==> r == Err(ReError(words[1]))
    ensures r.Ok? ==> r.value.Built? && r.value.spec.CompareScalarSpec? &&
                      r.value.spec.expPrefix == words[0] && r.value.spec.regex == words[1] &&
                      r.value.spec.column == env.parseInt(words[2]).value &&
                      r.value.spec.threshold == (if |words| == 4 then env.parseFloat(words[3]).value else Tolerance)
  {
    if 3 <= |words| <= 4 then
      match IntWord(env, words[2])
      case Err(e) => Err(e)
      case Ok(column) =>
        if |words| == 3 then Compiled(env, CompareScalarSpec(words[0], words[1], column, Tolerance))
        else
          match FloatWord(env, words[3])
          case Err(e) => Err(e)
          case Ok(threshold) => Compiled(env, CompareScalarSpec(words[0], words[1], column, threshold))
    else Err(TypeError("There must be three arguments for a custom scalar comparison."))
  }

  /** `ScriptFactory()(words)`: script, then at least one argument.  Too few
      words give back a TypeError object; nothing is raised. */
  function ScriptFactory(env: Host.Env, words: seq<string>): (r: Result<Made>)
    ensures r.Ok?
    ensures |words| >= 2 <==> r.value.Built?
    ensures r.value.Built? ==> r.value.spec == ScriptSpec(words[0], words[1..]) &&
                               [r.value.spec.script] + r.value.spec.args == words
    ensures r.value.Returned? ==> r.value.error.TypeError?
  {
    if |words| >= 2 then Ok(Built(ScriptSpec(words[0], words[1..])))
    else Ok(Returned(TypeError("A script test requires at least two arguments.")))
  }

  /** A table of test factories, keyed by directive.  Every factory takes
      the surroundings it parses numbers with (the script factory parses
      none). */
  type Factories = map<string, (Host.Env, seq<string>) -> Result<Made>>

  /** `test_factories`: each factory under the directive of the tests it
      builds. */
  function TestFactories(): Factories {
    map["scalar" := ScalarFactory, "compare-scalar" := CompareScalarFactory, "script" := ScriptFactory]
  }

  /** The table is keyed by directive: whatever test a factory builds carries
      the key it is stored under. */
  lemma FactoriesKeyedByDirective(env: Host.Env, key: string, words: seq<string>)
    requires key in TestFactories()
    ensures var r := TestFactories()[key](env, words);
            r.Ok? && r.value.Built? ==> Directive(r.value.spec) == key
  {
  }

  // ---------------------------------------------------------------------------
  // The numeric rules of ScalarTest.run

  /** `different` for a test value against a reference value. */
  predicate DifferentRule(tst: real, ref: real) {
    if ref == 0.0 then tst != 0.0 else Abs((tst - ref) / ref) > Tolerance
  }

  /** `wrong` for a test value against an expected value. */
  predicate WrongRule(tst: real, exp: real, threshold: real) {
    if exp == 0.0 then Abs(tst) > threshold else Abs((tst - exp) / exp) > threshold
  }

  lemma RelativeGap(d: real, r: real, c: real)
    requires r != 0.0
    ensures Abs(d / r) > c <==> Abs(d) > c * Abs(r)
  {
    var q := d / r;
    assert q * r == d;
    assert Abs(q) * Abs(r) == Abs(d);
    if Abs(q) > c {
      assert Abs(q) * Abs(r) > c * Abs(r);
    } else {
      assert Abs(q) * Abs(r) <= c * Abs(r);
    }
  }

  /** Without any division: a test value is different iff it lies more than
      1e-15 times the reference's magnitude away from it.  For a zero
      reference this is just "nonzero", the rule's first branch. */
  lemma DifferentIsRelativeGap(tst: real, ref: real)
    ensures DifferentRule(tst, ref) <==> Abs(tst - ref) > Tolerance * Abs(ref)
  {
    if ref != 0.0 {
      RelativeGap(tst - ref, ref, Tolerance);
    }
  }

  /** For a nonzero expected value, wrong iff the gap exceeds threshold times
      the expected magnitude; for zero, iff the test value's magnitude exceeds
      the threshold itself (an absolute rule). */
  lemma WrongIsRelativeGap(tst: real, exp: real, threshold: real)
    ensures exp != 0.0 ==> (WrongRule(tst, exp, threshold) <==> Abs(tst - exp) > threshold * Abs(exp))
    ensures exp == 0.0 ==> (WrongRule(tst, exp, threshold) <==> Abs(tst - exp) > threshold)
  {
    if exp != 0.0 {
      RelativeGap(tst - exp, exp, threshold);
    }
  }

  /** A value identical to its reference is never different, and one
      identical to its expected value is never wrong, for any threshold that
      is not negative. */
  lemma ExactIsAccepted(x: real, threshold: real)
    requires threshold >= 0.0
    ensures !DifferentRule(x, x) && !WrongRule(x, x, threshold)
  {
    DifferentIsRelativeGap(x, x);
    WrongIsRelativeGap(x, x, threshold);
  }

  /** The flags a run leaves, and the exception it raised, if any. */
  datatype Verdict = Verdict(different: Option<bool>, wrong: Option<bool>, error: Option<PyError>)

  /** The name Python gives the type of a fragment's value. */
  function TypeName(x: Option<real>): string {
    if x.None? then "'NoneType'" else "'float'"
  }

  /** The TypeError of `a - b` when an operand is None; the message names
      the operands' types in order. */
  function Subtraction(a: Option<real>, b: Option<real>): (e: PyError)
    ensures e.TypeError?
  {
    TypeError("unsupported operand type(s) for -: " + TypeName(a) + " and " + TypeName(b))
  }

  /** `ScalarTest.run` on values.  Arithmetic on a missing value raises a
      TypeError, and an exception keeps whatever flags were set before it. */
  function ScalarRun(tst: Option<real>, ref: Option<real>, exp: Option<real>, threshold: real,
                     isNew: bool, different: Option<bool>, wrong: Option<bool>): (v: Verdict)
    ensures v.error.None? <==> (isNew || (tst.Some? && ref.Some?)) && (exp.None? || tst.Some?)
    ensures v.error.Some? ==> v.wrong == wrong
    ensures !isNew && (tst.None? || ref.None?) ==> v.error == Some(Subtraction(tst, ref))
    ensures (isNew || (tst.Some? && ref.Some?)) && tst.None? && exp.Some? ==> v.error == Some(Subtraction(tst, exp))
    ensures !isNew && (tst.None? || ref.None?) ==> v.different == different
    ensures isNew ==> v.different == None
    ensures !isNew && tst.Some? && ref.Some? ==> v.different == Some(DifferentRule(tst.value, ref.value))
    ensures v.error.None? && exp.None? ==> v.wrong == None
    ensures v.error.None? && exp.Some? ==> v.wrong == Some(WrongRule(tst.value, exp.value, threshold))
  {
    if !isNew && (tst.None? || ref.None?) then Verdict(different, wrong, Some(Subtraction(tst, ref)))
    else
      var d := if isNew then None else Some(DifferentRule(tst.value, ref.value));
      if exp.None? then Verdict(d, None, None)
      else if tst.None? then Verdict(d, wrong, Some(Subtraction(tst, exp)))
      else Verdict(d, Some(WrongRule(tst.value, exp.value, threshold)), None)
  }

  /** `ScalarTest.complete(new)` on the fragments' values. */
  predicate ScalarComplete(tst: Option<real>, ref: Option<real>, isNew: bool) {
    tst.Some? && (isNew || ref.Some?)
  }

  /** A complete scalar test runs without an exception, whatever its expected
      value and earlier flags: completeness is exactly what `run` needs. */
  lemma CompleteRunsClean(tst: Option<real>, ref: Option<real>, exp: Option<real>, threshold: real,
                          isNew: bool, different: Option<bool>, wrong: Option<bool>)
    ensures ScalarComplete(tst, ref, isNew) ==> ScalarRun(tst, ref, exp, threshold, isNew, different, wrong).error.None?
    ensures ScalarRun(tst, ref, None, threshold, isNew, different, wrong).error.None? ==> ScalarComplete(tst, ref, isNew) || (isNew && tst.None?)
  {
  }

  /** `log_prefix` of `ScriptTest.run`: the first argument, the script name,
      then the remaining arguments, joined by dashes. */
  function LogPrefix(script: string, args: seq<string>): (p: string)
    requires |args| >= 1
    ensures p == Join("-", [args[0], script] + args[1..])
  {
    var head := args[0] + "-" + script;
    assert [args[0], script] + args[1..] == [args[0]] + ([script] + args[1..]);
    if |args| > 1 then
      assert ([script] + args[1..])[1..] == args[1..];
      head + "-" + Join("-", args[1..])
    else head
  }

  // ---------------------------------------------------------------------------
  // Tests

  /** A test and its run-time state.  Scalar tests own a `tst` and a `ref`
      fragment, compare-scalar tests also an `exp` fragment; script tests none. */
  class Test {
    const spec: TestSpec
    /** `fns_extra`: the script of a script test, nothing otherwise. */
    const fnsExtra: seq<string>
    const tst: ScalarFragment?
    const ref: ScalarFragment?
    const exp: ScalarFragment?
    var expValue: Option<real>
    var different: Option<bool>
    var wrong: Option<bool>
    /** Set by `harvest_other` of a script test. */
    var dirname: Option<string>
    var returnCode: Option<int>

    ghost predicate Valid() {
      match spec
      case ScalarSpec(_, _, _, _) => tst != null && ref != null && exp == null && tst != ref
      case CompareScalarSpec(_, _, _, _) =>
        tst != null && ref != null && exp != null && tst != ref && tst != exp && ref != exp
      case ScriptSpec(_, _) => tst == null && ref == null && exp == null
    }

    constructor (env: Host.Env, spec: TestSpec)
      ensures this.spec == spec && Valid()
      ensures fnsExtra == FnsExtra(spec)
      ensures expValue == if spec.ScalarSpec? then spec.expValue else None
      ensures different == None && wrong == None && dirname == None && returnCode == None
      ensures tst != null ==> fresh(tst) && tst.lines == [] && tst.value == None
      ensures ref != null ==> fresh(ref) && ref.lines == [] && ref.value == None
      ensures exp != null ==> fresh(exp) && exp.lines == [] && exp.value == None
    {
      this.spec := spec;
      match spec {
        case ScalarSpec(regex, column, expValue, _) =>
          tst := new ScalarFragment(env, regex, column);
          ref := new ScalarFragment(env, regex, column);
          exp := null;
          fnsExtra := [];
          this.expValue := expValue;
        case CompareScalarSpec(_, regex, column, _) =>
          tst := new ScalarFragment(env, regex, column);
          ref := new ScalarFragment(env, regex, column);
          exp := new ScalarFragment(env, regex, column);
          fnsExtra := [];
          this.expValue := None;
        case ScriptSpec(script, _) =>
          tst := null;
          ref := null;
          exp := null;
          fnsExtra := [script];
          this.expValue := None;
      }
      different := None;
      wrong := None;
      dirname := None;
      returnCode := None;
    }

    function Threshold(): real {
      match spec
      case ScalarSpec(_, _, _, threshold) => threshold
      case CompareScalarSpec(_, _, _, threshold) => threshold
      case ScriptSpec(_, _) => Tolerance
    }

    /** `complete(new)`: the values a run needs have been harvested. */
    predicate Complete(isNew: bool)
      requires Valid()
      reads tst, ref, exp
    {
      match spec
      case ScalarSpec(_, _, _, _) => ScalarComplete(tst.value, ref.value, isNew)
      case CompareScalarSpec(_, _, _, _) => ScalarComplete(tst.value, ref.value, isNew) && exp.value.Some?
      case ScriptSpec(_, _) => true
    }

    /** The path of one of a script run's logs, in the test's directory. */
    function LogPath(ext: string): string
      requires spec.ScriptSpec? && spec.args != [] && dirname.Some?
      reads this
    {
      Paths.Join(dirname.value, LogPrefix(spec.script, spec.args) + ext)
    }

    /** The exception a script test's `run` raises: IndexError without
        arguments, AttributeError when `harvest_other` never set the
        directory, and, after a nonzero exit status, the IOError of `tail`
        on a log the run did not leave. */
    function ScriptError(env: Host.Env, exitStatus: int): (e: Option<PyError>)
      requires spec.ScriptSpec?
      reads this
      ensures e.None? <==>
                spec.args != [] && dirname.Some? &&
                (exitStatus != 0 ==> env.isFile(LogPath(".stdout")) && env.isFile(LogPath(".stderr")))
      ensures spec.args == [] ==> e == Some(IndexError)
      ensures spec.args != [] && dirname.None? ==> e == Some(AttributeError("dirname"))
      ensures spec.args != [] && dirname.Some? && e.Some? ==> exitStatus != 0 && e.value.IOError?
    {
      if spec.args == [] then Some(IndexError)
      else if dirname.None? then Some(AttributeError("dirname"))
      else if exitStatus != 0 && !env.isFile(LogPath(".stdout")) then Some(Host.Open(env, LogPath(".stdout")).error)
      else if exitStatus != 0 && !env.isFile(LogPath(".stderr")) then Some(Host.Open(env, LogPath(".stderr")).error)
      else None
    }

    /** `run(new)`; a script test's exit status is a parameter, and its logs
        are read from env.  Returns the exception the source's `run`
        raises, if any.  The tails of the logs a failed script leaves are
        read but not kept. */
    method Run(env: Host.Env, isNew: bool, exitStatus: int) returns (error: Option<PyError>)
      requires Valid()
      modifies this`expValue, this`different, this`wrong, this`returnCode
      ensures !spec.ScriptSpec? ==>
                var e := if spec.CompareScalarSpec? then exp.value else old(expValue);
                expValue == e && returnCode == old(returnCode) &&
                Verdict(different, wrong, error) ==
                  ScalarRun(tst.value, ref.value, e, Threshold(), isNew, old(different), old(wrong))
      ensures spec.ScriptSpec? && spec.args == [] ==>
                error == Some(IndexError) && unchanged(this)
      ensures spec.ScriptSpec? && spec.args != [] && dirname.None? ==>
                error == Some(AttributeError("dirname")) && unchanged(this)
      ensures spec.ScriptSpec? && spec.args != [] && dirname.Some? ==>
                returnCode == Some(exitStatus) && wrong == Some(exitStatus != 0) &&
                different == old(different) && expValue == old(expValue)
      ensures spec.ScriptSpec? ==> error == ScriptError(env, exitStatus)
      ensures Complete(isNew) && (spec.ScriptSpec? ==> ScriptError(env, exitStatus).None?) ==> error.None?
    {
      if spec.ScriptSpec? {
        if spec.args == [] {
          error := Some(IndexError);
          return;
        }
        var logPrefix := LogPrefix(spec.script, spec.args);
        if dirname.None? {
          error := Some(AttributeError("dirname"));
          return;
        }
        returnCode := Some(exitStatus);
        wrong := Some(exitStatus != 0);
        error := None;
        if wrong == Some(true) {
          var stdout := Host.Open(env, LogPath(".stdout"));
          if stdout.Err? {
            error := Some(stdout.error);
            return;
          }
          var stderr := Host.Open(env, LogPath(".stderr"));
          if stderr.Err? {
            error := Some(stderr.error);
          }
        }
      } else {
        if spec.CompareScalarSpec? {
          expValue := exp.value;
        }
        var v := ScalarRun(tst.value, ref.value, expValue, Threshold(), isNew, different, wrong);
        different, wrong, error := v.different, v.wrong, v.error;
        CompleteRunsClean(tst.value, ref.value, expValue, Threshold(), isNew, old(different), old(wrong));
      }
    }

    /** `harvest_other`: a compare-scalar test harvests the output of its
        other input, next to this one; a script test records the directory
        of the input. */
    method HarvestOther(env: Host.Env, pathInp: string, messages: seq<string>) returns (out: seq<string>)
      requires Valid()
      modifies this`dirname, exp
      ensures spec.ScriptSpec? ==> dirname == Some(Paths.Dirname(pathInp)) && out == messages
      ensures !spec.ScriptSpec? ==> dirname == old(dirname)
      ensures spec.CompareScalarSpec? ==>
                var path := ExpPath(pathInp, spec.expPrefix);
                Held(exp.lines, exp.value) == HarvestedBy(env, path, exp, Held(old(exp.lines), old(exp.value))) &&
                out == messages + FileErrors(env, path, [exp])
      ensures spec.ScalarSpec? ==> out == messages
    {
      match spec {
        case ScalarSpec(_, _, _, _) =>
          out := messages;
        case CompareScalarSpec(expPrefix, _, _, _) =>
          out := HarvestFile(env, ExpPath(pathInp, expPrefix), [exp], messages);
        case ScriptSpec(_, _) =>
          dirname := Some(Paths.Dirname(pathInp));
          out := messages;
      }
    }
  }

  /** The output file of the other input a compare-scalar test reads. */
  function ExpPath(pathInp: string, expPrefix: string): string {
    Paths.Join(Paths.Dirname(pathInp), expPrefix) + ".out"
  }

  // ---------------------------------------------------------------------------
  // Harvesting output files

  /** The lines and value a scalar fragment holds. */
  datatype Held = Held(lines: seq<string>, value: Option<real>)

  /** What `harvest_file(path, [f])` makes of a fragment that held h: every
      line of the file is fed, then the fragment is digested.  A missing file
      changes nothing. */
  function HarvestedBy(env: Host.Env, path: string, f: ScalarFragment, h: Held): (r: Held)
    ensures !env.isFile(path) ==> r == h
  {
    if env.isFile(path) then
      var lines := ScalarFeedAll(f.env, f.regex, h.lines, env.readLines(path));
      Held(lines, ScalarDigest(f.env, lines, f.column, h.value).value)
    else h
  }

  /** Harvesting the same file twice leaves a fragment as harvesting it once. */
  lemma HarvestTwiceIsOnce(env: Host.Env, path: string, f: ScalarFragment, h: Held)
    ensures HarvestedBy(env, path, f, HarvestedBy(env, path, f, h)) == HarvestedBy(env, path, f, h)
  {
    if env.isFile(path) {
      var ls := env.readLines(path);
      var once := ScalarFeedAll(f.env, f.regex, h.lines, ls);
      ScalarKeepsLastMatch(f.env, f.regex, h.lines, ls);
      ScalarKeepsLastMatch(f.env, f.regex, once, ls);
    }
  }

  /** What digesting a fragment depends on besides the value it holds. */
  datatype Source = Source(env: Host.Env, lines: seq<string>, column: int)

  /** The source of fragment f in the current state. */
  function SourceOf(f: ScalarFragment): Source
    reads f`lines
  {
    Source(f.env, f.lines, f.column)
  }

  /** The sources of the fragments, in order. */
  function Sources(frs: seq<ScalarFragment>): (r: seq<Source>)
    reads (set f | f in frs)`lines
    ensures |r| == |frs|
  {
    if frs == [] then [] else Sources(frs[..|frs| - 1]) + [SourceOf(frs[|frs| - 1])]
  }

  /** The traceback a digest records, if any. */
  function DigestMessage(s: Source): (m: seq<string>)
    ensures |m| <= 1
    ensures m != [] <==> ScalarDigest(s.env, s.lines, s.column, None).error.Some?
  {
    var d := ScalarDigest(s.env, s.lines, s.column, None);
    if d.error.Some? then [Traceback(d.error.value)] else []
  }

  /** The tracebacks digests record, in order. */
  function Errors(srcs: seq<Source>): (ms: seq<string>)
    ensures |ms| <= |srcs|
  {
    if srcs == [] then [] else Errors(srcs[..|srcs| - 1]) + DigestMessage(srcs[|srcs| - 1])
  }

  /** The tracebacks `harvest_file` records for the fragments, in order. */
  function DigestMessages(frs: seq<ScalarFragment>): (ms: seq<string>)
    reads (set f | f in frs)`lines
    ensures |ms| <= |frs|
  {
    Errors(Sources(frs))
  }

  /** The messages harvesting path appends: none for a missing file. */
  function FileErrors(env: Host.Env, path: string, frs: seq<ScalarFragment>): (ms: seq<string>)
    reads (set f | f in frs)`lines
    ensures !env.isFile(path) ==> ms == []
  {
    if env.isFile(path) then DigestMessages(frs) else []
  }

  /** The k-th source is that of the k-th fragment. */
  lemma {:induction false} SourcesAt(frs: seq<ScalarFragment>, k: nat)
    requires k < |frs|
    ensures Sources(frs)[k] == SourceOf(frs[k])
  {
    if k < |frs| - 1 {
      SourcesAt(frs[..|frs| - 1], k);
    }
  }

  /** A sequence agreeing with every fragment's source is their sources. */
  lemma {:induction false} SourcesAre(frs: seq<ScalarFragment>, srcs: seq<Source>)
    requires |srcs| == |frs|
    requires forall i :: 0 <= i < |frs| ==> SourceOf(frs[i]) == srcs[i]
    ensures Sources(frs) == srcs
  {
    if frs != [] {
      SourcesAre(frs[..|frs| - 1], srcs[..|srcs| - 1]);
    }
  }

  /** The messages for k + 1 sources extend those for k by one digest. */
  lemma ErrorsSnoc(srcs: seq<Source>, k: nat)
    requires k < |srcs|
    ensures Errors(srcs[..k + 1]) == Errors(srcs[..k]) + DigestMessage(srcs[k])
  {
    assert srcs[..k + 1][..k] == srcs[..k];
  }

  /** A digest's exception does not depend on the value held before. */
  lemma DigestErrorIgnoresValue(env: Host.Env, lines: seq<string>, column: int, v: Option<real>)
    ensures ScalarDigest(env, lines, column, v).error == ScalarDigest(env, lines, column, None).error
  {
  }

  /** Digesting twice leaves the value a single digest leaves. */
  lemma DigestTwiceIsOnce(env: Host.Env, lines: seq<string>, column: int, v: Option<real>)
    ensures var once := ScalarDigest(env, lines, column, v).value;
            ScalarDigest(env, lines, column, once).value == once
  {
  }

  /** `harvest_file`: feeds every line of the file to every fragment, then
      digests each fragment, recording a traceback for each failing digest.
      A fragment may occur more than once. */
  method HarvestFile(env: Host.Env, path: string, frs: seq<ScalarFragment>, messages: seq<string>)
    returns (out: seq<string>)
    modifies set f | f in frs
    ensures forall f :: f in frs ==>
              Held(f.lines, f.value) == HarvestedBy(env, path, f, Held(old(f.lines), old(f.value)))
    ensures out == messages + FileErrors(env, path, frs)
  {
    if !env.isFile(path) {
      return messages;
    }
    FeedLines(env.readLines(path), frs);
    out := DigestAll(frs, messages);
  }

  /** The feeding loop of `harvest_file`: every line to every fragment. */
  method FeedLines(ls: seq<string>, frs: seq<ScalarFragment>)
    modifies (set f | f in frs)`lines
    ensures forall f :: f in frs ==> f.lines == ScalarFeedAll(f.env, f.regex, old(f.lines), ls)
  {
    var i := 0;
    while i < |ls|
      invariant 0 <= i <= |ls|
      invariant forall f :: f in frs ==> f.lines == ScalarFeedAll(f.env, f.regex, old(f.lines), ls[..i])
    {
      FeedLine(ls[i], frs);
      assert ls[..i + 1][..i] == ls[..i];
      i := i + 1;
    }
    assert ls[..i] == ls;
  }

  /** One line to every fragment; a fragment occurring twice sees the line
      twice, which changes nothing more. */
  method FeedLine(line: string, frs: seq<ScalarFragment>)
    modifies (set f | f in frs)`lines
    ensures forall f :: f in frs ==> f.lines == ScalarStep(f.env, f.regex, old(f.lines), line)
  {
    ghost var done: set<ScalarFragment> := {};
    var j := 0;
    while j < |frs|
      invariant 0 <= j <= |frs|
      invariant forall i :: 0 <= i < j ==> frs[i] in done
      invariant forall f :: f in frs ==>
                  f.lines == if f in done then ScalarStep(f.env, f.regex, old(f.lines), line) else old(f.lines)
    {
      var f := frs[j];
      ScalarStepIdempotent(f.env, f.regex, old(f.lines), line);
      f.Feed(line);
      done := done + {f};
      j := j + 1;
    }
  }

  /** The digesting loop of `harvest_file`. */
  method DigestAll(frs: seq<ScalarFragment>, messages: seq<string>) returns (out: seq<string>)
    modifies (set f | f in frs)`value
    ensures forall f :: f in frs ==> f.value == ScalarDigest(f.env, f.lines, f.column, old(f.value)).value
    ensures out == messages + DigestMessages(frs)
  {
    ghost var srcs := Sources(frs);
    ghost var before := map f | f in frs :: f.value;
    ghost var done: set<ScalarFragment> := {};
    out := messages;
    DigestingStarts(frs, srcs, before, messages);
    var k := 0;
    while k < |frs|
      invariant k <= |frs|
      invariant Digesting(frs, k, srcs, before, done, messages, out)
    {
      out, done := DigestStep(frs, k, srcs, before, done, messages, out);
      k := k + 1;
    }
    DigestingEnds(frs, srcs, before, done, messages, out);
  }

  /** Nothing digested: the loop state holds at its start. */
  lemma DigestingStarts(frs: seq<ScalarFragment>, srcs: seq<Source>,
                        before: map<ScalarFragment, Option<real>>, messages: seq<string>)
    requires srcs == Sources(frs)
    requires before == map f | f in frs :: f.value
    ensures Digesting(frs, 0, srcs, before, {}, messages, messages)
  {
    forall i | 0 <= i < |frs|
      ensures srcs[i] == SourceOf(frs[i])
    {
      SourcesAt(frs, i);
    }
  }

  /** Everything digested: the loop state gives the postcondition. */
  lemma DigestingEnds(frs: seq<ScalarFragment>, srcs: seq<Source>,
                      before: map<ScalarFragment, Option<real>>, done: set<ScalarFragment>,
                      messages: seq<string>, out: seq<string>)
    requires Digesting(frs, |frs|, srcs, before, done, messages, out)
    ensures forall f :: f in frs ==> f.value == ScalarDigest(f.env, f.lines, f.column, before[f]).value
    ensures out == messages + DigestMessages(frs)
  {
    assert srcs[..|frs|] == srcs;
    SourcesAre(frs, srcs);
  }

  /** The state of the digesting loop after k fragments. */
  ghost predicate Digesting(frs: seq<ScalarFragment>, k: nat, srcs: seq<Source>,
                            before: map<ScalarFragment, Option<real>>, done: set<ScalarFragment>,
                            messages: seq<string>, out: seq<string>)
    reads (set f | f in frs)`lines, (set f | f in frs)`value
  {
    && k <= |frs| == |srcs|
    && (forall i :: 0 <= i < |frs| ==> srcs[i] == SourceOf(frs[i]))
    && (forall i :: 0 <= i < k ==> frs[i] in done)
    && (forall f :: f in frs ==>
          f in before &&
          f.value == if f in done then ScalarDigest(f.env, f.lines, f.column, before[f]).value else before[f])
    && out == messages + Errors(srcs[..k])
  }

  /** One iteration of the digesting loop, from the state after k fragments
      to the state after k + 1. */
  method DigestStep(frs: seq<ScalarFragment>, k: nat, ghost srcs: seq<Source>,
                    ghost before: map<ScalarFragment, Option<real>>, ghost done: set<ScalarFragment>,
                    ghost messages: seq<string>, out: seq<string>)
    returns (out': seq<string>, ghost done': set<ScalarFragment>)
    requires k < |frs|
    requires Digesting(frs, k, srcs, before, done, messages, out)
    modifies {frs[k]}`value
    ensures Digesting(frs, k + 1, srcs, before, done', messages, out')
  {
    var f := frs[k];
    ErrorsSnoc(srcs, k);
    out' := DigestOne(f, out, srcs[k]);
    AppendAssoc(messages, Errors(srcs[..k]), DigestMessage(srcs[k]));
    if f in done {
      DigestTwiceIsOnce(f.env, f.lines, f.column, before[f]);
    }
    done' := done + {f};
  }

  /** One step of the digesting loop: digest f and record its traceback. */
  method DigestOne(f: ScalarFragment, messages: seq<string>, ghost src: Source) returns (out: seq<string>)
    requires src == SourceOf(f)
    modifies f`value
    ensures f.value == ScalarDigest(f.env, f.lines, f.column, old(f.value)).value
    ensures out == messages + DigestMessage(src)
  {
    ghost var v0 := f.value;
    var e := f.Digest();
    DigestErrorIgnoresValue(f.env, f.lines, f.column, v0);
    out := messages;
    if e.Some? {
      out := out + [Traceback(e.value)];
    }
  }

  /** Each fragment belongs to one test, in one role (tst, ref or exp). */
  ghost predicate Separate(tests: seq<Test>) {
    (forall t :: t in tests ==> t.Valid()) &&
    (forall t, u :: t in tests && u in tests && t.tst != null ==> t.tst != u.ref && t.tst != u.exp) &&
    (forall t, u :: t in tests && u in tests && t.ref != null ==> t.ref != u.exp) &&
    (forall t, u :: t in tests && u in tests && t != u && t.exp != null ==> t.exp != u.exp)
  }

  /** The list holds each test once. */
  ghost predicate Distinct(tests: seq<Test>) {
    forall i, j :: 0 <= i < j < |tests| ==> tests[i] != tests[j]
  }

  function TstFragments(tests: seq<Test>): (r: seq<ScalarFragment>)
    ensures forall f :: f in r ==> exists t :: t in tests && t.tst == f
    ensures forall t :: t in tests && t.tst != null ==> t.tst in r
  {
    if tests == [] then []
    else
      var last := tests[|tests| - 1];
      TstFragments(tests[..|tests| - 1]) + (if last.tst != null then [last.tst] else [])
  }

  function RefFragments(tests: seq<Test>): (r: seq<ScalarFragment>)
    ensures forall f :: f in r ==> exists t :: t in tests && t.ref == f
    ensures forall t :: t in tests && t.ref != null ==> t.ref in r
  {
    if tests == [] then []
    else
      var last := tests[|tests| - 1];
      RefFragments(tests[..|tests| - 1]) + (if last.ref != null then [last.ref] else [])
  }

  function ExpObjects(tests: seq<Test>): set<object> {
    set t | t in tests && t.exp != null :: t.exp as object
  }

  function Objects(tests: seq<Test>): set<object> {
    (set t | t in tests :: t as object) +
    (set t | t in tests && t.tst != null :: t.tst as object) +
    (set t | t in tests && t.ref != null :: t.ref as object) +
    (set t | t in tests && t.exp != null :: t.exp as object)
  }

  /** `harvest_test`: unless the input is new, the reference output (under
      refdir) is harvested into the `ref` fragments; the test output into the
      `tst` fragments; then every test harvests what else it needs. */
  method HarvestTest(env: Host.Env, pathInp: string, pathOut: string, tests: seq<Test>,
                     refdir: string, isNew: bool, messages: seq<string>)
    returns (out: seq<string>)
    requires Separate(tests) && Distinct(tests)
    modifies Objects(tests)
    ensures forall t :: t in tests && t.tst != null ==>
              Held(t.tst.lines, t.tst.value) == HarvestedBy(env, pathOut, t.tst, Held(old(t.tst.lines), old(t.tst.value)))
    ensures forall t :: t in tests && t.ref != null ==>
              Held(t.ref.lines, t.ref.value) ==
                (if isNew then Held(old(t.ref.lines), old(t.ref.value))
                 else HarvestedBy(env, Paths.Join(refdir, pathOut), t.ref, Held(old(t.ref.lines), old(t.ref.value))))
    ensures forall k :: 0 <= k < |tests| ==>
              tests[k].dirname == if tests[k].spec.ScriptSpec? then Some(Paths.Dirname(pathInp)) else old(tests[k].dirname)
    ensures |messages| <= |out| && out[..|messages|] == messages
  {
    RolesApart(tests);
    out := HarvestOutputs(env, pathOut, tests, Paths.Join(refdir, pathOut), isNew, messages);
    var before := out;
    out := HarvestOthers(env, pathInp, tests, out);
    assert out[..|before|] == before;
  }

  /** The first half of `harvest_test`: the reference and test outputs. */
  method HarvestOutputs(env: Host.Env, pathOut: string, tests: seq<Test>, refPath: string,
                        isNew: bool, messages: seq<string>)
    returns (out: seq<string>)
    requires Separate(tests)
    modifies set f | f in RefFragments(tests) + TstFragments(tests)
    ensures forall t :: t in tests && t.tst != null ==>
              Held(t.tst.lines, t.tst.value) == HarvestedBy(env, pathOut, t.tst, Held(old(t.tst.lines), old(t.tst.value)))
    ensures forall t :: t in tests && t.ref != null ==>
              Held(t.ref.lines, t.ref.value) ==
                (if isNew then Held(old(t.ref.lines), old(t.ref.value))
                 else HarvestedBy(env, refPath, t.ref, Held(old(t.ref.lines), old(t.ref.value))))
    ensures |messages| <= |out| && out[..|messages|] == messages
  {
    RolesApart(tests);
    out := messages;
    if !isNew {
      out := HarvestRefs(env, refPath, tests, out);
    }
    var before := out;
    out := HarvestTsts(env, pathOut, tests, out);
    assert out[..|before|] == before;
  }

  /** The reference output into every `ref` fragment; `tst` fragments keep
      what they hold. */
  method HarvestRefs(env: Host.Env, refPath: string, tests: seq<Test>, messages: seq<string>)
    returns (out: seq<string>)
    requires Separate(tests)
    modifies set f | f in RefFragments(tests)
    ensures forall t :: t in tests && t.ref != null ==>
              Held(t.ref.lines, t.ref.value) == HarvestedBy(env, refPath, t.ref, Held(old(t.ref.lines), old(t.ref.value)))
    ensures forall t :: t in tests && t.tst != null ==>
              t.tst.lines == old(t.tst.lines) && t.tst.value == old(t.tst.value)
    ensures |messages| <= |out| && out[..|messages|] == messages
  {
    RolesApart(tests);
    out := HarvestFile(env, refPath, RefFragments(tests), messages);
  }

  /** The test output into every `tst` fragment; `ref` fragments keep what
      they hold. */
  method HarvestTsts(env: Host.Env, pathOut: string, tests: seq<Test>, messages: seq<string>)
    returns (out: seq<string>)
    requires Separate(tests)
    modifies set f | f in TstFragments(tests)
    ensures forall t :: t in tests && t.tst != null ==>
              Held(t.tst.lines, t.tst.value) == HarvestedBy(env, pathOut, t.tst, Held(old(t.tst.lines), old(t.tst.value)))
    ensures forall t :: t in tests && t.ref != null ==>
              t.ref.lines == old(t.ref.lines) && t.ref.value == old(t.ref.value)
    ensures |messages| <= |out| && out[..|messages|] == messages
  {
    RolesApart(tests);
    out := HarvestFile(env, pathOut, TstFragments(tests), messages);
  }

  /** Harvesting one role's fragments leaves the other roles' fragments alone. */
  lemma RolesApart(tests: seq<Test>)
    requires Separate(tests)
    ensures forall t :: t in tests && t.tst != null ==>
              t.tst !in RefFragments(tests) && t.tst !in ExpObjects(tests)
    ensures forall t :: t in tests && t.ref != null ==>
              t.ref !in TstFragments(tests) && t.ref !in ExpObjects(tests)
    ensures forall t :: t in tests && t.exp != null ==>
              t.exp !in TstFragments(tests) && t.exp !in RefFragments(tests)
  {
  }

  /** The loop of `harvest_test` that calls every test's `harvest_other`. */
  method HarvestOthers(env: Host.Env, pathInp: string, tests: seq<Test>, messages: seq<string>)
    returns (out: seq<string>)
    requires Separate(tests) && Distinct(tests)
    modifies (set t | t in tests)`dirname, ExpObjects(tests)
    ensures forall k :: 0 <= k < |tests| ==>
              tests[k].dirname == if tests[k].spec.ScriptSpec? then Some(Paths.Dirname(pathInp)) else old(tests[k].dirname)
    ensures |messages| <= |out| && out[..|messages|] == messages
  {
    ghost var dirs := Dirnames(tests);
    out := messages;
    var i := 0;
    while i < |tests|
      invariant i <= |tests|
      invariant OthersHarvested(tests, i, pathInp, dirs, messages, out)
    {
      out := HarvestOtherStep(env, pathInp, tests, i, dirs, messages, out);
      i := i + 1;
    }
  }

  /** The `dirname` of every test, in order. */
  function Dirnames(tests: seq<Test>): (r: seq<Option<string>>)
    reads (set t | t in tests)`dirname
    ensures |r| == |tests|
    ensures forall k :: 0 <= k < |tests| ==> r[k] == tests[k].dirname
  {
    if tests == [] then [] else Dirnames(tests[..|tests| - 1]) + [tests[|tests| - 1].dirname]
  }

  /** The state of the `harvest_other` loop after i tests, whose `dirname`s
      were dirs before it. */
  ghost predicate OthersHarvested(tests: seq<Test>, i: nat, pathInp: string, dirs: seq<Option<string>>,
                                  messages: seq<string>, out: seq<string>)
    reads (set t | t in tests)`dirname
  {
    && i <= |tests| == |dirs|
    && |messages| <= |out| && out[..|messages|] == messages
    && (forall k :: 0 <= k < i ==>
          tests[k].dirname == if tests[k].spec.ScriptSpec? then Some(Paths.Dirname(pathInp)) else dirs[k])
    && (forall k :: i <= k < |tests| ==> tests[k].dirname == dirs[k])
  }

  /** `harvest_other` as the loop sees it: the `dirname` it sets and the
      messages it appends to. */
  method HarvestOtherOf(t: Test, env: Host.Env, pathInp: string, out: seq<string>) returns (out': seq<string>)
    requires t.Valid()
    modifies t`dirname, t.exp
    ensures t.dirname == if t.spec.ScriptSpec? then Some(Paths.Dirname(pathInp)) else old(t.dirname)
    ensures |out| <= |out'| && out'[..|out|] == out
  {
    out' := t.HarvestOther(env, pathInp, out);
    assert out'[..|out|] == out;
  }

  /** One iteration of the `harvest_other` loop. */
  method HarvestOtherStep(env: Host.Env, pathInp: string, tests: seq<Test>, i: nat,
                          ghost dirs: seq<Option<string>>, ghost messages: seq<string>, out: seq<string>)
    returns (out': seq<string>)
    requires i < |tests| && tests[i].Valid() && Distinct(tests)
    requires OthersHarvested(tests, i, pathInp, dirs, messages, out)
    modifies {tests[i]}`dirname, tests[i].exp
    ensures OthersHarvested(tests, i + 1, pathInp, dirs, messages, out')
  {
    var t := tests[i];
    out' := HarvestOtherOf(t, env, pathInp, out);
    forall k | 0 <= k < i
      ensures tests[k].dirname ==
              if tests[k].spec.ScriptSpec? then Some(Paths.Dirname(pathInp)) else dirs[k]
    {
      assert tests[k] != t;
    }
    forall k | i < k < |tests|
      ensures tests[k].dirname == dirs[k]
    {
      assert tests[k] != t;
    }
    assert out[..|messages|] == messages;
  }
}
