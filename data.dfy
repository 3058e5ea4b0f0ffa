/** Reading a CP2K input file for its `#CPQA` directives (cpqa/data.py,
    TestInput and TestResult). */
module Data {
  import opened Wrappers
  import opened PyStr
  import Host
  import Paths
  import opened Tests

  /** A scanned input file.  `tests` holds what each TEST directive's factory
      handed back, `depends` the prefixes of the inputs this one needs, and
      `extraPaths` the auxiliary files it reads. */
  datatype TestInput = TestInput(
    fn: string,
    prefix: string,
    active: bool,
    numResets: nat,
    tests: seq<Made>,
    depends: seq<string>,
    extraPaths: seq<string>)

  /** The state before the first line. */
  function Initial(fn: string, prefix: string): TestInput {
    TestInput(fn, prefix, false, 0, [], [], [])
  }

  // ---------------------------------------------------------------------------
  // One line

  /** A directive line begins with "#CPQA " (with the space). */
  predicate IsDirective(line: string) {
    StartsWith(line, "#CPQA ")
  }

  /** The directive itself: what follows "#CPQA ", stripped. */
  function Body(line: string): string
    requires IsDirective(line)
  {
    Strip(line[6..])
  }

  predicate IsReset(line: string) {
    IsDirective(line) && StartsWith(Body(line), "RESET")
  }

  predicate IsTest(line: string) {
    IsDirective(line) && !StartsWith(Body(line), "RESET") && StartsWith(Body(line), "TEST ")
  }

  predicate IsDepends(line: string) {
    IsDirective(line) && !StartsWith(Body(line), "RESET") && !StartsWith(Body(line), "TEST ") &&
    StartsWith(Body(line), "DEPENDS ")
  }

  /** The test of a TEST directive whose arguments are rest: shlex splits
      them, the lower-cased first word selects the factory, the other words
      go to it. */
  function TestOf(env: Host.Env, factories: Factories, rest: string): (r: Result<Made>)
    ensures env.shlexSplit(rest).None? ==> r.Err? && r.error.ValueError?
    ensures env.shlexSplit(rest) == Some([]) ==> r == Err(IndexError)
    ensures r.Ok? ==> env.shlexSplit(rest).Some? && |env.shlexSplit(rest).value| >= 1
    ensures env.shlexSplit(rest).Some? && |env.shlexSplit(rest).value| >= 1 ==>
              var words := env.shlexSplit(rest).value;
              (Lower(words[0]) !in factories ==> r == Err(KeyError(Lower(words[0])))) &&
              (Lower(words[0]) in factories ==> r == factories[Lower(words[0])](env, words[1..]))
  {
    match env.shlexSplit(rest)
    case None => Err(ValueError("No closing quotation"))
    case Some(words) =>
      if words == [] then Err(IndexError)
      else
        var key := Lower(words[0]);
        if key in factories then factories[key](env, words[1..]) else Err(KeyError(key))
  }

  /** The prefix a DEPENDS argument names: its last four characters (the
      ".inp") dropped, relative to the directory of this input's prefix. */
  function DependPath(prefix: string, arg: string): string
  {
    Paths.Join(Paths.Dirname(prefix), SliceTo(arg, -4))
  }

  /** A dependency names the argument without its last four characters, in
      the directory of the prefix; a prefix at the top level names it
      as it stands. */
  lemma DependPathDropsSuffix(prefix: string, arg: string)
    requires |arg| >= 4
    ensures EndsWith(DependPath(prefix, arg), arg[..|arg| - 4])
    ensures Paths.Dirname(prefix) == [] ==> DependPath(prefix, arg) == arg[..|arg| - 4]
  {
    Paths.JoinEndsWith(Paths.Dirname(prefix), arg[..|arg| - 4]);
  }

  predicate Quoted(x: string, q: char) {
    |x| > 0 && x[0] == q && x[|x| - 1] == q
  }

  /** The auxiliary file name an ordinary line may mention: the second of
      exactly two words, longer than one character and not "..", with one
      pair of surrounding quotes removed. */
  function ExtraName(line: string): (r: Option<string>)
  {
    var ws := Words(line);
    if |ws| == 2 && |ws[1]| > 1 && ws[1] != ".." then
      var x := ws[1];
      if Quoted(x, '"') || Quoted(x, '\'') then Some(x[1..|x| - 1]) else Some(x)
    else None
  }

  /** An auxiliary name is one of exactly two words and holds no space. */
  lemma ExtraNameIsWord(line: string)
    ensures ExtraName(line).Some? ==> |Words(line)| == 2 && NoSpace(ExtraName(line).value)
  {
    WordsAreWords(line);
  }

  /** Where an auxiliary file is recorded: next to the prefix, normalised. */
  function ExtraPath(env: Host.Env, prefix: string, name: string): string {
    env.normpath(Paths.Join(Paths.Dirname(prefix), name))
  }

  /** The auxiliary path an ordinary line contributes: only a name that
      exists next to the input file itself. */
  function ExtraOf(env: Host.Env, fn: string, prefix: string, line: string): (r: Option<string>)
    ensures r.Some? <==> !IsDirective(line) && ExtraName(line).Some? &&
                         env.isFile(Paths.Join(Paths.Dirname(fn), ExtraName(line).value))
    ensures r.Some? ==> r.value == ExtraPath(env, prefix, ExtraName(line).value)
  {
    if IsDirective(line) then None
    else
      match ExtraName(line)
      case None => None
      case Some(x) =>
        if env.isFile(Paths.Join(Paths.Dirname(fn), x)) then Some(ExtraPath(env, prefix, x)) else None
  }

  /** A TEST line whose factory call raises. */
  predicate Fails(env: Host.Env, factories: Factories, line: string) {
    IsTest(line) && TestOf(env, factories, Body(line)[5..]).Err?
  }

  function Opt<T>(o: Option<T>): (r: seq<T>)
    ensures |r| <= 1 && (r != [] <==> o.Some?)
    ensures o.Some? ==> r == [o.value]
  {
    if o.Some? then [o.value] else []
  }

  /** The test a TEST line adds, unless its factory call raises. */
  function TestLineOf(env: Host.Env, factories: Factories, line: string): Option<Made> {
    if IsTest(line) && TestOf(env, factories, Body(line)[5..]).Ok? then Some(TestOf(env, factories, Body(line)[5..]).value) else None
  }

  /** The dependency a DEPENDS line adds. */
  function DependsOf(prefix: string, line: string): Option<string> {
    if IsDepends(line) then Some(DependPath(prefix, Strip(Body(line)[8..]))) else None
  }

  /** The body of the reading loop for one line. */
  function ScanLine(env: Host.Env, factories: Factories, fn: string, prefix: string, t: TestInput, line: string): Result<TestInput>
  {
    if IsDirective(line) then
      var body := Body(line);
      var u := t.(active := true);
      if StartsWith(body, "RESET") then Ok(u.(numResets := u.numResets + 1))
      else if StartsWith(body, "TEST ") then
        match TestOf(env, factories, body[5..])
        case Err(e) => Err(e)
        case Ok(m) => Ok(u.(tests := u.tests + [m]))
      else if StartsWith(body, "DEPENDS ") then
        Ok(u.(depends := u.depends + [DependPath(prefix, Strip(body[8..]))]))
      else Ok(u)
    else
      match ExtraOf(env, fn, prefix, line)
      case None => Ok(t)
      case Some(p) => Ok(t.(extraPaths := t.extraPaths + [p]))
  }

  /** The reading loop over lines, stopped by the first exception. */
  function Scan(env: Host.Env, factories: Factories, fn: string, prefix: string, t: TestInput, lines: seq<string>): Result<TestInput>
    decreases |lines|
  {
    if lines == [] then Ok(t)
    else
      match Scan(env, factories, fn, prefix, t, lines[..|lines| - 1])
      case Err(e) => Err(e)
      case Ok(u) => ScanLine(env, factories, fn, prefix, u, lines[|lines| - 1])
  }

  // ---------------------------------------------------------------------------
  // What one line does

  lemma ScanLineFails(env: Host.Env, factories: Factories, fn: string, prefix: string, t: TestInput, line: string)
    ensures ScanLine(env, factories, fn, prefix, t, line).Ok? <==> !Fails(env, factories, line)
  {
  }

  lemma ScanLineKeeps(env: Host.Env, factories: Factories, fn: string, prefix: string, t: TestInput, line: string)
    requires ScanLine(env, factories, fn, prefix, t, line).Ok?
    ensures ScanLine(env, factories, fn, prefix, t, line).value.fn == t.fn
    ensures ScanLine(env, factories, fn, prefix, t, line).value.prefix == t.prefix
  {
  }

  lemma ScanLineActive(env: Host.Env, factories: Factories, fn: string, prefix: string, t: TestInput, line: string)
    requires ScanLine(env, factories, fn, prefix, t, line).Ok?
    ensures ScanLine(env, factories, fn, prefix, t, line).value.active <==> t.active || IsDirective(line)
  {
  }

  lemma ScanLineResets(env: Host.Env, factories: Factories, fn: string, prefix: string, t: TestInput, line: string)
    requires ScanLine(env, factories, fn, prefix, t, line).Ok?
    ensures ScanLine(env, factories, fn, prefix, t, line).value.numResets == t.numResets + (if IsReset(line) then 1 else 0)
  {
  }

  lemma ScanLineTests(env: Host.Env, factories: Factories, fn: string, prefix: string, t: TestInput, line: string)
    requires ScanLine(env, factories, fn, prefix, t, line).Ok?
    ensures ScanLine(env, factories, fn, prefix, t, line).value.tests == t.tests + Opt(TestLineOf(env, factories, line))
  {
  }

  lemma ScanLineDepends(env: Host.Env, factories: Factories, fn: string, prefix: string, t: TestInput, line: string)
    requires ScanLine(env, factories, fn, prefix, t, line).Ok?
    ensures ScanLine(env, factories, fn, prefix, t, line).value.depends == t.depends + Opt(DependsOf(prefix, line))
  {
  }

  lemma ScanLineExtras(env: Host.Env, factories: Factories, fn: string, prefix: string, t: TestInput, line: string)
    requires ScanLine(env, factories, fn, prefix, t, line).Ok?
    ensures ScanLine(env, factories, fn, prefix, t, line).value.extraPaths ==
            t.extraPaths + Opt(ExtraOf(env, fn, prefix, line))
  {
  }

  // ---------------------------------------------------------------------------
  // What the scan collects, line by line

  /** Some line is a directive. */
  predicate AnyDirective(lines: seq<string>)
    decreases |lines|
  {
    lines != [] && (AnyDirective(lines[..|lines| - 1]) || IsDirective(lines[|lines| - 1]))
  }

  /** The number of RESET lines. */
  function Resets(lines: seq<string>): (n: nat)
    ensures n <= |lines|
    decreases |lines|
  {
    if lines == [] then 0 else Resets(lines[..|lines| - 1]) + (if IsReset(lines[|lines| - 1]) then 1 else 0)
  }

  /** The tests of the TEST lines, in file order. */
  function TestsIn(env: Host.Env, factories: Factories, lines: seq<string>): (r: seq<Made>)
    ensures |r| <= |lines|
    decreases |lines|
  {
    if lines == [] then [] else TestsIn(env, factories, lines[..|lines| - 1]) + Opt(TestLineOf(env, factories, lines[|lines| - 1]))
  }

  /** The dependencies of the DEPENDS lines, in file order. */
  function DependsIn(prefix: string, lines: seq<string>): (r: seq<string>)
    ensures |r| <= |lines|
    decreases |lines|
  {
    if lines == [] then [] else DependsIn(prefix, lines[..|lines| - 1]) + Opt(DependsOf(prefix, lines[|lines| - 1]))
  }

  /** The auxiliary paths of the ordinary lines, in file order. */
  function ExtrasIn(env: Host.Env, fn: string, prefix: string, lines: seq<string>): (r: seq<string>)
    ensures |r| <= |lines|
    decreases |lines|
  {
    if lines == [] then []
    else ExtrasIn(env, fn, prefix, lines[..|lines| - 1]) + Opt(ExtraOf(env, fn, prefix, lines[|lines| - 1]))
  }

  /** The scan raises iff some TEST line's factory call does. */
  lemma {:induction false} ScanFails(env: Host.Env, factories: Factories, fn: string, prefix: string, t: TestInput, lines: seq<string>)
    ensures Scan(env, factories, fn, prefix, t, lines).Ok? <==> NoneOf(l => Fails(env, factories, l), lines)
    decreases |lines|
  {
    if lines != [] {
      var init := lines[..|lines| - 1];
      ScanFails(env, factories, fn, prefix, t, init);
      if Scan(env, factories, fn, prefix, t, init).Ok? {
        ScanLineFails(env, factories, fn, prefix, Scan(env, factories, fn, prefix, t, init).value, lines[|lines| - 1]);
      }
    }
  }

  /** A scan that does not raise keeps fn and prefix. */
  lemma {:induction false} ScanKeeps(env: Host.Env, factories: Factories, fn: string, prefix: string, t: TestInput, lines: seq<string>)
    requires Scan(env, factories, fn, prefix, t, lines).Ok?
    ensures Scan(env, factories, fn, prefix, t, lines).value.fn == t.fn
    ensures Scan(env, factories, fn, prefix, t, lines).value.prefix == t.prefix
    decreases |lines|
  {
    if lines != [] {
      var init := lines[..|lines| - 1];
      ScanKeeps(env, factories, fn, prefix, t, init);
      ScanLineKeeps(env, factories, fn, prefix, Scan(env, factories, fn, prefix, t, init).value, lines[|lines| - 1]);
    }
  }

  /** In a scan that does not raise, a directive line makes the input active, and nothing else does. */
  lemma {:induction false} ScanActive(env: Host.Env, factories: Factories, fn: string, prefix: string, t: TestInput, lines: seq<string>)
    requires Scan(env, factories, fn, prefix, t, lines).Ok?
    ensures (Scan(env, factories, fn, prefix, t, lines).value.active <==> t.active || AnyDirective(lines))
    decreases |lines|
  {
    if lines != [] {
      var init := lines[..|lines| - 1];
      ScanActive(env, factories, fn, prefix, t, init);
      ScanLineActive(env, factories, fn, prefix, Scan(env, factories, fn, prefix, t, init).value, lines[|lines| - 1]);
    }
  }

  /** In a scan that does not raise, every RESET line is counted once. */
  lemma {:induction false} ScanCountsResets(env: Host.Env, factories: Factories, fn: string, prefix: string, t: TestInput, lines: seq<string>)
    requires Scan(env, factories, fn, prefix, t, lines).Ok?
    ensures Scan(env, factories, fn, prefix, t, lines).value.numResets == t.numResets + Resets(lines)
    decreases |lines|
  {
    if lines != [] {
      var init := lines[..|lines| - 1];
      ScanCountsResets(env, factories, fn, prefix, t, init);
      ScanLineResets(env, factories, fn, prefix, Scan(env, factories, fn, prefix, t, init).value, lines[|lines| - 1]);
    }
  }

  /** In a scan that does not raise, every TEST line adds its test, in file order. */
  lemma {:induction false} ScanCollectsTests(env: Host.Env, factories: Factories, fn: string, prefix: string, t: TestInput, lines: seq<string>)
    requires Scan(env, factories, fn, prefix, t, lines).Ok?
    ensures Scan(env, factories, fn, prefix, t, lines).value.tests == t.tests + TestsIn(env, factories, lines)
    decreases |lines|
  {
    if lines != [] {
      var init := lines[..|lines| - 1];
      ScanCollectsTests(env, factories, fn, prefix, t, init);
      ScanLineTests(env, factories, fn, prefix, Scan(env, factories, fn, prefix, t, init).value, lines[|lines| - 1]);
      AppendAssoc(t.tests, TestsIn(env, factories, init), Opt(TestLineOf(env, factories, lines[|lines| - 1])));
    }
  }

  /** In a scan that does not raise, every DEPENDS line adds its dependency, in file order. */
  lemma {:induction false} ScanCollectsDepends(env: Host.Env, factories: Factories, fn: string, prefix: string, t: TestInput, lines: seq<string>)
    requires Scan(env, factories, fn, prefix, t, lines).Ok?
    ensures Scan(env, factories, fn, prefix, t, lines).value.depends == t.depends + DependsIn(prefix, lines)
    decreases |lines|
  {
    if lines != [] {
      var init := lines[..|lines| - 1];
      ScanCollectsDepends(env, factories, fn, prefix, t, init);
      ScanLineDepends(env, factories, fn, prefix, Scan(env, factories, fn, prefix, t, init).value, lines[|lines| - 1]);
      AppendAssoc(t.depends, DependsIn(prefix, init), Opt(DependsOf(prefix, lines[|lines| - 1])));
    }
  }

  /** In a scan that does not raise, every ordinary line that names an existing file adds its path, in file order. */
  lemma {:induction false} ScanCollectsExtras(env: Host.Env, factories: Factories, fn: string, prefix: string, t: TestInput, lines: seq<string>)
    requires Scan(env, factories, fn, prefix, t, lines).Ok?
    ensures Scan(env, factories, fn, prefix, t, lines).value.extraPaths ==
            t.extraPaths + ExtrasIn(env, fn, prefix, lines)
    decreases |lines|
  {
    if lines != [] {
      var init := lines[..|lines| - 1];
      ScanCollectsExtras(env, factories, fn, prefix, t, init);
      ScanLineExtras(env, factories, fn, prefix, Scan(env, factories, fn, prefix, t, init).value, lines[|lines| - 1]);
      AppendAssoc(t.extraPaths, ExtrasIn(env, fn, prefix, init), Opt(ExtraOf(env, fn, prefix, lines[|lines| - 1])));
    }
  }

  /** Lines are read one at a time: the scan of a longer file continues the
      scan of its beginning. */
  lemma {:induction false} ScanAppend(env: Host.Env, factories: Factories, fn: string, prefix: string, t: TestInput, a: seq<string>, b: seq<string>)
    ensures Scan(env, factories, fn, prefix, t, a + b) ==
            match Scan(env, factories, fn, prefix, t, a)
            case Err(e) => Err(e)
            case Ok(u) => Scan(env, factories, fn, prefix, u, b)
    decreases |b|
  {
    if b == [] {
      assert a + b == a;
    } else {
      assert (a + b)[..|a + b| - 1] == a + b[..|b| - 1];
      ScanAppend(env, factories, fn, prefix, t, a, b[..|b| - 1]);
    }
  }

  // ---------------------------------------------------------------------------
  // The files the tests need

  /** The paths of fns_extra of every test.  An entry that is an exception
      object (a script factory's TypeError) has no such attribute. */
  function TestExtras(env: Host.Env, prefix: string, tests: seq<Made>): Result<seq<string>>
    decreases |tests|
  {
    if tests == [] then Ok([])
    else
      match TestExtras(env, prefix, tests[..|tests| - 1])
      case Err(e) => Err(e)
      case Ok(ps) =>
        match tests[|tests| - 1]
        case Returned(_) => Err(AttributeError("fns_extra"))
        case Built(spec) => Ok(ps + ExtraPaths(env, prefix, FnsExtra(spec)))
  }

  function ExtraPaths(env: Host.Env, prefix: string, names: seq<string>): (r: seq<string>)
    ensures |r| == |names|
  {
    if names == [] then [] else ExtraPaths(env, prefix, names[..|names| - 1]) + [ExtraPath(env, prefix, names[|names| - 1])]
  }

  /** The entry is the exception a factory returned rather than a test. */
  predicate NotATest(m: Made) {
    m.Returned?
  }

  /** Collecting the files fails iff some entry is not a test, and then with
      an AttributeError for `fns_extra`. */
  lemma TestExtrasFails(env: Host.Env, prefix: string, tests: seq<Made>)
    ensures TestExtras(env, prefix, tests).Ok? <==> forall k :: 0 <= k < |tests| ==> tests[k].Built?
    ensures TestExtras(env, prefix, tests).Err? ==> TestExtras(env, prefix, tests).error == AttributeError("fns_extra")
  {
    TestExtrasStops(env, prefix, tests);
    NoneOfAll(NotATest, tests);
  }

  lemma {:induction false} TestExtrasStops(env: Host.Env, prefix: string, tests: seq<Made>)
    ensures TestExtras(env, prefix, tests).Ok? <==> NoneOf(NotATest, tests)
    ensures TestExtras(env, prefix, tests).Err? ==> TestExtras(env, prefix, tests).error == AttributeError("fns_extra")
    decreases |tests|
  {
    if tests != [] {
      TestExtrasStops(env, prefix, tests[..|tests| - 1]);
    }
  }

  /** The first entry that is not a test stops the collection. */
  lemma {:induction false} TestExtrasStopAt(env: Host.Env, prefix: string, tests: seq<Made>, k: nat)
    requires k < |tests| && tests[k].Returned? && TestExtras(env, prefix, tests[..k]).Ok?
    ensures TestExtras(env, prefix, tests) == Err(AttributeError("fns_extra"))
    decreases |tests|
  {
    if k < |tests| - 1 {
      var init := tests[..|tests| - 1];
      assert init[..k] == tests[..k];
      TestExtrasStopAt(env, prefix, init, k);
    } else {
      assert tests[..|tests| - 1] == tests[..k];
    }
  }

  /** The recorded paths of the scripts of the script tests, in order. */
  function Scripts(env: Host.Env, prefix: string, tests: seq<Made>): (r: seq<string>)
    ensures |r| <= |tests|
    decreases |tests|
  {
    if tests == [] then []
    else
      var m := tests[|tests| - 1];
      Scripts(env, prefix, tests[..|tests| - 1]) +
      (if m.Built? && m.spec.ScriptSpec? then [ExtraPath(env, prefix, m.spec.script)] else [])
  }

  /** The files the tests need are exactly the scripts of the script tests,
      in order. */
  lemma {:induction false} TestExtrasAreScripts(env: Host.Env, prefix: string, tests: seq<Made>)
    requires forall k :: 0 <= k < |tests| ==> tests[k].Built?
    ensures TestExtras(env, prefix, tests) == Ok(Scripts(env, prefix, tests))
    decreases |tests|
  {
    if tests != [] {
      TestExtrasAreScripts(env, prefix, tests[..|tests| - 1]);
      var m := tests[|tests| - 1];
      if m.spec.ScriptSpec? {
        assert ExtraPaths(env, prefix, [m.spec.script]) == [ExtraPath(env, prefix, m.spec.script)];
      }
    }
  }

  /** `TestInput(fn, prefix)`: opening fn, the scan, then the files every
      test needs. */
  function Loaded(env: Host.Env, fn: string, prefix: string): Result<TestInput> {
    match Host.Open(env, fn)
    case Err(e) => Err(e)
    case Ok(lines) =>
      match Scan(env, TestFactories(), fn, prefix, Initial(fn, prefix), lines)
      case Err(e) => Err(e)
      case Ok(u) =>
        match TestExtras(env, prefix, u.tests)
        case Err(e) => Err(e)
        case Ok(ps) => Ok(u.(extraPaths := u.extraPaths + ps))
  }

  /** The constructor as written asks every test for `extra_inputs`, an
      attribute no test has. */
  function LoadedAsWritten(env: Host.Env, fn: string, prefix: string): Result<TestInput> {
    match Host.Open(env, fn)
    case Err(e) => Err(e)
    case Ok(lines) =>
      match Scan(env, TestFactories(), fn, prefix, Initial(fn, prefix), lines)
      case Err(e) => Err(e)
      case Ok(u) => if u.tests != [] then Err(AttributeError("extra_inputs")) else Ok(u)
  }

  /** Both readings of the constructor raise IOError, before scanning
      anything, when fn is not a regular file. */
  lemma LoadedNeedsFile(env: Host.Env, fn: string, prefix: string)
    ensures !env.isFile(fn) ==> Loaded(env, fn, prefix).Err? && Loaded(env, fn, prefix).error.IOError?
    ensures !env.isFile(fn) ==>
              LoadedAsWritten(env, fn, prefix).Err? && LoadedAsWritten(env, fn, prefix).error.IOError?
    ensures Loaded(env, fn, prefix).Ok? || LoadedAsWritten(env, fn, prefix).Ok? ==> env.isFile(fn)
  {
  }

  /** As written, every input with a TEST directive fails to load, although
      its tests were all built; reading `fns_extra` instead loads it and
      records the scripts the tests need. */
  lemma AsWrittenRejectsEveryTest(env: Host.Env, fn: string, prefix: string)
    requires env.isFile(fn)
    requires Scan(env, TestFactories(), fn, prefix, Initial(fn, prefix), env.readLines(fn)).Ok?
    requires var u := Scan(env, TestFactories(), fn, prefix, Initial(fn, prefix), env.readLines(fn)).value;
             u.tests != [] && forall k :: 0 <= k < |u.tests| ==> u.tests[k].Built?
    ensures LoadedAsWritten(env, fn, prefix) == Err(AttributeError("extra_inputs"))
    ensures Loaded(env, fn, prefix).Ok?
  {
    TestExtrasFails(env, prefix, Scan(env, TestFactories(), fn, prefix, Initial(fn, prefix), env.readLines(fn)).value.tests);
  }

  /** A loaded input keeps the scanned auxiliary paths, then adds the
      script of every script test. */
  lemma LoadedRecordsScripts(env: Host.Env, fn: string, prefix: string)
    requires Loaded(env, fn, prefix).Ok?
    ensures var u := Scan(env, TestFactories(), fn, prefix, Initial(fn, prefix), env.readLines(fn)).value;
            Loaded(env, fn, prefix).value ==
              u.(extraPaths := u.extraPaths + Scripts(env, prefix, u.tests))
  {
    var u := Scan(env, TestFactories(), fn, prefix, Initial(fn, prefix), env.readLines(fn)).value;
    TestExtrasFails(env, prefix, u.tests);
    TestExtrasAreScripts(env, prefix, u.tests);
  }

  /** A loaded input has the name and prefix it was given. */
  lemma LoadedKeeps(env: Host.Env, fn: string, prefix: string)
    ensures Loaded(env, fn, prefix).Ok? ==>
              Loaded(env, fn, prefix).value.fn == fn && Loaded(env, fn, prefix).value.prefix == prefix
  {
    if env.isFile(fn) && Scan(env, TestFactories(), fn, prefix, Initial(fn, prefix), env.readLines(fn)).Ok? {
      ScanKeeps(env, TestFactories(), fn, prefix, Initial(fn, prefix), env.readLines(fn));
    }
  }

  /** A loaded input is active iff its file holds a directive. */
  lemma LoadedActive(env: Host.Env, fn: string, prefix: string)
    ensures Loaded(env, fn, prefix).Ok? ==>
              (Loaded(env, fn, prefix).value.active <==> AnyDirective(env.readLines(fn)))
  {
    if env.isFile(fn) && Scan(env, TestFactories(), fn, prefix, Initial(fn, prefix), env.readLines(fn)).Ok? {
      ScanActive(env, TestFactories(), fn, prefix, Initial(fn, prefix), env.readLines(fn));
    }
  }

  // ---------------------------------------------------------------------------
  // The constructor

  /** `TestInput.__init__(fn, prefix)`: reads the lines of fn one by one,
      then collects the files the tests need.  Returns the exception it
      raises, if any. */
  method Load(env: Host.Env, fn: string, prefix: string) returns (r: Result<TestInput>)
    ensures r == Loaded(env, fn, prefix)
  {
    var factories := TestFactories();
    var contents := Host.Open(env, fn);
    if contents.Err? {
      return Err(contents.error);
    }
    var lines := contents.value;
    var t := Initial(fn, prefix);
    var i := 0;
    while i < |lines|
      invariant 0 <= i <= |lines|
      invariant Scan(env, factories, fn, prefix, Initial(fn, prefix), lines[..i]) == Ok(t)
    {
      assert lines[..i + 1][..i] == lines[..i];
      var next := ReadLine(env, factories, fn, prefix, t, lines[i]);
      if next.Err? {
        ScanAppend(env, factories, fn, prefix, Initial(fn, prefix), lines[..i + 1], lines[i + 1..]);
        assert lines[..i + 1] + lines[i + 1..] == lines;
        return Err(next.error);
      }
      t := next.value;
      i := i + 1;
    }
    assert lines[..i] == lines;
    var extras := AddTestExtras(env, prefix, t.tests, t.extraPaths);
    if extras.Err? {
      return Err(extras.error);
    }
    r := Ok(t.(extraPaths := extras.value));
  }

  /** The loop over the tests of `TestInput.__init__`: appends to paths the
      files every test needs. */
  method AddTestExtras(env: Host.Env, prefix: string, tests: seq<Made>, paths: seq<string>)
    returns (r: Result<seq<string>>)
    ensures r == match TestExtras(env, prefix, tests)
                 case Err(e) => Err(e)
                 case Ok(ps) => Ok(paths + ps)
  {
    var out := paths;
    ghost var found: seq<string> := [];
    var k := 0;
    while k < |tests|
      invariant 0 <= k <= |tests|
      invariant TestExtras(env, prefix, tests[..k]) == Ok(found)
      invariant out == paths + found
    {
      assert tests[..k + 1][..k] == tests[..k];
      match tests[k] {
        case Returned(_) =>
          TestExtrasStopAt(env, prefix, tests, k);
          return Err(AttributeError("fns_extra"));
        case Built(spec) =>
          out := AddPaths(env, prefix, FnsExtra(spec), out);
          found := found + ExtraPaths(env, prefix, FnsExtra(spec));
      }
      k := k + 1;
    }
    assert tests[..k] == tests;
    r := Ok(out);
  }

  /** The inner loop: appends the recorded path of every name. */
  method AddPaths(env: Host.Env, prefix: string, names: seq<string>, paths: seq<string>) returns (out: seq<string>)
    ensures out == paths + ExtraPaths(env, prefix, names)
  {
    out := paths;
    var j := 0;
    while j < |names|
      invariant 0 <= j <= |names|
      invariant out == paths + ExtraPaths(env, prefix, names[..j])
    {
      assert names[..j + 1][..j] == names[..j];
      AppendAssoc(paths, ExtraPaths(env, prefix, names[..j]), [ExtraPath(env, prefix, names[j])]);
      out := out + [ExtraPath(env, prefix, names[j])];
      j := j + 1;
    }
    assert names[..j] == names;
  }

  /** One pass of the reading loop: what the line does to the input read so
      far, or the exception it raises. */
  method ReadLine(env: Host.Env, factories: Factories, fn: string, prefix: string, t: TestInput, line: string) returns (r: Result<TestInput>)
    ensures r == ScanLine(env, factories, fn, prefix, t, line)
  {
    r := Ok(t);
    if StartsWith(line, "#CPQA ") {
      var body := Strip(line[6..]);
      r := Ok(r.value.(active := true));
      if StartsWith(body, "RESET") {
        r := Ok(r.value.(numResets := r.value.numResets + 1));
      } else if StartsWith(body, "TEST ") {
        var m := TestOf(env, factories, body[5..]);
        if m.Err? {
          return Err(m.error);
        }
        r := Ok(r.value.(tests := r.value.tests + [m.value]));
      } else if StartsWith(body, "DEPENDS ") {
        r := Ok(r.value.(depends := r.value.depends + [DependPath(prefix, Strip(body[8..]))]));
      }
    } else {
      var extra := ExtraOf(env, fn, prefix, line);
      if extra.Some? {
        r := Ok(r.value.(extraPaths := r.value.extraPaths + [extra.value]));
      }
    }
  }

  // ---------------------------------------------------------------------------
  // Results

  /** What one run of an input produced.  `secondsScript` is the time spent
      outside CP2K itself. */
  datatype TestResult = TestResult(
    prefix: string,
    flags: map<string, bool>,
    secondsCp2k: real,
    seconds: real,
    tests: seq<TestSpec>,
    messages: seq<string>,
    lastOutLines: seq<string>,
    lastOLines: seq<string>,
    lastELines: seq<string>,
    secondsScript: real)

  /** `TestResult(...)`: the script's share of the time is derived. */
  function NewTestResult(prefix: string, flags: map<string, bool>, secondsCp2k: real, seconds: real,
                         tests: seq<TestSpec>, messages: seq<string>,
                         lastOutLines: seq<string>, lastOLines: seq<string>, lastELines: seq<string>): (r: TestResult)
    ensures r.secondsCp2k + r.secondsScript == r.seconds
    ensures r.prefix == prefix && r.flags == flags && r.secondsCp2k == secondsCp2k && r.seconds == seconds
    ensures r.tests == tests && r.messages == messages
    ensures r.lastOutLines == lastOutLines && r.lastOLines == lastOLines && r.lastELines == lastELines
  {
    TestResult(prefix, flags, secondsCp2k, seconds, tests, messages, lastOutLines, lastOLines, lastELines,
               seconds - secondsCp2k)
  }
}
