/** The job script `make` runs for every input (scripts/cpqa-driver.py): it
    runs CP2K, harvests the output, runs the tests, sets the status flags,
    promotes the output to the reference directory when that is due, and
    prints a status line. */
module Driver {
  import opened Wrappers
  import opened PyStr
  import Host
  import Paths
  import Data
  import opened Fragments
  import opened Tests

  // ---------------------------------------------------------------------------
  // Arguments

  datatype Args = Args(cp2kBin: string, tstpath: string, refdir: string, mpiPrefix: string)

  /** `parse_args`: three or four arguments, the first an existing file. */
  function ParseArgs(env: Host.Env, args: seq<string>): (r: Result<Args>)
  {
    if |args| != 3 && |args| != 4 then Err(TypeError("Excpecting three or four arguments."))
    else if !env.isFile(args[0]) then Err(ValueError("CP2K binary \"" + args[0] + "\" not found."))
    else Ok(Args(args[0], args[1], args[2], if |args| == 4 then args[3] else ""))
  }

  /** Three arguments leave the MPI prefix empty, a fourth one is the MPI
      prefix; any other count is a TypeError and a missing binary a
      ValueError. */
  lemma ParseArgsCases(env: Host.Env, args: seq<string>)
    ensures ParseArgs(env, args).Ok? <==> (|args| == 3 || |args| == 4) && env.isFile(args[0])
    ensures |args| != 3 && |args| != 4 ==> ParseArgs(env, args).Err? && ParseArgs(env, args).error.TypeError?
    ensures (|args| == 3 || |args| == 4) && !env.isFile(args[0]) ==>
              ParseArgs(env, args).Err? && ParseArgs(env, args).error.ValueError?
    ensures ParseArgs(env, args).Ok? ==>
              var a := ParseArgs(env, args).value;
              [a.cp2kBin, a.tstpath, a.refdir] == args[..3] &&
              a.mpiPrefix == (if |args| == 4 then args[3] else "")
  {
  }

  // ---------------------------------------------------------------------------
  // Flags

  /** The `flags` dictionary; `isNew` is the key "new". */
  datatype Flags = Flags(
    failed: bool, verbose: bool, isNew: bool, reset: bool, error: bool,
    missing: bool, wrong: bool, different: bool, ok: bool)

  /** The verdict of the job: nothing went wrong, and a changed result is
      excused only by a new RESET directive. */
  function Passed(wrong: bool, different: bool, reset: bool, missing: bool, failed: bool, error: bool): (ok: bool)
  {
    !(wrong || (different && !reset) || missing || failed || error)
  }

  /** A job is fine iff no problem flag is raised, except that a changed
      result is fine once the input has more RESET directives. */
  lemma OkMeans(wrong: bool, different: bool, reset: bool, missing: bool, failed: bool, error: bool)
    ensures Passed(wrong, different, reset, missing, failed, error) <==>
              !wrong && !missing && !failed && !error && (different ==> reset)
    ensures !different ==> Passed(wrong, different, true, missing, failed, error) == Passed(wrong, different, false, missing, failed, error)
  {
  }

  /** The message a decrease of the RESET count adds. */
  const ResetsDecreased := "Error: The number of reset directives decreased."

  /** The dictionary's entries in sorted key order, as `sorted(flags.iteritems())`
      yields them. */
  function Entries(f: Flags): (r: seq<(string, bool)>)
    ensures |r| == 9
    ensures forall i :: 0 <= i < |r| ==> |r[i].0| > 0
  {
    [("different", f.different), ("error", f.error), ("failed", f.failed),
     ("missing", f.missing), ("new", f.isNew), ("ok", f.ok),
     ("reset", f.reset), ("verbose", f.verbose), ("wrong", f.wrong)]
  }

  /** Lexicographic order on strings, as Python compares them. */
  predicate Below(a: string, b: string) {
    (a == [] && b != []) ||
    (a != [] && b != [] && (a[0] < b[0] || (a[0] == b[0] && Below(a[1..], b[1..]))))
  }

  /** The keys are listed in increasing order, each once. */
  lemma EntriesSorted(f: Flags)
    ensures forall i, j :: 0 <= i < j < |Entries(f)| ==> Below(Entries(f)[i].0, Entries(f)[j].0)
  {
    var e := Entries(f);
    forall i, j | 0 <= i < j < |e|
      ensures Below(e[i].0, e[j].0)
    {
      assert e[i].0[0] < e[j].0[0];
    }
  }

  /** The character `print_log_line` shows for one flag. */
  function TagChar(key: string, value: bool): char
    requires |key| > 0
  {
    if value then UpperChar(key[0]) else '-'
  }

  /** A flag shows as '-' iff it is false, and a raised flag shows as the
      capital of its key's initial. */
  lemma TagCharShowsFlag(key: string, value: bool)
    requires |key| > 0 && 'a' <= key[0] <= 'z'
    ensures TagChar(key, value) == '-' <==> !value
    ensures value ==> 'A' <= TagChar(key, value) <= 'Z' && LowerChar(TagChar(key, value)) == key[0]
  {
  }

  /** The status tag of `print_log_line`: one character per entry. */
  method Tag(entries: seq<(string, bool)>) returns (tag: string)
    requires forall i :: 0 <= i < |entries| ==> |entries[i].0| > 0
    ensures |tag| == |entries|
    ensures forall i :: 0 <= i < |entries| ==> tag[i] == TagChar(entries[i].0, entries[i].1)
  {
    tag := "";
    for i := 0 to |entries|
      invariant |tag| == i
      invariant forall k :: 0 <= k < i ==> tag[k] == TagChar(entries[k].0, entries[k].1)
    {
      var (key, value) := entries[i];
      if value {
        tag := tag + [UpperChar(key[0])];
      } else {
        tag := tag + "-";
      }
    }
  }

  /** The tag of a job's flags reads, in key order, the initial of every
      raised flag and '-' for every other: a passing job that needed no
      promotion shows "-----O---". */
  lemma StatusTag(f: Flags, tag: string)
    requires |tag| == 9 && forall i :: 0 <= i < 9 ==> tag[i] == TagChar(Entries(f)[i].0, Entries(f)[i].1)
    ensures tag[0] == (if f.different then 'D' else '-') && tag[1] == (if f.error then 'E' else '-')
    ensures tag[2] == (if f.failed then 'F' else '-') && tag[3] == (if f.missing then 'M' else '-')
    ensures tag[4] == (if f.isNew then 'N' else '-') && tag[5] == (if f.ok then 'O' else '-')
    ensures tag[6] == (if f.reset then 'R' else '-') && tag[7] == (if f.verbose then 'V' else '-')
    ensures tag[8] == (if f.wrong then 'W' else '-')
  {
    var e := Entries(f);
    assert tag[0] == TagChar(e[0].0, e[0].1) && tag[1] == TagChar(e[1].0, e[1].1);
    assert tag[2] == TagChar(e[2].0, e[2].1) && tag[3] == TagChar(e[3].0, e[3].1);
    assert tag[4] == TagChar(e[4].0, e[4].1) && tag[5] == TagChar(e[5].0, e[5].1);
    assert tag[6] == TagChar(e[6].0, e[6].1) && tag[7] == TagChar(e[7].0, e[7].1);
    assert tag[8] == TagChar(e[8].0, e[8].1);
  }

  // ---------------------------------------------------------------------------
  // Running the tests

  /** The exception running a complete test raises: only a script test
      can raise, as `ScriptError` says. */
  function RunError(env: Host.Env, t: Test, exitStatus: int): (e: Option<PyError>)
    reads t
    ensures e.Some? ==> t.spec.ScriptSpec?
    ensures t.spec.ScriptSpec? && t.spec.args == [] ==> e == Some(IndexError)
    ensures t.spec.ScriptSpec? && t.spec.args != [] && t.dirname.None? ==> e == Some(AttributeError("dirname"))
    ensures t.spec.ScriptSpec? && exitStatus == 0 ==> (e.None? <==> t.spec.args != [] && t.dirname.Some?)
  {
    if t.spec.ScriptSpec? then t.ScriptError(env, exitStatus) else None
  }

  /** A complete test runs without an exception: a script test has its
      arguments, its directory and, after a failure, both its logs. */
  predicate Runnable(env: Host.Env, t: Test, exitStatus: int)
    reads t
  {
    RunError(env, t, exitStatus).None?
  }

  /** The fragments of the tests, which running a test leaves alone. */
  function Frags(tests: seq<Test>): set<object> {
    (set t | t in tests && t.tst != null :: t.tst as object) +
    (set t | t in tests && t.ref != null :: t.ref as object) +
    (set t | t in tests && t.exp != null :: t.exp as object)
  }

  /** `cs[k]` tells whether the k-th test is complete. */
  ghost predicate CompleteAt(tests: seq<Test>, isNew: bool, cs: seq<bool>)
    reads Frags(tests)
  {
    && (forall t :: t in tests ==> t.Valid())
    && |cs| == |tests|
    && forall k :: 0 <= k < |tests| ==> cs[k] == tests[k].Complete(isNew)
  }

  /** Whether each test is complete, in order. */
  ghost function Completes(tests: seq<Test>, isNew: bool): (cs: seq<bool>)
    requires forall t :: t in tests ==> t.Valid()
    reads Frags(tests)
    ensures CompleteAt(tests, isNew, cs)
  {
    seq(|tests|, k requires 0 <= k < |tests| reads Frags(tests) => tests[k].Complete(isNew))
  }

  /** The tests before index i. */
  function Before(tests: seq<Test>, i: nat): set<object>
    requires i <= |tests|
  {
    set k | 0 <= k < i :: tests[k] as object
  }

  /** Some test before index i is incomplete. */
  predicate Missing(cs: seq<bool>, i: nat)
    requires i <= |cs|
  {
    i > 0 && (Missing(cs, i - 1) || !cs[i - 1])
  }

  /** Some complete test before index i ended up `wrong`. */
  predicate WrongIn(tests: seq<Test>, cs: seq<bool>, i: nat)
    requires i <= |tests| == |cs|
    reads Before(tests, i)
  {
    i > 0 && (WrongIn(tests, cs, i - 1) || (cs[i - 1] && tests[i - 1].wrong == Some(true)))
  }

  /** Some complete test before index i ended up `different`. */
  predicate DifferentIn(tests: seq<Test>, cs: seq<bool>, i: nat)
    requires i <= |tests| == |cs|
    reads Before(tests, i)
  {
    i > 0 && (DifferentIn(tests, cs, i - 1) || (cs[i - 1] && tests[i - 1].different == Some(true)))
  }

  /** Every complete test before index i could run without an exception. */
  predicate AllRunnable(env: Host.Env, tests: seq<Test>, cs: seq<bool>, exitStatus: nat -> int, i: nat)
    requires i <= |tests| == |cs|
    reads Before(tests, i)
  {
    i == 0 || (AllRunnable(env, tests, cs, exitStatus, i - 1) && (cs[i - 1] ==> Runnable(env, tests[i - 1], exitStatus(i - 1))))
  }

  /** The tracebacks the complete tests before index i leave, in order. */
  function Tracebacks(env: Host.Env, tests: seq<Test>, cs: seq<bool>, exitStatus: nat -> int, i: nat): seq<string>
    requires i <= |tests| == |cs|
    reads Before(tests, i)
  {
    if i == 0 then []
    else
      var e := if cs[i - 1] then RunError(env, tests[i - 1], exitStatus(i - 1)) else None;
      Tracebacks(env, tests, cs, exitStatus, i - 1) + (if e.Some? then [Traceback(e.value)] else [])
  }

  lemma {:induction false} MissingMeans(tests: seq<Test>, isNew: bool, cs: seq<bool>, i: nat)
    requires CompleteAt(tests, isNew, cs) && i <= |tests|
    ensures Missing(cs, i) <==> exists k :: 0 <= k < i && !tests[k].Complete(isNew)
  {
    if i > 0 {
      MissingMeans(tests, isNew, cs, i - 1);
    }
  }

  lemma {:induction false} WrongInMeans(tests: seq<Test>, isNew: bool, cs: seq<bool>, i: nat)
    requires CompleteAt(tests, isNew, cs) && i <= |tests|
    ensures WrongIn(tests, cs, i) <==>
              exists k :: 0 <= k < i && tests[k].Complete(isNew) && tests[k].wrong == Some(true)
  {
    if i > 0 {
      WrongInMeans(tests, isNew, cs, i - 1);
    }
  }

  lemma {:induction false} DifferentInMeans(tests: seq<Test>, isNew: bool, cs: seq<bool>, i: nat)
    requires CompleteAt(tests, isNew, cs) && i <= |tests|
    ensures DifferentIn(tests, cs, i) <==>
              exists k :: 0 <= k < i && tests[k].Complete(isNew) && tests[k].different == Some(true)
  {
    if i > 0 {
      DifferentInMeans(tests, isNew, cs, i - 1);
    }
  }

  lemma {:induction false} AllRunnableMeans(env: Host.Env, tests: seq<Test>, isNew: bool, cs: seq<bool>,
                                            exitStatus: nat -> int, i: nat)
    requires CompleteAt(tests, isNew, cs) && i <= |tests|
    ensures AllRunnable(env, tests, cs, exitStatus, i) <==>
              forall k :: 0 <= k < i && tests[k].Complete(isNew) ==> Runnable(env, tests[k], exitStatus(k))
  {
    if i > 0 {
      AllRunnableMeans(env, tests, isNew, cs, exitStatus, i - 1);
    }
  }

  /** No traceback is left iff every complete test could run. */
  lemma {:induction false} TracebacksMeans(env: Host.Env, tests: seq<Test>, cs: seq<bool>, exitStatus: nat -> int, i: nat)
    requires i <= |tests| == |cs|
    ensures Tracebacks(env, tests, cs, exitStatus, i) == [] <==> AllRunnable(env, tests, cs, exitStatus, i)
  {
    if i > 0 {
      TracebacksMeans(env, tests, cs, exitStatus, i - 1);
    }
  }


  /** The state of the test loop of `main` after the first i tests. */
  ghost predicate Ran(env: Host.Env, tests: seq<Test>, cs: seq<bool>, exitStatus: nat -> int, i: nat,
                      missing: bool, wrong: bool, different: bool, messages: seq<string>, out: seq<string>)
    reads set t | t in tests
  {
    && i <= |tests| == |cs|
    && missing == Missing(cs, i)
    && wrong == WrongIn(tests, cs, i)
    && different == DifferentIn(tests, cs, i)
    && out == messages + Tracebacks(env, tests, cs, exitStatus, i)
  }

  /** The loop of `main` over the tests: an incomplete test raises
      `missing` and is not run; a complete test is run, an exception it
      raises is recorded as a message, and its verdict raises `wrong` and
      `different`.  `exitStatus(k)` is what running the script of the k-th
      test returns. */
  method RunTests(env: Host.Env, tests: seq<Test>, isNew: bool, exitStatus: nat -> int, messages: seq<string>)
    returns (missing: bool, wrong: bool, different: bool, out: seq<string>)
    requires Distinct(tests) && forall t :: t in tests ==> t.Valid()
    modifies set t | t in tests && t.Complete(isNew)
    ensures Ran(env, tests, Completes(tests, isNew), exitStatus, |tests|, missing, wrong, different, messages, out)
  {
    ghost var cs := Completes(tests, isNew);
    missing, wrong, different, out := false, false, false, messages;
    for i := 0 to |tests|
      invariant CompleteAt(tests, isNew, cs)
      invariant Ran(env, tests, cs, exitStatus, i, missing, wrong, different, messages, out)
    {
      missing, wrong, different, out := RunOne(env, tests, cs, exitStatus, i, isNew, missing, wrong, different, messages, out);
    }
    assert cs == Completes(tests, isNew);
  }

  /** `test.run(new)` as the loop of `main` sees it: a complete test raises
      exactly the exception `RunError` gives, so it runs without one iff it
      is runnable. */
  method RunTest(env: Host.Env, t: Test, isNew: bool, exitStatus: int) returns (e: Option<PyError>)
    requires t.Valid() && t.Complete(isNew)
    modifies t`expValue, t`different, t`wrong, t`returnCode
    ensures e == RunError(env, t, exitStatus)
    ensures e.None? <==> Runnable(env, t, exitStatus)
  {
    e := t.Run(env, isNew, exitStatus);
  }

  /** One pass of the test loop of `main`. */
  method RunOne(env: Host.Env, tests: seq<Test>, ghost cs: seq<bool>, exitStatus: nat -> int, i: nat, isNew: bool,
                missing: bool, wrong: bool, different: bool, ghost messages: seq<string>, out: seq<string>)
    returns (missing': bool, wrong': bool, different': bool, out': seq<string>)
    requires Distinct(tests) && i < |tests| && CompleteAt(tests, isNew, cs)
    requires Ran(env, tests, cs, exitStatus, i, missing, wrong, different, messages, out)
    modifies if cs[i] then {tests[i]} else {}
    ensures CompleteAt(tests, isNew, cs)
    ensures Ran(env, tests, cs, exitStatus, i + 1, missing', wrong', different', messages, out')
  {
    var t := tests[i];
    missing', wrong', different', out' := missing, wrong, different, out;
    if !t.Complete(isNew) {
      missing' := true;
    } else {
      var e := RunTest(env, t, isNew, exitStatus(i));
      if e.Some? {
        out' := out + [Traceback(e.value)];
      }
      if t.wrong == Some(true) {
        wrong' := true;
      }
      if t.different == Some(true) {
        different' := true;
      }
    }
    assert t !in Before(tests, i);
  }

  // ---------------------------------------------------------------------------
  // The job

  /** What `main` leaves behind: the flags, the messages of the TestResult,
      and whether the output is copied to the reference directory.  The
      status line printed last is `Tag(Entries(flags))`. */
  datatype Outcome = Outcome(flags: Flags, messages: seq<string>, promote: bool)

  /** The messages `main` holds before running the tests: the RESET
      decrease error, then what harvesting reported. */
  function Preamble(resetsTst: nat, resets: nat, harvested: seq<string>): (m: seq<string>)
    ensures resetsTst >= resets ==> m == harvested
    ensures resetsTst < resets ==> m == [ResetsDecreased] + harvested
  {
    (if resetsTst < resets then [ResetsDecreased] else []) + harvested
  }

  /** `main` after CP2K has run.  The return code of CP2K, the last lines of
      its stdout and stderr, whether a reference pickle exists, the RESET
      counts of the test input and of the reference input, the tests of the
      test input and the messages harvesting them left are parameters. */
  method Drive(env: Host.Env, args: seq<string>, retcode: int, oLines: seq<string>, eLines: seq<string>,
               refExists: bool, resetsTst: nat, resetsRef: nat, tests: seq<Test>, harvested: seq<string>,
               exitStatus: nat -> int)
    returns (r: Result<Outcome>)
    requires Distinct(tests) && forall t :: t in tests ==> t.Valid()
    modifies set t | t in tests && t.Complete(!refExists)
    ensures r.Err? <==> ParseArgs(env, args).Err?
    ensures r.Err? ==> r.error == ParseArgs(env, args).error
    ensures r.Ok? ==> Judged(env, r.value, tests, exitStatus, retcode, oLines, eLines, refExists, resetsTst, resetsRef, harvested)
  {
    var parsed := ParseArgs(env, args);
    if parsed.Err? {
      return Err(parsed.error);
    }
    var flags, messages := Judge(env, retcode, oLines, eLines, refExists, resetsTst, resetsRef, tests, harvested, exitStatus);
    r := Ok(Outcome(flags, messages, (flags.isNew || flags.reset) && flags.ok));
  }

  /** What `main` leaves behind, given how CP2K ran and the tests. */
  ghost predicate Judged(env: Host.Env, o: Outcome, tests: seq<Test>, exitStatus: nat -> int, retcode: int, oLines: seq<string>, eLines: seq<string>,
                         refExists: bool, resetsTst: nat, resetsRef: nat, harvested: seq<string>)
    reads (set t | t in tests), Frags(tests)
  {
    var f := o.flags;
    && Tested(env, f, o.messages, tests, exitStatus, resetsTst, resetsRef, harvested)
    && Flagged(f, o.messages, retcode, oLines, eLines, refExists, resetsTst, resetsRef)
    && o.promote == ((f.isNew || f.reset) && f.ok)
  }

  /** The test loop of `main` left `missing`, `wrong`, `different` and the
      messages as `Ran` says, starting from the preamble. */
  ghost predicate Tested(env: Host.Env, f: Flags, messages: seq<string>, tests: seq<Test>, exitStatus: nat -> int,
                         resetsTst: nat, resetsRef: nat, harvested: seq<string>)
    reads (set t | t in tests), Frags(tests)
  {
    var resets := if f.isNew then resetsTst else resetsRef;
    && (forall t :: t in tests ==> t.Valid())
    && Ran(env, tests, Completes(tests, f.isNew), exitStatus, |tests|, f.missing, f.wrong, f.different,
           Preamble(resetsTst, resets, harvested), messages)
  }

  /** The flags `main` sets apart from the test loop. */
  predicate Flagged(f: Flags, messages: seq<string>, retcode: int, oLines: seq<string>, eLines: seq<string>,
                    refExists: bool, resetsTst: nat, resetsRef: nat)
  {
    var resets := if f.isNew then resetsTst else resetsRef;
    && f.failed == (retcode != 0)
    && f.verbose == (|eLines| > 0 || |oLines| > 0)
    && f.isNew == !refExists
    && f.reset == (resetsTst > resets)
    && f.error == (messages != [])
    && f.ok == Passed(f.wrong, f.different, f.reset, f.missing, f.failed, f.error)
  }

  /** The flags of `main`, set step by step. */
  method Judge(env: Host.Env, retcode: int, oLines: seq<string>, eLines: seq<string>, refExists: bool,
               resetsTst: nat, resetsRef: nat, tests: seq<Test>, harvested: seq<string>, exitStatus: nat -> int)
    returns (flags: Flags, messages: seq<string>)
    requires Distinct(tests) && forall t :: t in tests ==> t.Valid()
    modifies set t | t in tests && t.Complete(!refExists)
    ensures Tested(env, flags, messages, tests, exitStatus, resetsTst, resetsRef, harvested)
    ensures Flagged(flags, messages, retcode, oLines, eLines, refExists, resetsTst, resetsRef)
  {
    var failed := retcode != 0;
    var verbose := |eLines| > 0 || |oLines| > 0;
    var isNew := !refExists;
    var resets := if isNew then resetsTst else resetsRef;
    var reset := resetsTst > resets;
    messages := [];
    if resetsTst < resets {
      messages := messages + [ResetsDecreased];
    }
    messages := messages + harvested;
    assert messages == Preamble(resetsTst, resets, harvested);
    var missing: bool, wrong: bool, different: bool;
    missing, wrong, different, messages := RunTests(env, tests, isNew, exitStatus, messages);
    var error := |messages| > 0;
    var ok := Passed(wrong, different, reset, missing, failed, error);
    flags := Flags(failed, verbose, isNew, reset, error, missing, wrong, different, ok);
  }

  /** A new input is never a reset and loses no RESET directives; an input
      that lost RESET directives has an error, fails and is not promoted. */
  lemma JudgedResets(env: Host.Env, o: Outcome, tests: seq<Test>, exitStatus: nat -> int, retcode: int, oLines: seq<string>, eLines: seq<string>,
                     refExists: bool, resetsTst: nat, resetsRef: nat, harvested: seq<string>)
    requires Judged(env, o, tests, exitStatus, retcode, oLines, eLines, refExists, resetsTst, resetsRef, harvested)
    ensures o.flags.isNew ==> !o.flags.reset && o.messages[..|harvested|] == harvested
    ensures refExists && resetsTst < resetsRef ==>
              o.flags.error && !o.flags.ok && !o.flags.reset && !o.promote && o.messages[0] == ResetsDecreased
  {
    var m := Preamble(if o.flags.isNew then resetsTst else resetsRef, resetsRef, harvested);
    if refExists && resetsTst < resetsRef {
      assert o.messages[..|Preamble(resetsTst, resetsRef, harvested)|] == Preamble(resetsTst, resetsRef, harvested);
      assert o.messages[0] == Preamble(resetsTst, resetsRef, harvested)[0];
    }
    if o.flags.isNew {
      assert o.messages[..|harvested|] == Preamble(resetsTst, resetsTst, harvested)[..|harvested|];
    }
  }

  /** The flags follow from the tests: `missing` iff some test is
      incomplete, `wrong` (`different`) iff some complete test ended up
      wrong (different), and an error iff something came before the tests
      or some complete test raised, which also fails the job. */
  lemma JudgedTests(env: Host.Env, o: Outcome, tests: seq<Test>, exitStatus: nat -> int, retcode: int,
                    oLines: seq<string>, eLines: seq<string>,
                    refExists: bool, resetsTst: nat, resetsRef: nat, harvested: seq<string>)
    requires Judged(env, o, tests, exitStatus, retcode, oLines, eLines, refExists, resetsTst, resetsRef, harvested)
    ensures o.flags.missing <==> exists k :: 0 <= k < |tests| && !tests[k].Complete(o.flags.isNew)
    ensures o.flags.wrong <==>
              exists k :: 0 <= k < |tests| && tests[k].Complete(o.flags.isNew) && tests[k].wrong == Some(true)
    ensures o.flags.different <==>
              exists k :: 0 <= k < |tests| && tests[k].Complete(o.flags.isNew) && tests[k].different == Some(true)
    ensures o.flags.error <==>
              || harvested != []
              || (refExists && resetsTst < resetsRef)
              || exists k :: 0 <= k < |tests| && tests[k].Complete(o.flags.isNew) && !Runnable(env, tests[k], exitStatus(k))
    ensures (exists k :: 0 <= k < |tests| && tests[k].Complete(o.flags.isNew) && !Runnable(env, tests[k], exitStatus(k))) ==>
              o.flags.error && !o.flags.ok
  {
    var cs := Completes(tests, o.flags.isNew);
    MissingMeans(tests, o.flags.isNew, cs, |tests|);
    WrongInMeans(tests, o.flags.isNew, cs, |tests|);
    DifferentInMeans(tests, o.flags.isNew, cs, |tests|);
    AllRunnableMeans(env, tests, o.flags.isNew, cs, exitStatus, |tests|);
    TracebacksMeans(env, tests, cs, exitStatus, |tests|);
  }


  // ---------------------------------------------------------------------------
  // `main` as written

  /** Line 97 passes five arguments to `harvest_test`, which takes four. */
  const HarvestArity: PyError := TypeError("harvest_test() takes exactly 4 arguments (5 given)")

  /** The path `main` gives `tail` for one of CP2K's outputs. */
  function OutPath(a: Args, ext: string): string {
    Paths.Join(Paths.Dirname(a.tstpath), Paths.Basename(a.tstpath) + ext)
  }

  /** `refpath` of `main`: the prefix in `../refdir/tstdir`. */
  function RefPath(a: Args): string {
    Paths.Join(Paths.JoinAll("..", [a.refdir, Paths.Dirname(a.tstpath)]), Paths.Basename(a.tstpath))
  }

  /** The three outputs `tail` opens exist. */
  predicate TailsOpen(env: Host.Env, a: Args) {
    env.isFile(OutPath(a, ".out")) && env.isFile(OutPath(a, ".o")) && env.isFile(OutPath(a, ".e"))
  }

  /** The first exception `main` raises between `parse_args` and line 97:
      `tail` opening the three outputs, then `TestInput` on the test input
      and, when a reference pickle exists, on the reference input. */
  function BeforeHarvest(env: Host.Env, a: Args): (e: Option<PyError>)
    ensures e.None? <==>
              && TailsOpen(env, a)
              && Data.LoadedAsWritten(env, a.tstpath + ".inp", a.tstpath).Ok?
              && (env.isFile(RefPath(a) + ".pp") ==> Data.LoadedAsWritten(env, RefPath(a) + ".inp", a.tstpath).Ok?)
    ensures !TailsOpen(env, a) ==> e.Some? && e.value.IOError?
  {
    if !env.isFile(OutPath(a, ".out")) then Some(Host.Open(env, OutPath(a, ".out")).error)
    else if !env.isFile(OutPath(a, ".o")) then Some(Host.Open(env, OutPath(a, ".o")).error)
    else if !env.isFile(OutPath(a, ".e")) then Some(Host.Open(env, OutPath(a, ".e")).error)
    else match Data.LoadedAsWritten(env, a.tstpath + ".inp", a.tstpath)
      case Err(e) => Some(e)
      case Ok(_) =>
        if !env.isFile(RefPath(a) + ".pp") then None
        else match Data.LoadedAsWritten(env, RefPath(a) + ".inp", a.tstpath)
          case Err(e) => Some(e)
          case Ok(_) => None
  }

  /** `main` as written, up to the exception it raises.  It never returns:
      a run whose arguments parse raises before line 97 or at line 97, so
      no flag is judged and no pickle is written. */
  function DriveAsWritten(env: Host.Env, args: seq<string>): (r: Result<Outcome>)
    ensures r.Err?
    ensures ParseArgs(env, args).Err? ==> r.error == ParseArgs(env, args).error
    ensures ParseArgs(env, args).Ok? && BeforeHarvest(env, ParseArgs(env, args).value).None? ==>
              r.error == HarvestArity
    ensures ParseArgs(env, args).Ok? && BeforeHarvest(env, ParseArgs(env, args).value).Some? ==>
              r.error == BeforeHarvest(env, ParseArgs(env, args).value).value
  {
    match ParseArgs(env, args)
    case Err(e) => Err(e)
    case Ok(a) =>
      match BeforeHarvest(env, a)
      case Some(e) => Err(e)
      case None => Err(HarvestArity)
  }

  /** As written, a test input with a TEST directive fails at line 82 with
      AttributeError once its outputs are there and its tests are built,
      and one without TEST directives reaches line 97 and raises TypeError
      when there is no reference; `Drive` judges both. */
  lemma AsWrittenRaises(env: Host.Env, args: seq<string>)
    requires ParseArgs(env, args).Ok? && TailsOpen(env, ParseArgs(env, args).value)
    requires var a := ParseArgs(env, args).value;
             var fn := a.tstpath + ".inp";
             env.isFile(fn) && Data.Scan(env, TestFactories(), fn, a.tstpath, Data.Initial(fn, a.tstpath), env.readLines(fn)).Ok?
    ensures var a := ParseArgs(env, args).value;
            var fn := a.tstpath + ".inp";
            var u := Data.Scan(env, TestFactories(), fn, a.tstpath, Data.Initial(fn, a.tstpath), env.readLines(fn)).value;
            && (u.tests != [] && (forall k :: 0 <= k < |u.tests| ==> u.tests[k].Built?) ==>
                  DriveAsWritten(env, args) == Err(AttributeError("extra_inputs")))
            && (u.tests == [] && !env.isFile(RefPath(a) + ".pp") ==> DriveAsWritten(env, args) == Err(HarvestArity))
  {
    var a := ParseArgs(env, args).value;
    var fn := a.tstpath + ".inp";
    var u := Data.Scan(env, TestFactories(), fn, a.tstpath, Data.Initial(fn, a.tstpath), env.readLines(fn)).value;
    if u.tests != [] && (forall k :: 0 <= k < |u.tests| ==> u.tests[k].Built?) {
      Data.AsWrittenRejectsEveryTest(env, fn, a.tstpath);
    }
  }
}
