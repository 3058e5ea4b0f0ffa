/** scripts/cpqa-reset.py: choosing the tests of the last run whose only
    problem is a changed result, asking for confirmation and a motivation,
    and appending the motivation and the input names to the TEST_FILES_RESET
    of each input's directory.  The pickled results, the `EDITOR` variable,
    the answer typed at the prompt and the text saved by the editor are
    parameters. */
module Reset {
  import opened Wrappers
  import opened PyStr
  import Host
  import Paths
  import Driver

  // ---------------------------------------------------------------------------
  // get_editor, get_motivation, get_confirmation

  /** `get_editor()`: the `EDITOR` variable, or vi when it is unset. */
  function Editor(editorVar: Option<string>): (r: string)
    ensures editorVar.None? ==> r == "vi"
    ensures editorVar.Some? ==> r == editorVar.value
  {
    match editorVar
    case None => "vi"
    case Some(e) => e
  }

  /** The text the motivation is taken from: the `-m` option, otherwise the
      file the editor saved, otherwise nothing. */
  function MotivationSource(option: Option<string>, edited: Option<string>): string {
    match option
    case Some(m) => m
    case None => if edited.Some? then edited.value else ""
  }

  /** `get_motivation(options)`: the stripped text, or exit status 1 when
      nothing is left of it. */
  function Motivation(option: Option<string>, edited: Option<string>): (r: Result<string>)
    ensures var text := MotivationSource(option, edited);
            && (r.Err? <==> Strip(text) == [])
            && (r.Err? ==> r.error == SystemExit(1))
            && (r.Ok? ==> r.value == Strip(text) && !IsSpace(r.value[0]) && !IsSpace(r.value[|r.value| - 1]))
  {
    var motivation := Strip(MotivationSource(option, edited));
    StripTrims(MotivationSource(option, edited));
    if |motivation| == 0 then Err(SystemExit(1)) else Ok(motivation)
  }

  /** `answer.lower() == 'y'` */
  predicate Confirmed(answer: string) {
    Lower(answer) == "y"
  }

  /** Only the answers y and Y confirm. */
  lemma ConfirmedMeans(answer: string)
    ensures Confirmed(answer) <==> answer == "y" || answer == "Y"
  {
    if Confirmed(answer) {
      assert Lower(answer)[0] == LowerChar(answer[0]);
      assert answer == [answer[0]];
    }
    if answer == "Y" {
      assert Lower(answer)[0] == LowerChar('Y') == 'y';
    }
  }

  // ---------------------------------------------------------------------------
  // get_different

  /** The pickled flags without one key: `del flags[key]`. */
  function Without(items: seq<(string, bool)>, key: string): seq<(string, bool)> {
    Filter((e: (string, bool)) => e.0 != key, items)
  }

  /** `any(flags.itervalues())` */
  predicate AnyRaised(items: seq<(string, bool)>) {
    exists e :: e in items && e.1
  }

  /** A result qualifies when its `different` flag is raised and no flag is
      once `different` and `verbose` are deleted. */
  predicate Qualifies(f: Driver.Flags) {
    f.different && !AnyRaised(Without(Without(Driver.Entries(f), "different"), "verbose"))
  }

  /** Deleting a key keeps exactly the items with another key. */
  lemma WithoutMembers(items: seq<(string, bool)>, key: string)
    ensures forall e :: e in Without(items, key) <==> e in items && e.0 != key
  {
    FilterMembers((e: (string, bool)) => e.0 != key, items);
  }

  /** The items left once `different` and `verbose` are deleted. */
  lemma RemainingItems(f: Driver.Flags)
    ensures forall e :: e in Without(Without(Driver.Entries(f), "different"), "verbose") <==>
                          e in Driver.Entries(f) && e.0 != "different" && e.0 != "verbose"
  {
    WithoutMembers(Driver.Entries(f), "different");
    WithoutMembers(Without(Driver.Entries(f), "different"), "verbose");
  }

  /** A raised flag other than `different` and `verbose` is still there
      after the deletions. */
  lemma RaisedRemains(f: Driver.Flags)
    requires f.failed || f.isNew || f.reset || f.error || f.missing || f.wrong || f.ok
    ensures AnyRaised(Without(Without(Driver.Entries(f), "different"), "verbose"))
  {
    var entries := Driver.Entries(f);
    var k := if f.error then 1 else if f.failed then 2 else if f.missing then 3 else if f.isNew then 4
             else if f.ok then 5 else if f.reset then 6 else 8;
    var e := entries[k];
    assert e.1;
    assert e.0[0] != 'd' && e.0[0] != 'v';
    SurvivesDeletions(entries, e);
  }

  /** An item with another key survives both deletions. */
  lemma SurvivesDeletions(items: seq<(string, bool)>, e: (string, bool))
    requires e in items && e.0 != "different" && e.0 != "verbose"
    ensures e in Without(Without(items, "different"), "verbose")
  {
    WithoutMembers(items, "different");
    WithoutMembers(Without(items, "different"), "verbose");
  }

  /** When no flag other than `different` and `verbose` is raised, nothing
      raised is left after the deletions. */
  lemma NothingRemains(f: Driver.Flags)
    requires !(f.failed || f.isNew || f.reset || f.error || f.missing || f.wrong || f.ok)
    ensures !AnyRaised(Without(Without(Driver.Entries(f), "different"), "verbose"))
  {
    var entries := Driver.Entries(f);
    RemainingItems(f);
    forall e | e in Without(Without(entries, "different"), "verbose")
      ensures !e.1
    {
      assert e in entries && e.0 != "different" && e.0 != "verbose";
    }
  }

  /** A result qualifies iff `different` is its only raised flag apart
      from `verbose`; in particular `ok` must be false. */
  lemma QualifiesMeans(f: Driver.Flags)
    ensures Qualifies(f) <==>
              f.different && !f.failed && !f.isNew && !f.reset && !f.error && !f.missing && !f.wrong && !f.ok
  {
    if f.failed || f.isNew || f.reset || f.error || f.missing || f.wrong || f.ok {
      RaisedRemains(f);
    } else {
      NothingRemains(f);
    }
  }

  /** For flags the driver judged, `ok` is false whenever `different` is
      raised without `reset`, so a result qualifies iff `different` is its
      only raised flag apart from `verbose` and `ok`. */
  lemma QualifiesAfterJudging(f: Driver.Flags)
    requires f.ok == Driver.Passed(f.wrong, f.different, f.reset, f.missing, f.failed, f.error)
    ensures Qualifies(f) <==> f.different && !f.failed && !f.isNew && !f.reset && !f.error && !f.missing && !f.wrong
  {
    QualifiesMeans(f);
  }

  /** `os.path.join(config.tstdir, test_input.prefix + '.pp')` */
  function ResultPath(tstdir: string, prefix: string): string {
    Paths.Join(tstdir, prefix + ".pp")
  }

  /** An input is kept when its result file exists and qualifies; the
      flags of an existing result file are given by `flagsOf`. */
  predicate Kept(env: Host.Env, tstdir: string, flagsOf: string -> Driver.Flags, prefix: string) {
    env.isFile(ResultPath(tstdir, prefix)) && Qualifies(flagsOf(ResultPath(tstdir, prefix)))
  }

  function Keep(env: Host.Env, tstdir: string, flagsOf: string -> Driver.Flags): string -> bool {
    prefix => Kept(env, tstdir, flagsOf, prefix)
  }

  /** The inputs `get_different` returns: the kept ones, in order. */
  function Different(env: Host.Env, tstdir: string, flagsOf: string -> Driver.Flags, prefixes: seq<string>): seq<string> {
    Filter(Keep(env, tstdir, flagsOf), prefixes)
  }

  /** An input is returned iff it was among the candidates and was kept. */
  lemma DifferentMembers(env: Host.Env, tstdir: string, flagsOf: string -> Driver.Flags, prefixes: seq<string>)
    ensures forall p :: p in Different(env, tstdir, flagsOf, prefixes) <==>
                          p in prefixes && Kept(env, tstdir, flagsOf, p)
  {
    FilterMembers(Keep(env, tstdir, flagsOf), prefixes);
  }

  /** The loop of `get_different` over the inputs selected for the last run. */
  method GetDifferent(env: Host.Env, tstdir: string, flagsOf: string -> Driver.Flags, prefixes: seq<string>)
    returns (different: seq<string>)
    ensures different == Different(env, tstdir, flagsOf, prefixes)
  {
    different := [];
    for i := 0 to |prefixes|
      invariant different == Filter(Keep(env, tstdir, flagsOf), prefixes[..i])
    {
      assert prefixes[..i + 1][..i] == prefixes[..i];
      var fn := ResultPath(tstdir, prefixes[i]);
      if env.isFile(fn) {
        var flags := flagsOf(fn);
        if !flags.different {
          continue;
        }
        var items := Without(Driver.Entries(flags), "different");
        items := Without(items, "verbose");
        if AnyRaised(items) {
          continue;
        }
        different := different + [prefixes[i]];
      }
    }
    assert prefixes[..|prefixes|] == prefixes;
  }

  // ---------------------------------------------------------------------------
  // do_reset

  /** `['# ' + l for l in motivation.split('\n')]` */
  function MotivationLines(motivation: string): (r: seq<string>)
    ensures |r| == CountChar(motivation, '\n') + 1
  {
    var pieces := SplitOn(motivation, '\n');
    seq(|pieces|, i requires 0 <= i < |pieces| => "# " + pieces[i])
  }

  /** Every motivation line is a comment holding one line of the motivation,
      and together they give the motivation back. */
  lemma MotivationLinesAreComments(motivation: string)
    ensures var lines := MotivationLines(motivation);
            && (forall i :: 0 <= i < |lines| ==> StartsWith(lines[i], "# ") && '\n' !in lines[i][2..])
            && Join("\n", seq(|lines|, i requires 0 <= i < |lines| => lines[i][2..])) == motivation
  {
    var pieces := SplitOn(motivation, '\n');
    var lines := MotivationLines(motivation);
    SplitOnPieces(motivation, '\n');
    forall i | 0 <= i < |lines|
      ensures StartsWith(lines[i], "# ") && '\n' !in lines[i][2..]
    {
      assert lines[i][2..] == pieces[i];
    }
    assert seq(|lines|, i requires 0 <= i < |lines| => lines[i][2..]) == pieces;
    JoinSplitOn(motivation, '\n');
  }

  /** The TEST_FILES_RESET of an input's directory in the CP2K tree. */
  function ResetFile(root: string, prefix: string): string {
    Paths.JoinAll(root, ["tests", Paths.Dirname(prefix), "TEST_FILES_RESET"])
  }

  /** The line naming an input in a TEST_FILES_RESET. */
  function InputName(prefix: string): string {
    Paths.Basename(prefix) + ".inp"
  }

  /** Each selected input's reset file and name, in order. */
  function Targets(root: string, prefixes: seq<string>): (r: seq<(string, string)>)
    ensures |r| == |prefixes|
  {
    seq(|prefixes|, k requires 0 <= k < |prefixes| => (ResetFile(root, prefixes[k]), InputName(prefixes[k])))
  }

  /** The names of the targets, in order. */
  function Names(targets: seq<(string, string)>): (r: seq<string>)
    ensures |r| == |targets|
  {
    seq(|targets|, k requires 0 <= k < |targets| => targets[k].1)
  }

  /** The names of the targets in `file`, in order. */
  function NamesFor(targets: seq<(string, string)>, file: string): seq<string> {
    if targets == [] then []
    else
      var t := targets[|targets| - 1];
      NamesFor(targets[..|targets| - 1], file) + (if t.0 == file then [t.1] else [])
  }

  /** The lines to append to each file when each file gets a list of its
      own, `todo.setdefault(reset_file, list(motivation)).append(inpname)`. */
  function Todo(lines: seq<string>, targets: seq<(string, string)>): map<string, seq<string>> {
    if targets == [] then map[]
    else
      var t := targets[|targets| - 1];
      var prev := Todo(lines, targets[..|targets| - 1]);
      prev[t.0 := (if t.0 in prev then prev[t.0] else lines) + [t.1]]
  }

  /** A file gets lines iff some target is in it, and then it gets the
      motivation followed by the names of its own targets. */
  lemma {:induction false} TodoPerFile(lines: seq<string>, targets: seq<(string, string)>, file: string)
    ensures file in Todo(lines, targets) <==> NamesFor(targets, file) != []
    ensures file in Todo(lines, targets) ==> Todo(lines, targets)[file] == lines + NamesFor(targets, file)
  {
    if targets != [] {
      var init := targets[..|targets| - 1];
      TodoPerFile(lines, init, file);
      if file in Todo(lines, init) {
        AppendAssoc(lines, NamesFor(init, file), [targets[|targets| - 1].1]);
      }
    }
  }

  /** A file has names iff some target is in it. */
  lemma {:induction false} NamesForSome(targets: seq<(string, string)>, file: string)
    ensures NamesFor(targets, file) != [] <==> exists k :: 0 <= k < |targets| && targets[k].0 == file
  {
    if targets != [] {
      var init := targets[..|targets| - 1];
      NamesForSome(init, file);
      if exists k :: 0 <= k < |init| && init[k].0 == file {
        var k :| 0 <= k < |init| && init[k].0 == file;
        assert targets[k] == init[k];
      }
      if exists k :: 0 <= k < |targets| && targets[k].0 == file {
        var k :| 0 <= k < |targets| && targets[k].0 == file;
        if k < |init| {
          assert init[k] == targets[k];
        }
      }
    }
  }

  /** `do_reset` with a list of its own for each file: the lines appended to
      each TEST_FILES_RESET. */
  method DoReset(root: string, motivation: string, different: seq<string>) returns (todo: map<string, seq<string>>)
    ensures todo == Todo(MotivationLines(motivation), Targets(root, different))
  {
    var lines := MotivationLines(motivation);
    ghost var targets := Targets(root, different);
    todo := map[];
    for i := 0 to |different|
      invariant todo == Todo(lines, targets[..i])
    {
      assert targets[..i + 1][..i] == targets[..i];
      var file := ResetFile(root, different[i]);
      var name := InputName(different[i]);
      assert targets[..i + 1][i] == (file, name);
      var l := if file in todo then todo[file] else lines;
      todo := todo[file := l + [name]];
    }
    assert targets[..|different|] == targets;
  }

  /** A Python list, which every name bound to it shares. */
  class PyList {
    var items: seq<string>

    constructor (items: seq<string>)
      ensures this.items == items
    {
      this.items := items;
    }
  }

  /** `do_reset` as written: `todo.setdefault(reset_file, motivation)`
      stores the one motivation list under every file, so each `append`
      grows that shared list, and every file gets the motivation followed
      by the names of all selected inputs. */
  method DoResetAsWritten(root: string, motivation: string, different: seq<string>)
    returns (todo: map<string, PyList>, shared: PyList)
    ensures fresh(shared)
    ensures forall file :: file in todo ==> todo[file] == shared
    ensures todo.Keys == Files(Targets(root, different))
    ensures shared.items == MotivationLines(motivation) + Names(Targets(root, different))
  {
    var lines := MotivationLines(motivation);
    ghost var targets := Targets(root, different);
    shared := new PyList(lines);
    todo := map[];
    for i := 0 to |different|
      invariant forall file :: file in todo ==> todo[file] == shared
      invariant todo.Keys == Files(targets[..i])
      invariant shared.items == lines + Names(targets[..i])
    {
      var file := ResetFile(root, different[i]);
      var name := InputName(different[i]);
      assert targets[i] == (file, name);
      FilesSnoc(targets, i);
      NamesSnoc(targets, i);
      AppendAssoc(lines, Names(targets[..i]), [name]);
      if file !in todo {
        todo := todo[file := shared];
      }
      var l := todo[file];
      l.items := l.items + [name];
    }
    assert targets[..|different|] == targets;
  }

  /** The reset files of the targets. */
  function Files(targets: seq<(string, string)>): set<string> {
    set k | 0 <= k < |targets| :: targets[k].0
  }

  lemma FilesSnoc(targets: seq<(string, string)>, i: nat)
    requires i < |targets|
    ensures Files(targets[..i + 1]) == Files(targets[..i]) + {targets[i].0}
  {
    var a, b := targets[..i + 1], targets[..i];
    forall f ensures f in Files(a) <==> f in Files(b) || f == targets[i].0 {
      if f in Files(a) {
        var k :| 0 <= k < |a| && a[k].0 == f;
        if k < i {
          assert b[k] == a[k];
        }
      }
      if f in Files(b) {
        var k :| 0 <= k < |b| && b[k].0 == f;
        assert a[k] == b[k];
      }
      if f == targets[i].0 {
        assert a[i] == targets[i];
      }
    }
  }

  lemma NamesSnoc(targets: seq<(string, string)>, i: nat)
    requires i < |targets|
    ensures Names(targets[..i + 1]) == Names(targets[..i]) + [targets[i].1]
  {
  }

  /** The shared list mixes directories: whenever two selected inputs have
      different reset files (as `a/x` and `b/y` do), the code as written
      appends the second input's name to the first input's file, while a
      list per file gives that file only the names of its own inputs. */
  lemma SharedListMixesDirectories(lines: seq<string>, targets: seq<(string, string)>, i: nat, j: nat)
    requires i < |targets| && j < |targets| && targets[i].0 != targets[j].0
    ensures targets[j].1 in lines + Names(targets)
    ensures targets[i].0 in Todo(lines, targets)
    ensures Todo(lines, targets)[targets[i].0] == lines + NamesFor(targets, targets[i].0)
    ensures |Todo(lines, targets)[targets[i].0]| < |lines + Names(targets)|
  {
    var file := targets[i].0;
    NamesForSome(targets, file);
    TodoPerFile(lines, targets, file);
    NamesForCount(targets, file, j);
    assert Names(targets)[j] == targets[j].1;
  }

  /** A file holds fewer names than there are targets when some target is
      elsewhere. */
  lemma {:induction false} NamesForCount(targets: seq<(string, string)>, file: string, j: nat)
    requires j < |targets| && targets[j].0 != file
    ensures |NamesFor(targets, file)| < |targets|
  {
    var init := targets[..|targets| - 1];
    NamesForAtMost(init, file);
    if j < |init| {
      NamesForCount(init, file, j);
    }
  }

  lemma {:induction false} NamesForAtMost(targets: seq<(string, string)>, file: string)
    ensures |NamesFor(targets, file)| <= |targets|
  {
    if targets != [] {
      NamesForAtMost(targets[..|targets| - 1], file);
    }
  }

  // ---------------------------------------------------------------------------
  // main

  /** `main()`: the tests to reset are chosen, the user must confirm and
      give a motivation, and then each TEST_FILES_RESET gets its lines. */
  method ResetSelected(env: Host.Env, root: string, tstdir: string, flagsOf: string -> Driver.Flags, selected: seq<string>,
              answer: string, option: Option<string>, edited: Option<string>)
    returns (r: Result<map<string, seq<string>>>)
    ensures !Confirmed(answer) ==> r == Err(SystemExit(1))
    ensures Confirmed(answer) && Motivation(option, edited).Err? ==> r == Err(SystemExit(1))
    ensures Confirmed(answer) && Motivation(option, edited).Ok? ==>
              r == Ok(Todo(MotivationLines(Motivation(option, edited).value), Targets(root, Different(env, tstdir, flagsOf, selected))))
  {
    var different := GetDifferent(env, tstdir, flagsOf, selected);
    if !Confirmed(answer) {
      return Err(SystemExit(1));
    }
    var motivation := Motivation(option, edited);
    if motivation.Err? {
      return Err(motivation.error);
    }
    var todo := DoReset(root, motivation.value, different);
    return Ok(todo);
  }
}
