/** `main` of scripts/cpqa-import.py, the older converter of the legacy CP2K
    tests.  Its reading of TEST_TYPES, TEST_DIRS, TEST_FILES and
    TEST_FILES_RESET is the same code as in cpqa/importer.py and is shared
    with the `Importer` module; what differs is the conversion of each input:
    `.restart` inputs are skipped with their name printed, every header starts
    with `#CPQA FOO`, the test directive is `SINGLE-VALUE` and only '|' is
    escaped. */
module LegacyImport {
  import opened Wrappers
  import opened PyStr
  import Host
  import Paths
  import Importer
  import Data

  const FooMark: string := "#CPQA FOO"

  /** The line `'#CPQA TEST SINGLE-VALUE \'%s\' %i' % (regex.replace('|', '\|'), int(column) - 1)`. */
  function SingleValueLine(regex: string, column: int): string {
    "#CPQA TEST SINGLE-VALUE '" + Importer.Replace(regex, '|', "\\|") + "' " + IntText(column - 1)
  }

  /** Only '|' gets a backslash, and removing it gives back the regex. */
  lemma SingleValueEscapes(regex: string)
    ensures Importer.Replace(regex, '|', "\\|") == Importer.Escape(regex, {'|'})
    ensures Importer.Unescape(Importer.Replace(regex, '|', "\\|"), {'|'}) == regex
  {
    Importer.EscapeNone(regex);
    Importer.ReplaceExtends(regex, '|', {});
    assert {} + {'|'} == {'|'};
    Importer.EscapeRoundTrip(regex, {'|'});
  }

  /** The header written before every input: the FOO mark, the test
      directive when the input has a test type, and its resets. */
  function Header(env: Host.Env, legacy: Importer.Legacy, input: Importer.Entry): Result<seq<string>>
    requires Importer.GroupsNonEmpty(legacy.resets)
  {
    var resets := Importer.ResetBlock(Importer.Lookup(legacy.resets, Paths.Join(input.dir, input.name)));
    if input.index < 0 then Ok([FooMark] + resets)
    else match Importer.TestDirective(env, legacy.types, input.index, SingleValueLine)
      case Err(e) => Err(e)
      case Ok(test) => Ok([FooMark, test] + resets)
  }

  lemma SingleValueLineStarts(regex: string, column: int)
    ensures var line := SingleValueLine(regex, column);
            StartsWith(line, "#CPQA TEST SINGLE-VALUE '") && |line| > 6 && line[6] == 'T'
  {
    var line := SingleValueLine(regex, column);
    assert line[..25] == "#CPQA TEST SINGLE-VALUE '";
  }

  /** The test directive of a header is a `#CPQA TEST SINGLE-VALUE` line. */
  lemma SingleValueDirective(env: Host.Env, types: seq<string>, index: int)
    requires index >= 0 && Importer.TestDirective(env, types, index, SingleValueLine).Ok?
    ensures var line := Importer.TestDirective(env, types, index, SingleValueLine).value;
            StartsWith(line, "#CPQA TEST SINGLE-VALUE '") && |line| > 6 && line[6] == 'T'
  {
    var parts := SplitOn(types[index], '!');
    SingleValueLineStarts(parts[0], env.parseInt(parts[1]).value);
  }

  /** Every header starts with the FOO mark, holds the single-value test
      directive exactly when the input has a test type, and one
      `#CPQA RESET` line per reset of the input. */
  lemma HeaderShape(env: Host.Env, legacy: Importer.Legacy, input: Importer.Entry)
    requires Importer.GroupsNonEmpty(legacy.resets)
    ensures var h := Header(env, legacy, input);
            var resets := Importer.Lookup(legacy.resets, Paths.Join(input.dir, input.name));
            && (input.index < 0 ==> h.Ok? && |h.value| == |Importer.ResetBlock(resets)| + 1)
            && (h.Ok? ==> h.value != [] && h.value[0] == FooMark)
            && (h.Ok? && input.index >= 0 ==>
                  |h.value| == |Importer.ResetBlock(resets)| + 2 && StartsWith(h.value[1], "#CPQA TEST SINGLE-VALUE '"))
            && (h.Ok? ==> Importer.ResetCount(h.value) == |resets|)
  {
    var resets := Importer.Lookup(legacy.resets, Paths.Join(input.dir, input.name));
    var block := Importer.ResetBlock(resets);
    Importer.ResetBlockCount(resets);
    var head: seq<string>;
    if input.index < 0 {
      head := [FooMark];
    } else {
      var test := Importer.TestDirective(env, legacy.types, input.index, SingleValueLine);
      if test.Err? {
        return;
      }
      SingleValueDirective(env, legacy.types, input.index);
      head := [FooMark, test.value];
    }
    assert Header(env, legacy, input) == Ok(head + block);
    Importer.NoResetLines(head);
    Importer.ResetCountAppend(head, block);
  }

  /** What the loop body does with one input: None for a `.restart` input,
      which is only printed, otherwise the lines of its new file or the
      exception that stops the script.  The header does not depend on
      whether the input was converted before. */
  function Conversion(env: Host.Env, legacy: Importer.Legacy, input: Importer.Entry, src: seq<string>)
    : (r: Result<Option<seq<string>>>)
    requires Importer.GroupsNonEmpty(legacy.resets)
  {
    if EndsWith(input.name, ".restart") then Ok(None)
    else match Header(env, legacy, input)
      case Err(e) => Err(e)
      case Ok(h) => Ok(Some(h + Importer.Copied(src)))
  }

  /** A `.restart` input gives no file; any other input gives its header
      followed by its copied lines, even one already marked as converted. */
  lemma ConversionShape(env: Host.Env, legacy: Importer.Legacy, input: Importer.Entry, src: seq<string>)
    requires Importer.GroupsNonEmpty(legacy.resets)
    ensures var r := Conversion(env, legacy, input, src);
            && (EndsWith(input.name, ".restart") <==> r == Ok(None))
            && (r.Ok? && r.value.Some? ==>
                  var lines := r.value.value;
                  && |lines| > |src|
                  && lines[0] == FooMark
                  && lines[|lines| - |src|..] == Importer.Copied(src))
  {
    HeaderShape(env, legacy, input);
    var r := Conversion(env, legacy, input, src);
    if r.Ok? && r.value.Some? {
      var h := Header(env, legacy, input).value;
      assert r.value.value == h + Importer.Copied(src);
    }
  }

  /** One pass of the conversion loop of `main`. */
  method Convert(env: Host.Env, legacy: Importer.Legacy, input: Importer.Entry, src: seq<string>)
    returns (r: Result<Option<seq<string>>>)
    requires Importer.GroupsNonEmpty(legacy.resets)
    ensures r == Conversion(env, legacy, input, src)
  {
    if EndsWith(input.name, ".restart") {
      return Ok(None);
    }
    var h := Header(env, legacy, input);
    if h.Err? {
      return Err(h.error);
    }
    var body := Importer.CopyLines(src);
    return Ok(Some(h.value + body));
  }

  /** What the loop does for one input: write a file or print a name. */
  datatype Action = Written(path: string, lines: seq<string>) | Printed(name: string)

  /** The prefix `TestInput` is given for an input: its relative name
      without the last four characters. */
  function Prefix(input: Importer.Entry): string {
    SliceTo(Paths.Join(input.dir, input.name), -4)
  }

  /** The action for one input, or the exception it raises: a `.restart`
      input is printed before anything is opened; any other input is opened,
      converted and written, and then `TestInput` loads the source input
      again, and its exception escapes. */
  function ActionFor(env: Host.Env, root: string, indir: string, legacy: Importer.Legacy, input: Importer.Entry)
    : Result<Action>
    requires Importer.GroupsNonEmpty(legacy.resets)
  {
    if EndsWith(input.name, ".restart") then Ok(Printed(input.name))
    else
      var fn := Importer.TestsPath(root, input.dir, input.name);
      match Host.Open(env, fn)
      case Err(e) => Err(e)
      case Ok(src) =>
        match Conversion(env, legacy, input, src)
        case Err(e) => Err(e)
        case Ok(None) => Ok(Printed(input.name))
        case Ok(Some(lines)) =>
          match Data.LoadedAsWritten(env, fn, Prefix(input))
          case Err(e) => Err(e)
          case Ok(_) => Ok(Written(Importer.Destination(indir, input), lines))
  }

  /** What the script leaves behind: the files it writes and the names it
      prints. */
  datatype Imported = Imported(files: seq<(string, seq<string>)>, printed: seq<string>)

  function Tally(actions: seq<Action>): Imported {
    if actions == [] then Imported([], [])
    else
      var done := Tally(actions[..|actions| - 1]);
      match actions[|actions| - 1]
      case Written(path, lines) => done.(files := done.files + [(path, lines)])
      case Printed(name) => done.(printed := done.printed + [name])
  }

  /** Every action is counted once, as a file or as a printed name. */
  lemma {:induction false} TallyCounts(actions: seq<Action>)
    ensures |Tally(actions).files| + |Tally(actions).printed| == |actions|
  {
    if actions != [] {
      TallyCounts(actions[..|actions| - 1]);
    }
  }

  /** The outcome of the loop over the inputs, or the first error. */
  ghost function Outputs(env: Host.Env, root: string, indir: string, legacy: Importer.Legacy, inputs: seq<Importer.Entry>)
    : Result<Imported>
    requires Importer.GroupsNonEmpty(legacy.resets)
  {
    match Importer.Sequenced(seq(|inputs|, k requires 0 <= k < |inputs| => ActionFor(env, root, indir, legacy, inputs[k])))
    case Err(e) => Err(e)
    case Ok(actions) => Ok(Tally(actions))
  }

  /** A `.restart` input is printed and any other input written; the source
      of a written input is a regular file that `TestInput` loads without
      raising. */
  lemma ActionKind(env: Host.Env, root: string, indir: string, legacy: Importer.Legacy, input: Importer.Entry)
    requires Importer.GroupsNonEmpty(legacy.resets)
    ensures var a := ActionFor(env, root, indir, legacy, input);
            var fn := Importer.TestsPath(root, input.dir, input.name);
            && (EndsWith(input.name, ".restart") <==> a == Ok(Printed(input.name)))
            && (!EndsWith(input.name, ".restart") && !env.isFile(fn) ==> a.Err? && a.error.IOError?)
            && (a.Ok? && a.value.Written? ==>
                  a.value.path == Importer.Destination(indir, input) && a.value.lines[0] == FooMark &&
                  env.isFile(fn) && Data.LoadedAsWritten(env, fn, Prefix(input)).Ok?)
  {
    ConversionShape(env, legacy, input, env.readLines(Importer.TestsPath(root, input.dir, input.name)));
  }

  /** The run succeeds iff every input converts, and then every input is
      either written or, being a `.restart` input, printed. */
  lemma OutputsAccount(env: Host.Env, root: string, indir: string, legacy: Importer.Legacy, inputs: seq<Importer.Entry>)
    requires Importer.GroupsNonEmpty(legacy.resets)
    ensures var r := Outputs(env, root, indir, legacy, inputs);
            && (r.Ok? <==> forall k :: 0 <= k < |inputs| ==> ActionFor(env, root, indir, legacy, inputs[k]).Ok?)
            && (r.Ok? ==> |r.value.files| + |r.value.printed| == |inputs|)
  {
    var steps := seq(|inputs|, k requires 0 <= k < |inputs| => ActionFor(env, root, indir, legacy, inputs[k]));
    assert forall k :: 0 <= k < |inputs| ==> steps[k] == ActionFor(env, root, indir, legacy, inputs[k]);
    Importer.SequencedSteps(steps);
    if Importer.Sequenced(steps).Ok? {
      TallyCounts(Importer.Sequenced(steps).value);
    }
  }

  /** One step of the loop of `main`. */
  method Step(env: Host.Env, root: string, indir: string, legacy: Importer.Legacy, input: Importer.Entry)
    returns (r: Result<Action>)
    requires Importer.GroupsNonEmpty(legacy.resets)
    ensures r == ActionFor(env, root, indir, legacy, input)
  {
    if EndsWith(input.name, ".restart") {
      return Ok(Printed(input.name));
    }
    var fn := Importer.TestsPath(root, input.dir, input.name);
    var src := Host.Open(env, fn);
    if src.Err? {
      return Err(src.error);
    }
    var c := Convert(env, legacy, input, src.value);
    if c.Err? {
      return Err(c.error);
    }
    match c.value
    case None => return Ok(Printed(input.name));
    case Some(lines) =>
      var t := Data.LoadedAsWritten(env, fn, Prefix(input));
      if t.Err? {
        return Err(t.error);
      }
      return Ok(Written(Importer.Destination(indir, input), lines));
  }

  /** The conversion loop of `main` over all inputs. */
  method ConvertAll(env: Host.Env, root: string, indir: string, legacy: Importer.Legacy) returns (r: Result<Imported>)
    requires Importer.GroupsNonEmpty(legacy.resets)
    ensures r == Outputs(env, root, indir, legacy, legacy.inputs)
  {
    var inputs := legacy.inputs;
    ghost var steps := seq(|inputs|, k requires 0 <= k < |inputs| => ActionFor(env, root, indir, legacy, inputs[k]));
    var actions := [];
    for i := 0 to |inputs|
      invariant Importer.Sequenced(steps[..i]) == Ok(actions)
    {
      assert steps[..i + 1][..i] == steps[..i];
      var next := Step(env, root, indir, legacy, inputs[i]);
      assert next == steps[i] == steps[..i + 1][i];
      if next.Err? {
        Importer.SequencedStop(steps, i + 1);
        return Err(next.error);
      }
      actions := actions + [next.value];
    }
    assert steps[..|inputs|] == steps;
    return Ok(Tally(actions));
  }

  /** `main()` up to the copying of extra files. */
  method ImportAll(env: Host.Env, root: string, indir: string) returns (r: Result<Imported>)
    ensures Importer.LegacyOf(env, root).Err? ==> r == Err(Importer.LegacyOf(env, root).error)
    ensures Importer.LegacyOf(env, root).Ok? ==>
              Importer.GroupsNonEmpty(Importer.LegacyOf(env, root).value.resets) &&
              r == Outputs(env, root, indir, Importer.LegacyOf(env, root).value, Importer.LegacyOf(env, root).value.inputs)
  {
    var legacy := Importer.Load(env, root);
    if legacy.Err? {
      return Err(legacy.error);
    }
    Importer.LegacyOfCases(env, root);
    r := ConvertAll(env, root, indir, legacy.value);
  }
}
