/** `import_main` of cpqa/importer.py: reading the legacy CP2K test lists
    (TEST_TYPES, TEST_DIRS, the TEST_FILES and TEST_FILES_RESET of every
    directory) and turning one legacy input into a CPQA input with a
    directive header.  The files' lines come from `Host.Open` (each line
    with its '\n', IOError for a path that is not a regular file); the
    printed lines of an output file are returned, each without the '\n'
    that `print` adds.  The conversion loop is modelled twice: as written,
    where its extras step raises, and corrected, without that step. */
module Importer {
  import opened Wrappers
  import opened PyStr
  import Host
  import Paths
  import Data

  // ---------------------------------------------------------------------------
  // TEST_TYPES

  /** `line[:line.find('#')].strip()`: the text before the first '#' or,
      when there is none, before the last character (find gives -1). */
  function TypeText(line: string): string {
    Strip(SliceTo(line, Find(line, '#')))
  }

  /** Strip keeps a part of its argument. */
  lemma StripInside(s: string, c: char)
    requires c !in s
    ensures c !in Strip(s)
  {
    var i := LeadingSpaces(s);
    var r := Strip(s);
    assert r == s[i..|s| - TrailingSpaces(s[i..])];
    forall k | 0 <= k < |r|
      ensures r[k] != c
    {
      assert r[k] == s[i + k];
    }
  }

  /** A test type is cut at the first '#', or loses the line's last
      character when there is no '#', and holds no '#'. */
  lemma TypeTextCut(line: string)
    ensures Find(line, '#') >= 0 ==> TypeText(line) == Strip(line[..Find(line, '#')])
    ensures Find(line, '#') < 0 && line != [] ==> TypeText(line) == Strip(line[..|line| - 1])
    ensures '#' !in TypeText(line)
  {
    var i := Find(line, '#');
    var cut := SliceTo(line, i);
    if i >= 0 {
      assert cut == line[..i];
    } else {
      assert cut == line[..SliceBound(-1, |line|)];
      forall k | 0 <= k < |cut|
        ensures cut[k] != '#'
      {
        assert cut[k] == line[k];
      }
    }
    StripInside(cut, '#');
  }

  /** The test types of the lines after the first, blanks skipped. */
  function TypesOf(lines: seq<string>): seq<string> {
    if lines == [] then []
    else
      var t := TypeText(lines[|lines| - 1]);
      TypesOf(lines[..|lines| - 1]) + (if |t| == 0 then [] else [t])
  }

  /** Every test type is non-blank and free of '#'. */
  lemma {:induction false} TypesOfShape(lines: seq<string>)
    ensures forall k :: 0 <= k < |TypesOf(lines)| ==> TypesOf(lines)[k] != [] && '#' !in TypesOf(lines)[k]
  {
    if lines != [] {
      TypesOfShape(lines[..|lines| - 1]);
      TypeTextCut(lines[|lines| - 1]);
    }
  }

  /** Every line with a non-blank text gives a test type. */
  lemma {:induction false} TypesOfComplete(lines: seq<string>)
    ensures forall i :: 0 <= i < |lines| && TypeText(lines[i]) != [] ==> TypeText(lines[i]) in TypesOf(lines)
  {
    if lines != [] {
      var init := lines[..|lines| - 1];
      TypesOfComplete(init);
      assert forall i :: 0 <= i < |init| ==> init[i] == lines[i];
    }
  }

  /** The loop over TEST_TYPES after `f.next()` skipped the first line,
      which raises StopIteration on an empty file. */
  method ParseTypes(lines: seq<string>) returns (r: Result<seq<string>>)
    ensures lines == [] ==> r == Err(StopIteration)
    ensures lines != [] ==> r == Ok(TypesOf(lines[1..]))
  {
    if lines == [] {
      return Err(StopIteration);
    }
    var rest := lines[1..];
    var types := [];
    for i := 0 to |rest|
      invariant types == TypesOf(rest[..i])
    {
      assert rest[..i + 1][..i] == rest[..i];
      var line := TypeText(rest[i]);
      if |line| == 0 {
        continue;
      }
      types := types + [line];
    }
    assert rest[..|rest|] == rest;
    return Ok(types);
  }

  // ---------------------------------------------------------------------------
  // TEST_DIRS

  predicate IsComment(line: string) {
    StartsWith(line, "#")
  }

  /** The stripped lines that do not start with '#'. */
  function DirsOf(lines: seq<string>): seq<string> {
    if lines == [] then []
    else
      var line := lines[|lines| - 1];
      DirsOf(lines[..|lines| - 1]) + (if IsComment(line) then [] else [Strip(line)])
  }

  /** Every line that is not a comment names a directory, blank lines
      included, and every directory comes from such a line. */
  lemma {:induction false} DirsOfLines(lines: seq<string>)
    ensures forall i :: 0 <= i < |lines| && !IsComment(lines[i]) ==> Strip(lines[i]) in DirsOf(lines)
    ensures forall d :: d in DirsOf(lines) ==> exists i :: 0 <= i < |lines| && !IsComment(lines[i]) && Strip(lines[i]) == d
  {
    if lines != [] {
      var init := lines[..|lines| - 1];
      DirsOfLines(init);
      assert forall i :: 0 <= i < |init| ==> init[i] == lines[i];
    }
  }

  method ParseDirs(lines: seq<string>) returns (dirs: seq<string>)
    ensures dirs == DirsOf(lines)
  {
    dirs := [];
    for i := 0 to |lines|
      invariant dirs == DirsOf(lines[..i])
    {
      assert lines[..i + 1][..i] == lines[..i];
      if StartsWith(lines[i], "#") {
        continue;
      }
      dirs := dirs + [Strip(lines[i])];
    }
    assert lines[..|lines|] == lines;
  }

  // ---------------------------------------------------------------------------
  // TEST_FILES

  /** A legacy test input: its directory, its file name and the 0-based
      index of its test type (-1 for none). */
  datatype Entry = Entry(dir: string, name: string, index: int)

  /** `test_input, test_index = line.split()` and `int(test_index)-1`. */
  function FileEntry(env: Host.Env, dir: string, line: string): (r: Result<Entry>)
  {
    var w := Words(line);
    if |w| < 2 then
      Err(ValueError("need more than " + IntText(|w|) + (if |w| == 1 then " value" else " values") + " to unpack"))
    else if |w| > 2 then Err(ValueError("too many values to unpack"))
    else match env.parseInt(w[1])
      case None => Err(ValueError("invalid literal for int() with base 10: '" + w[1] + "'"))
      case Some(n) => Ok(Entry(dir, w[0], n - 1))
  }

  /** A line is accepted iff it has exactly two words and the second is an
      integer; the entry keeps the first word and the 1-based index less
      one. */
  lemma FileEntryParses(env: Host.Env, dir: string, line: string)
    ensures var r := FileEntry(env, dir, line);
            && (r.Ok? <==> |Words(line)| == 2 && env.parseInt(Words(line)[1]).Some?)
            && (r.Ok? ==> r.value == Entry(dir, Words(line)[0], env.parseInt(Words(line)[1]).value - 1))
            && (r.Err? ==> r.error.ValueError?)
  {
  }

  /** The entries of one TEST_FILES, or the first line's error. */
  function EntriesOf(env: Host.Env, dir: string, lines: seq<string>): Result<seq<Entry>> {
    if lines == [] then Ok([])
    else
      var line := lines[|lines| - 1];
      match EntriesOf(env, dir, lines[..|lines| - 1])
      case Err(e) => Err(e)
      case Ok(done) =>
        if IsComment(line) then Ok(done)
        else match FileEntry(env, dir, line)
          case Err(e) => Err(e)
          case Ok(entry) => Ok(done + [entry])
  }

  /** The number of lines that are not comments. */
  function Uncommented(lines: seq<string>): nat {
    if lines == [] then 0
    else Uncommented(lines[..|lines| - 1]) + (if IsComment(lines[|lines| - 1]) then 0 else 1)
  }

  /** A TEST_FILES is read iff each of its lines is a comment or an entry,
      and then there is one entry per line that is not a comment, all in
      its directory. */
  lemma {:induction false} EntriesOfLines(env: Host.Env, dir: string, lines: seq<string>)
    ensures EntriesOf(env, dir, lines).Ok? <==>
              forall i :: 0 <= i < |lines| && !IsComment(lines[i]) ==> FileEntry(env, dir, lines[i]).Ok?
    ensures EntriesOf(env, dir, lines).Ok? ==>
              && |EntriesOf(env, dir, lines).value| == Uncommented(lines)
              && forall k :: 0 <= k < |EntriesOf(env, dir, lines).value| ==> EntriesOf(env, dir, lines).value[k].dir == dir
  {
    if lines != [] {
      var init := lines[..|lines| - 1];
      EntriesOfLines(env, dir, init);
      assert forall i :: 0 <= i < |init| ==> init[i] == lines[i];
    }
  }

  /** The loop over one directory's TEST_FILES. */
  method ParseFiles(env: Host.Env, dir: string, lines: seq<string>) returns (r: Result<seq<Entry>>)
    ensures r == EntriesOf(env, dir, lines)
  {
    var entries := [];
    for i := 0 to |lines|
      invariant EntriesOf(env, dir, lines[..i]) == Ok(entries)
    {
      assert lines[..i + 1][..i] == lines[..i];
      if StartsWith(lines[i], "#") {
        continue;
      }
      var entry := FileEntry(env, dir, lines[i]);
      if entry.Err? {
        EntriesStop(env, dir, lines, i + 1);
        return Err(entry.error);
      }
      entries := entries + [entry.value];
    }
    assert lines[..|lines|] == lines;
    return Ok(entries);
  }

  /** A failing line fixes the outcome of the whole file. */
  lemma {:induction false} EntriesStop(env: Host.Env, dir: string, lines: seq<string>, j: nat)
    requires j <= |lines| && EntriesOf(env, dir, lines[..j]).Err?
    ensures EntriesOf(env, dir, lines) == EntriesOf(env, dir, lines[..j])
    decreases |lines| - j
  {
    if j < |lines| {
      assert lines[..j + 1][..j] == lines[..j];
      EntriesStop(env, dir, lines, j + 1);
    } else {
      assert lines[..j] == lines;
    }
  }

  function TestsPath(root: string, dir: string, name: string): string {
    Paths.JoinAll(root, ["tests", dir, name])
  }

  /** The entries of every directory in turn, or the first error. */
  function AllEntriesOf(env: Host.Env, root: string, dirs: seq<string>): Result<seq<Entry>> {
    if dirs == [] then Ok([])
    else
      var dir := dirs[|dirs| - 1];
      match AllEntriesOf(env, root, dirs[..|dirs| - 1])
      case Err(e) => Err(e)
      case Ok(done) =>
        match Host.Open(env, TestsPath(root, dir, "TEST_FILES"))
        case Err(e) => Err(e)
        case Ok(lines) =>
          match EntriesOf(env, dir, lines)
          case Err(e) => Err(e)
          case Ok(more) => Ok(done + more)
  }

  /** One more directory: its TEST_FILES must open and parse too. */
  lemma AllEntriesStep(env: Host.Env, root: string, dirs: seq<string>)
    requires dirs != []
    ensures var path := TestsPath(root, dirs[|dirs| - 1], "TEST_FILES");
            AllEntriesOf(env, root, dirs).Ok? <==>
              AllEntriesOf(env, root, dirs[..|dirs| - 1]).Ok? && env.isFile(path) &&
              EntriesOf(env, dirs[|dirs| - 1], env.readLines(path)).Ok?
  {
  }

  /** ok holds for every listed directory. */
  predicate Each(dirs: seq<string>, ok: string -> bool) {
    forall k :: 0 <= k < |dirs| ==> ok(dirs[k])
  }

  lemma EachSnoc(dirs: seq<string>, ok: string -> bool)
    requires dirs != []
    ensures Each(dirs, ok) <==> Each(dirs[..|dirs| - 1], ok) && ok(dirs[|dirs| - 1])
  {
    var init := dirs[..|dirs| - 1];
    if Each(dirs, ok) {
      forall k | 0 <= k < |init|
        ensures ok(init[k])
      {
        assert init[k] == dirs[k];
      }
    }
    if Each(init, ok) && ok(dirs[|dirs| - 1]) {
      forall k | 0 <= k < |dirs|
        ensures ok(dirs[k])
      {
        if k < |init| {
          assert init[k] == dirs[k];
        }
      }
    }
  }

  /** Every listed directory holds a regular file of that name. */
  predicate FilesExist(env: Host.Env, root: string, dirs: seq<string>, name: string) {
    Each(dirs, dir => env.isFile(TestsPath(root, dir, name)))
  }

  /** The TEST_FILES of every listed directory parses. */
  predicate EntriesParse(env: Host.Env, root: string, dirs: seq<string>) {
    Each(dirs, dir => EntriesOf(env, dir, env.readLines(TestsPath(root, dir, "TEST_FILES"))).Ok?)
  }

  /** Reading the entries succeeds iff the TEST_FILES of every directory
      opens and parses. */
  lemma {:induction false} AllEntriesOpen(env: Host.Env, root: string, dirs: seq<string>)
    ensures AllEntriesOf(env, root, dirs).Ok? <==>
              FilesExist(env, root, dirs, "TEST_FILES") && EntriesParse(env, root, dirs)
  {
    if dirs != [] {
      AllEntriesOpen(env, root, dirs[..|dirs| - 1]);
      AllEntriesStep(env, root, dirs);
      EachSnoc(dirs, dir => env.isFile(TestsPath(root, dir, "TEST_FILES")));
      EachSnoc(dirs, dir => EntriesOf(env, dir, env.readLines(TestsPath(root, dir, "TEST_FILES"))).Ok?);
    }
  }

  lemma {:induction false} AllEntriesStop(env: Host.Env, root: string, dirs: seq<string>, j: nat)
    requires j <= |dirs| && AllEntriesOf(env, root, dirs[..j]).Err?
    ensures AllEntriesOf(env, root, dirs) == AllEntriesOf(env, root, dirs[..j])
    decreases |dirs| - j
  {
    if j < |dirs| {
      assert dirs[..j + 1][..j] == dirs[..j];
      AllEntriesStop(env, root, dirs, j + 1);
    } else {
      assert dirs[..j] == dirs;
    }
  }

  /** The loop over the directories reading their TEST_FILES. */
  method ParseAllFiles(env: Host.Env, root: string, dirs: seq<string>) returns (r: Result<seq<Entry>>)
    ensures r == AllEntriesOf(env, root, dirs)
  {
    var inputs := [];
    for i := 0 to |dirs|
      invariant AllEntriesOf(env, root, dirs[..i]) == Ok(inputs)
    {
      assert dirs[..i + 1][..i] == dirs[..i];
      var lines := Host.Open(env, TestsPath(root, dirs[i], "TEST_FILES"));
      if lines.Err? {
        AllEntriesStop(env, root, dirs, i + 1);
        return Err(lines.error);
      }
      var more := ParseFiles(env, dirs[i], lines.value);
      if more.Err? {
        AllEntriesStop(env, root, dirs, i + 1);
        return Err(more.error);
      }
      inputs := inputs + more.value;
    }
    assert dirs[..|dirs|] == dirs;
    return Ok(inputs);
  }

  // ---------------------------------------------------------------------------
  // TEST_FILES_RESET

  /** `line[1:].strip()` */
  function CommentText(line: string): string {
    Strip(SliceFrom(line, 1))
  }

  /** The non-blank comments of the run of comment lines that ends the
      lines read so far. */
  function CommentRun(p: seq<string>): seq<string> {
    if p != [] && IsComment(p[|p| - 1]) then
      var t := CommentText(p[|p| - 1]);
      CommentRun(p[..|p| - 1]) + (if |t| > 0 then [t] else [])
    else []
  }

  /** The lines read so far without the run of file names that ends them. */
  function DropNames(p: seq<string>): seq<string> {
    if p != [] && !IsComment(p[|p| - 1]) then DropNames(p[..|p| - 1]) else p
  }

  /** The comments recorded for the file name that ends the lines read so
      far: the non-blank comments of the run before its run of names, or
      one empty comment when there are none. */
  function Group(p: seq<string>): seq<string> {
    var c := CommentRun(DropNames(p));
    if c == [] then [""] else c
  }

  /** The (file, comments) pairs a TEST_FILES_RESET yields, in order. */
  function ResetEntriesOf(dir: string, p: seq<string>): seq<(string, seq<string>)> {
    if p == [] then []
    else
      var line := p[|p| - 1];
      ResetEntriesOf(dir, p[..|p| - 1]) +
      (if IsComment(line) then [] else [(Paths.Join(dir, Strip(line)), Group(p))])
  }

  /** A group is never empty, and holds non-blank comments unless it is the
      single empty comment. */
  lemma {:induction false} GroupShape(p: seq<string>)
    ensures Group(p) != []
    ensures Group(p) == [""] || forall k :: 0 <= k < |Group(p)| ==> Group(p)[k] != []
  {
    CommentRunShape(DropNames(p));
  }

  lemma {:induction false} CommentRunShape(p: seq<string>)
    ensures forall k :: 0 <= k < |CommentRun(p)| ==> CommentRun(p)[k] != []
  {
    if p != [] && IsComment(p[|p| - 1]) {
      CommentRunShape(p[..|p| - 1]);
    }
  }

  /** File names on consecutive lines share one group of comments. */
  lemma NamesShareGroup(p: seq<string>, name: string)
    requires p != [] && !IsComment(p[|p| - 1]) && !IsComment(name)
    ensures Group(p + [name]) == Group(p)
  {
    assert (p + [name])[..|p|] == p;
  }

  /** The first name after a run of comments gets that run's non-blank
      comments, or the single empty comment. */
  lemma FirstNameGroup(p: seq<string>, name: string)
    requires p == [] || IsComment(p[|p| - 1])
    requires !IsComment(name)
    ensures Group(p + [name]) == if CommentRun(p) == [] then [""] else CommentRun(p)
  {
    var q := p + [name];
    assert q[..|q| - 1] == p;
    assert DropNames(q) == DropNames(p);
    assert DropNames(p) == p;
  }

  lemma ResetEntriesSnoc(dir: string, q: seq<string>, line: string)
    ensures ResetEntriesOf(dir, q + [line]) ==
              ResetEntriesOf(dir, q) +
              (if IsComment(line) then [] else [(Paths.Join(dir, Strip(line)), Group(q + [line]))])
  {
    assert (q + [line])[..|q|] == q;
  }

  /** A comment line extends the run of comments before it, or starts one
      after a file name. */
  lemma CommentRunSnoc(q: seq<string>, line: string)
    requires IsComment(line)
    ensures var t := CommentText(line);
            CommentRun(q + [line]) ==
              (if q != [] && IsComment(q[|q| - 1]) then CommentRun(q) else []) + (if |t| > 0 then [t] else [])
  {
    assert (q + [line])[..|q|] == q;
  }

  /** The loop's variables after the lines q: the pairs so far, the
      comments of the current group, and whether a name ended q. */
  predicate ResetScan(dir: string, q: seq<string>, entries: seq<(string, seq<string>)>,
                      comments: seq<string>, newComments: bool) {
    && entries == ResetEntriesOf(dir, q)
    && (newComments <==> q != [] && !IsComment(q[|q| - 1]))
    && (newComments ==> comments == Group(q))
    && (!newComments ==> comments == CommentRun(q))
  }

  /** One pass of the loop of `ParseResets`. */
  method ResetLine(dir: string, q: seq<string>, line: string, entries: seq<(string, seq<string>)>,
                   comments: seq<string>, newComments: bool)
    returns (entries': seq<(string, seq<string>)>, comments': seq<string>, newComments': bool)
    requires ResetScan(dir, q, entries, comments, newComments)
    ensures ResetScan(dir, q + [line], entries', comments', newComments')
  {
    ResetEntriesSnoc(dir, q, line);
    assert (q + [line])[|q|] == line;
    entries', comments', newComments' := entries, comments, newComments;
    if StartsWith(line, "#") {
      CommentRunSnoc(q, line);
      if newComments' {
        comments' := [];
      }
      var text := Strip(SliceFrom(line, 1));
      if |text| > 0 {
        comments' := comments' + [text];
      }
      newComments' := false;
    } else {
      if !newComments' {
        FirstNameGroup(q, line);
        if |comments'| == 0 {
          comments' := [""];
        }
        newComments' := true;
      } else {
        NamesShareGroup(q, line);
      }
      entries' := entries' + [(Paths.Join(dir, Strip(line)), comments')];
    }
  }

  /** The `new_comments`/`comments` loop over one TEST_FILES_RESET, past its
      first two lines: the pairs it passes to `setdefault(...).append`. */
  method ParseResets(dir: string, lines: seq<string>) returns (entries: seq<(string, seq<string>)>)
    ensures entries == ResetEntriesOf(dir, lines)
  {
    var newComments := false;
    var comments: seq<string> := [];
    entries := [];
    for i := 0 to |lines|
      invariant ResetScan(dir, lines[..i], entries, comments, newComments)
    {
      assert lines[..i + 1] == lines[..i] + [lines[i]];
      entries, comments, newComments := ResetLine(dir, lines[..i], lines[i], entries, comments, newComments);
    }
    assert lines[..|lines|] == lines;
  }

  /** `reset_info.setdefault(key, []).append(comments)` for each pair. */
  function AddResets(info: map<string, seq<seq<string>>>, entries: seq<(string, seq<string>)>)
    : map<string, seq<seq<string>>>
  {
    if entries == [] then info
    else
      var e := entries[|entries| - 1];
      var prev := AddResets(info, entries[..|entries| - 1]);
      prev[e.0 := (if e.0 in prev then prev[e.0] else []) + [e.1]]
  }

  /** The groups recorded for a key, in order. */
  function Collect(entries: seq<(string, seq<string>)>, key: string): seq<seq<string>> {
    if entries == [] then []
    else
      var e := entries[|entries| - 1];
      Collect(entries[..|entries| - 1], key) + (if e.0 == key then [e.1] else [])
  }

  function Lookup(info: map<string, seq<seq<string>>>, key: string): seq<seq<string>> {
    if key in info then info[key] else []
  }

  /** Each key's list gets the groups of its own pairs, in order, and the
      dict gains exactly the keys of the pairs. */
  lemma {:induction false} AddResetsCollects(info: map<string, seq<seq<string>>>, entries: seq<(string, seq<string>)>, key: string)
    ensures Lookup(AddResets(info, entries), key) == Lookup(info, key) + Collect(entries, key)
    ensures key in AddResets(info, entries) <==> key in info || exists k :: 0 <= k < |entries| && entries[k].0 == key
  {
    if entries != [] {
      var init := entries[..|entries| - 1];
      AddResetsCollects(info, init, key);
      if exists k :: 0 <= k < |entries| && entries[k].0 == key {
        var k :| 0 <= k < |entries| && entries[k].0 == key;
        if k < |init| {
          assert init[k].0 == key;
        }
      }
      if exists k :: 0 <= k < |init| && init[k].0 == key {
        var k :| 0 <= k < |init| && init[k].0 == key;
        assert entries[k].0 == key;
      }
    }
  }

  /** The reset dict after the first directories, or the IOError of the
      first TEST_FILES_RESET that cannot be opened. */
  function ResetInfoOf(env: Host.Env, root: string, dirs: seq<string>): Result<map<string, seq<seq<string>>>> {
    if dirs == [] then Ok(map[])
    else
      var dir := dirs[|dirs| - 1];
      match ResetInfoOf(env, root, dirs[..|dirs| - 1])
      case Err(e) => Err(e)
      case Ok(info) =>
        match Host.Open(env, TestsPath(root, dir, "TEST_FILES_RESET"))
        case Err(e) => Err(e)
        case Ok(lines) => Ok(AddResets(info, ResetEntriesOf(dir, SliceFrom(lines, 2))))
  }

  lemma {:induction false} ResetInfoStop(env: Host.Env, root: string, dirs: seq<string>, j: nat)
    requires j <= |dirs| && ResetInfoOf(env, root, dirs[..j]).Err?
    ensures ResetInfoOf(env, root, dirs) == ResetInfoOf(env, root, dirs[..j])
    decreases |dirs| - j
  {
    if j < |dirs| {
      assert dirs[..j + 1][..j] == dirs[..j];
      ResetInfoStop(env, root, dirs, j + 1);
    } else {
      assert dirs[..j] == dirs;
    }
  }

  /** One more directory: its TEST_FILES_RESET must open too. */
  lemma ResetInfoStep(env: Host.Env, root: string, dirs: seq<string>)
    requires dirs != []
    ensures var r := ResetInfoOf(env, root, dirs);
            var prev := ResetInfoOf(env, root, dirs[..|dirs| - 1]);
            var path := TestsPath(root, dirs[|dirs| - 1], "TEST_FILES_RESET");
            && (r.Ok? <==> prev.Ok? && env.isFile(path))
            && (r.Err? ==> (prev.Err? && r.error == prev.error) || r.error == Host.Open(env, path).error)
  {
  }

  /** Reading the resets fails exactly when some directory has no
      TEST_FILES_RESET to open, and then with an IOError. */
  lemma {:induction false} ResetInfoOpen(env: Host.Env, root: string, dirs: seq<string>)
    ensures ResetInfoOf(env, root, dirs).Ok? <==> FilesExist(env, root, dirs, "TEST_FILES_RESET")
    ensures ResetInfoOf(env, root, dirs).Err? ==> ResetInfoOf(env, root, dirs).error.IOError?
  {
    if dirs != [] {
      ResetInfoOpen(env, root, dirs[..|dirs| - 1]);
      ResetInfoStep(env, root, dirs);
      EachSnoc(dirs, dir => env.isFile(TestsPath(root, dir, "TEST_FILES_RESET")));
    }
  }

  /** The recorded groups are never empty. */
  predicate GroupsNonEmpty(info: map<string, seq<seq<string>>>) {
    forall key :: key in info ==> forall k :: 0 <= k < |info[key]| ==> info[key][k] != []
  }

  lemma {:induction false} ResetEntriesGroups(dir: string, p: seq<string>)
    ensures forall k :: 0 <= k < |ResetEntriesOf(dir, p)| ==> ResetEntriesOf(dir, p)[k].1 != []
  {
    if p != [] {
      ResetEntriesGroups(dir, p[..|p| - 1]);
      GroupShape(p);
    }
  }

  lemma {:induction false} AddResetsGroups(info: map<string, seq<seq<string>>>, entries: seq<(string, seq<string>)>)
    requires GroupsNonEmpty(info)
    requires forall k :: 0 <= k < |entries| ==> entries[k].1 != []
    ensures GroupsNonEmpty(AddResets(info, entries))
  {
    if entries != [] {
      AddResetsGroups(info, entries[..|entries| - 1]);
    }
  }

  /** Every list in the reset dict holds non-empty groups, so `reset[0]`
      always exists. */
  lemma {:induction false} ResetInfoGroups(env: Host.Env, root: string, dirs: seq<string>)
    ensures ResetInfoOf(env, root, dirs).Ok? ==> GroupsNonEmpty(ResetInfoOf(env, root, dirs).value)
  {
    if dirs != [] && ResetInfoOf(env, root, dirs).Ok? {
      var dir := dirs[|dirs| - 1];
      var lines := env.readLines(TestsPath(root, dir, "TEST_FILES_RESET"));
      ResetInfoGroups(env, root, dirs[..|dirs| - 1]);
      ResetEntriesGroups(dir, SliceFrom(lines, 2));
      AddResetsGroups(ResetInfoOf(env, root, dirs[..|dirs| - 1]).value, ResetEntriesOf(dir, SliceFrom(lines, 2)));
    }
  }

  /** Adding the pairs of one file to the dict. */
  method AppendResets(info: map<string, seq<seq<string>>>, entries: seq<(string, seq<string>)>)
    returns (r: map<string, seq<seq<string>>>)
    ensures r == AddResets(info, entries)
  {
    r := info;
    for k := 0 to |entries|
      invariant r == AddResets(info, entries[..k])
    {
      assert entries[..k + 1][..k] == entries[..k];
      var (key, comments) := entries[k];
      r := r[key := (if key in r then r[key] else []) + [comments]];
    }
    assert entries[..|entries|] == entries;
  }

  /** The loop over the directories reading their TEST_FILES_RESET; a file
      with fewer than two lines has nothing past them. */
  method CollectResets(env: Host.Env, root: string, dirs: seq<string>) returns (r: Result<map<string, seq<seq<string>>>>)
    ensures r == ResetInfoOf(env, root, dirs)
  {
    var info := map[];
    for i := 0 to |dirs|
      invariant ResetInfoOf(env, root, dirs[..i]) == Ok(info)
    {
      assert dirs[..i + 1][..i] == dirs[..i];
      var lines := Host.Open(env, TestsPath(root, dirs[i], "TEST_FILES_RESET"));
      if lines.Err? {
        ResetInfoStop(env, root, dirs, i + 1);
        return Err(lines.error);
      }
      var entries := ParseResets(dirs[i], SliceFrom(lines.value, 2));
      info := AppendResets(info, entries);
    }
    assert dirs[..|dirs|] == dirs;
    return Ok(info);
  }

  // ---------------------------------------------------------------------------
  // Loading the legacy lists

  /** The legacy test lists. */
  datatype Legacy = Legacy(types: seq<string>, dirs: seq<string>, inputs: seq<Entry>,
                           resets: map<string, seq<seq<string>>>)

  function TypesPath(root: string): string {
    Paths.JoinAll(root, ["tests", "TEST_TYPES"])
  }

  function DirsPath(root: string): string {
    Paths.JoinAll(root, ["tests", "TEST_DIRS"])
  }

  /** The legacy lists read in order: TEST_TYPES (its first line skipped),
      TEST_DIRS, every TEST_FILES, every TEST_FILES_RESET; or the first
      exception. */
  function LegacyOf(env: Host.Env, root: string): Result<Legacy> {
    match Host.Open(env, TypesPath(root))
    case Err(e) => Err(e)
    case Ok(typeLines) =>
      if typeLines == [] then Err(StopIteration)
      else
        var types := TypesOf(typeLines[1..]);
        match Host.Open(env, DirsPath(root))
        case Err(e) => Err(e)
        case Ok(dirLines) =>
          var dirs := DirsOf(dirLines);
          match AllEntriesOf(env, root, dirs)
          case Err(e) => Err(e)
          case Ok(inputs) =>
            match ResetInfoOf(env, root, dirs)
            case Err(e) => Err(e)
            case Ok(resets) => Ok(Legacy(types, dirs, inputs, resets))
  }

  /** Loading succeeds iff both lists open, TEST_TYPES has a first line to
      skip, and the entries and resets of the listed directories can be
      read; a missing TEST_TYPES is an IOError, an empty one StopIteration.
      A loaded reset dict holds only non-empty groups. */
  lemma LegacyOfCases(env: Host.Env, root: string)
    ensures var r := LegacyOf(env, root);
            var typeLines := env.readLines(TypesPath(root));
            var dirs := DirsOf(env.readLines(DirsPath(root)));
            && (r.Ok? <==> env.isFile(TypesPath(root)) && typeLines != [] && env.isFile(DirsPath(root)) &&
                           AllEntriesOf(env, root, dirs).Ok? && ResetInfoOf(env, root, dirs).Ok?)
            && (!env.isFile(TypesPath(root)) ==> r.Err? && r.error.IOError?)
            && (env.isFile(TypesPath(root)) && typeLines == [] ==> r == Err(StopIteration))
            && (env.isFile(TypesPath(root)) && typeLines != [] && !env.isFile(DirsPath(root)) ==>
                  r.Err? && r.error.IOError?)
            && (r.Ok? ==> r.value == Legacy(TypesOf(typeLines[1..]), dirs, AllEntriesOf(env, root, dirs).value,
                                            ResetInfoOf(env, root, dirs).value))
            && (r.Ok? ==> GroupsNonEmpty(r.value.resets))
  {
    ResetInfoGroups(env, root, DirsOf(env.readLines(DirsPath(root))));
  }

  /** The four reading loops of `import_main`, in order. */
  method Load(env: Host.Env, root: string) returns (r: Result<Legacy>)
    ensures r == LegacyOf(env, root)
  {
    var typeLines := Host.Open(env, TypesPath(root));
    if typeLines.Err? {
      return Err(typeLines.error);
    }
    var types := ParseTypes(typeLines.value);
    if types.Err? {
      return Err(types.error);
    }
    var dirLines := Host.Open(env, DirsPath(root));
    if dirLines.Err? {
      return Err(dirLines.error);
    }
    var dirs := ParseDirs(dirLines.value);
    var inputs := ParseAllFiles(env, root, dirs);
    if inputs.Err? {
      return Err(inputs.error);
    }
    var resets := CollectResets(env, root, dirs);
    if resets.Err? {
      return Err(resets.error);
    }
    return Ok(Legacy(types.value, dirs, inputs.value, resets.value));
  }

  // ---------------------------------------------------------------------------
  // Converting one input

  const ConvertedMark: string := "#CPQA CONVERTED"

  /** `is_converted(f)`: the loop that stops at the first line marking the
      file as converted.  The file is rewound afterwards, which the model
      gets for free by passing the lines by value. */
  method IsConverted(lines: seq<string>) returns (result: bool)
    ensures result <==> exists i :: 0 <= i < |lines| && Strip(lines[i]) == ConvertedMark
  {
    result := false;
    var i := 0;
    while i < |lines|
      invariant 0 <= i <= |lines|
      invariant forall k :: 0 <= k < i ==> Strip(lines[k]) != ConvertedMark
    {
      if Strip(lines[i]) == ConvertedMark {
        result := true;
        break;
      }
      i := i + 1;
    }
  }

  /** `s.replace(c, r)` for a single character c. */
  function Replace(s: string, c: char, r: string): string {
    if s == [] then []
    else (if s[0] == c then r else [s[0]]) + Replace(s[1..], c, r)
  }

  /** Every character of `specials` preceded by a backslash. */
  function Escape(s: string, specials: set<char>): string {
    if s == [] then []
    else (if s[0] in specials then ['\\', s[0]] else [s[0]]) + Escape(s[1..], specials)
  }

  /** Removing the backslash before every special character. */
  function Unescape(s: string, specials: set<char>): string {
    if s == [] then []
    else if |s| >= 2 && s[0] == '\\' && s[1] in specials then [s[1]] + Unescape(s[2..], specials)
    else [s[0]] + Unescape(s[1..], specials)
  }

  const Specials: set<char> := {'|', '(', ')', '+'}

  /** The regex escaping of `import_main`. */
  function EscapeRegex(regex: string): string {
    Replace(Replace(Replace(Replace(regex, '|', "\\|"), '(', "\\("), ')', "\\)"), '+', "\\+")
  }

  /** Replacing one more special character extends the escaping by it,
      since the inserted backslashes are not special. */
  lemma {:induction false} ReplaceExtends(s: string, c: char, specials: set<char>)
    requires '\\' !in specials && c != '\\' && c !in specials
    ensures Replace(Escape(s, specials), c, ['\\', c]) == Escape(s, specials + {c})
  {
    if s != [] {
      ReplaceExtends(s[1..], c, specials);
      var head := if s[0] in specials then ['\\', s[0]] else [s[0]];
      ReplaceAppend(head, Escape(s[1..], specials), c, ['\\', c]);
      if s[0] in specials {
        assert Replace(head, c, ['\\', c]) == head by {
          assert head[1..] == [s[0]] && head[1..][1..] == [];
        }
      } else {
        assert Replace(head, c, ['\\', c]) == (if s[0] == c then ['\\', c] else [s[0]]) by {
          assert head[1..] == [];
        }
      }
    }
  }

  lemma {:induction false} ReplaceAppend(a: string, b: string, c: char, r: string)
    ensures Replace(a + b, c, r) == Replace(a, c, r) + Replace(b, c, r)
  {
    if a == [] {
      assert a + b == b;
    } else {
      assert (a + b)[0] == a[0] && (a + b)[1..] == a[1..] + b;
      ReplaceAppend(a[1..], b, c, r);
      AppendAssoc(if a[0] == c then r else [a[0]], Replace(a[1..], c, r), Replace(b, c, r));
    }
  }

  lemma {:induction false} EscapeNone(s: string)
    ensures Escape(s, {}) == s
  {
    if s != [] {
      EscapeNone(s[1..]);
      assert [s[0]] + s[1..] == s;
    }
  }

  /** The chain of `replace` calls puts a backslash before each '|', '(',
      ')' and '+', and nowhere else. */
  lemma EscapeRegexEscapes(regex: string)
    ensures EscapeRegex(regex) == Escape(regex, Specials)
  {
    EscapeNone(regex);
    ReplaceExtends(regex, '|', {});
    ReplaceExtends(regex, '(', {'|'});
    ReplaceExtends(regex, ')', {'|', '('});
    ReplaceExtends(regex, '+', {'|', '(', ')'});
    assert {} + {'|'} == {'|'};
    assert {'|'} + {'('} == {'|', '('};
    assert {'|', '('} + {')'} == {'|', '(', ')'};
    assert {'|', '(', ')'} + {'+'} == Specials;
  }

  /** An escaped string starts with the backslash before a special first
      character, or with the first character itself. */
  lemma EscapeHead(s: string, specials: set<char>)
    requires s != []
    ensures Escape(s, specials) != []
    ensures s[0] in specials ==> Escape(s, specials)[0] == '\\'
    ensures s[0] !in specials ==> Escape(s, specials)[0] == s[0]
  {
  }

  /** Escaping loses nothing: removing the added backslashes gives back the
      regex. */
  lemma {:induction false} EscapeRoundTrip(s: string, specials: set<char>)
    requires '\\' !in specials
    ensures Unescape(Escape(s, specials), specials) == s
  {
    if s != [] {
      var rest := Escape(s[1..], specials);
      EscapeRoundTrip(s[1..], specials);
      if s[0] in specials {
        assert Escape(s, specials) == ['\\', s[0]] + rest;
        assert (['\\', s[0]] + rest)[2..] == rest;
      } else {
        assert Escape(s, specials) == [s[0]] + rest;
        if rest != [] {
          EscapeHead(s[1..], specials);
        }
        assert ([s[0]] + rest)[1..] == rest;
      }
    }
  }

  /** The line `'#CPQA TEST SCALAR \'%s\' %i' % (regex, int(column) - 1)`. */
  function ScalarLine(regex: string, column: int): string {
    "#CPQA TEST SCALAR '" + EscapeRegex(regex) + "' " + IntText(column - 1)
  }

  /** `'%s' % regex, int(column)` after `regex, column = test_types[i].split('!')`. */
  function TestDirective(env: Host.Env, types: seq<string>, index: int, line: (string, int) -> string)
    : (r: Result<string>)
    requires index >= 0
  {
    if index >= |types| then Err(IndexError)
    else
      var parts := SplitOn(types[index], '!');
      if |parts| < 2 then
        Err(ValueError("need more than " + IntText(|parts|) + " value to unpack"))
      else if |parts| > 2 then Err(ValueError("too many values to unpack"))
      else match env.parseInt(parts[1])
        case None => Err(ValueError("invalid literal for int() with base 10: '" + parts[1] + "'"))
        case Some(column) => Ok(line(parts[0], column))
  }

  /** The test directive exists iff the index names a test type with one
      '!' followed by an integer column. */
  lemma TestDirectiveParses(env: Host.Env, types: seq<string>, index: int, line: (string, int) -> string)
    requires index >= 0
    ensures var r := TestDirective(env, types, index, line);
            && (r.Ok? <==> index < |types| && CountChar(types[index], '!') == 1 &&
                           env.parseInt(SplitOn(types[index], '!')[1]).Some?)
            && (r.Ok? ==> r.value == line(SplitOn(types[index], '!')[0], env.parseInt(SplitOn(types[index], '!')[1]).value))
  {
  }

  /** The lines printed for one reset: `'#CPQA RESET', reset[0]`, then each
      further comment after `'#          '` (print puts a space between). */
  function ResetLines(reset: seq<string>): (r: seq<string>)
    requires reset != []
    ensures |r| == |reset|
  {
    ["#CPQA RESET " + reset[0]] + seq(|reset| - 1, k requires 0 <= k < |reset| - 1 => "#           " + reset[k + 1])
  }

  /** The lines printed for all resets of an input, in order. */
  function ResetBlock(resets: seq<seq<string>>): (r: seq<string>)
    requires forall k :: 0 <= k < |resets| ==> resets[k] != []
  {
    if resets == [] then []
    else ResetBlock(resets[..|resets| - 1]) + ResetLines(resets[|resets| - 1])
  }

  /** The number of lines that start a reset. */
  function ResetCount(lines: seq<string>): nat {
    if lines == [] then 0
    else ResetCount(lines[..|lines| - 1]) + (if StartsWith(lines[|lines| - 1], "#CPQA RESET") then 1 else 0)
  }

  lemma {:induction false} ResetCountAppend(a: seq<string>, b: seq<string>)
    ensures ResetCount(a + b) == ResetCount(a) + ResetCount(b)
    decreases |b|
  {
    if b != [] {
      assert (a + b)[..|a + b| - 1] == a + b[..|b| - 1];
      ResetCountAppend(a, b[..|b| - 1]);
    } else {
      assert a + b == a;
    }
  }

  /** A line that differs from a prefix at one of its positions does not
      start with it. */
  lemma Mismatch(line: string, prefix: string, k: nat)
    requires k < |prefix| && k < |line| && line[k] != prefix[k]
    ensures !StartsWith(line, prefix)
  {
    if |prefix| <= |line| {
      assert line[..|prefix|][k] == line[k];
    }
  }

  /** Exactly one line of a reset starts a reset: the continuation lines
      start with '#' and a space. */
  lemma {:induction false} ResetLinesCount(reset: seq<string>, n: nat)
    requires reset != [] && n <= |reset|
    ensures ResetCount(ResetLines(reset)[..n]) == if n == 0 then 0 else 1
  {
    if n > 0 {
      var lines := ResetLines(reset);
      ResetLinesCount(reset, n - 1);
      assert lines[..n][..n - 1] == lines[..n - 1];
      if n > 1 {
        assert lines[n - 1][1] == ' ';
        Mismatch(lines[n - 1], "#CPQA RESET", 1);
      }
    }
  }

  /** One `#CPQA RESET` line is printed per reset entry, with the reset's
      first comment, and the block holds every comment of every reset. */
  lemma {:induction false} ResetBlockCount(resets: seq<seq<string>>)
    requires forall k :: 0 <= k < |resets| ==> resets[k] != []
    ensures ResetCount(ResetBlock(resets)) == |resets|
  {
    if resets != [] {
      var last := resets[|resets| - 1];
      ResetBlockCount(resets[..|resets| - 1]);
      ResetLinesCount(last, |last|);
      assert ResetLines(last)[..|last|] == ResetLines(last);
      ResetCountAppend(ResetBlock(resets[..|resets| - 1]), ResetLines(last));
    }
  }

  /** The header `import_main` writes before an input that is not yet
      converted: the mark, the test directive when the input has a test
      type, and its resets. */
  function Header(env: Host.Env, legacy: Legacy, input: Entry): Result<seq<string>>
    requires GroupsNonEmpty(legacy.resets)
  {
    var resets := ResetBlock(Lookup(legacy.resets, Paths.Join(input.dir, input.name)));
    if input.index < 0 then Ok([ConvertedMark] + resets)
    else match TestDirective(env, legacy.types, input.index, ScalarLine)
      case Err(e) => Err(e)
      case Ok(test) => Ok([ConvertedMark, test] + resets)
  }

  /** Lines whose seventh character is not the 'R' of RESET start no reset. */
  lemma {:induction false} NoResetLines(lines: seq<string>)
    requires forall k :: 0 <= k < |lines| ==> |lines[k]| > 6 && lines[k][6] != 'R'
    ensures ResetCount(lines) == 0
  {
    if lines != [] {
      NoResetLines(lines[..|lines| - 1]);
      Mismatch(lines[|lines| - 1], "#CPQA RESET", 6);
    }
  }

  /** The test directive of a header is a `#CPQA TEST SCALAR` line. */
  lemma ScalarDirective(env: Host.Env, types: seq<string>, index: int)
    requires index >= 0 && TestDirective(env, types, index, ScalarLine).Ok?
    ensures var line := TestDirective(env, types, index, ScalarLine).value;
            StartsWith(line, "#CPQA TEST SCALAR '") && |line| > 6 && line[6] == 'T'
  {
    var parts := SplitOn(types[index], '!');
    var line := ScalarLine(parts[0], env.parseInt(parts[1]).value);
    assert TestDirective(env, types, index, ScalarLine).value == line;
    assert line[..19][6] == 'T';
  }

  /** The header starts with the mark, holds the scalar test directive
      exactly when the input has a test type, and one `#CPQA RESET` line
      per reset of the input. */
  lemma HeaderShape(env: Host.Env, legacy: Legacy, input: Entry)
    requires GroupsNonEmpty(legacy.resets)
    ensures var h := Header(env, legacy, input);
            var resets := Lookup(legacy.resets, Paths.Join(input.dir, input.name));
            && (input.index < 0 ==> h.Ok? && |h.value| == |ResetBlock(resets)| + 1)
            && (h.Ok? ==> h.value != [] && h.value[0] == ConvertedMark)
            && (h.Ok? && input.index >= 0 ==>
                  |h.value| == |ResetBlock(resets)| + 2 && StartsWith(h.value[1], "#CPQA TEST SCALAR '"))
            && (h.Ok? ==> ResetCount(h.value) == |resets|)
  {
    var resets := Lookup(legacy.resets, Paths.Join(input.dir, input.name));
    var block := ResetBlock(resets);
    ResetBlockCount(resets);
    var head: seq<string>;
    if input.index < 0 {
      head := [ConvertedMark];
    } else {
      var test := TestDirective(env, legacy.types, input.index, ScalarLine);
      if test.Err? {
        return;
      }
      ScalarDirective(env, legacy.types, input.index);
      head := [ConvertedMark, test.value];
    }
    assert Header(env, legacy, input) == Ok(head + block);
    NoResetLines(head);
    ResetCountAppend(head, block);
  }

  /** The input's lines as `print >> f_dst, line[:-1]` writes them. */
  function Copied(lines: seq<string>): (r: seq<string>)
    ensures |r| == |lines|
  {
    seq(|lines|, i requires 0 <= i < |lines| => SliceTo(lines[i], -1))
  }

  /** A copied line is the source line without its newline. */
  lemma CopyDropsNewline(lines: seq<string>, i: nat)
    requires i < |lines| && EndsWith(lines[i], "\n")
    ensures Copied(lines)[i] + "\n" == lines[i]
  {
  }

  /** `for line in f_src: print >> f_dst, line[:-1]` */
  method CopyLines(lines: seq<string>) returns (out: seq<string>)
    ensures out == Copied(lines)
  {
    out := [];
    for i := 0 to |lines|
      invariant out == Copied(lines[..i])
    {
      out := out + [SliceTo(lines[i], -1)];
    }
    assert lines[..|lines|] == lines;
  }

  /** The input already holds a line marking it as converted. */
  ghost predicate MarkedConverted(src: seq<string>) {
    exists i :: 0 <= i < |src| && Strip(src[i]) == ConvertedMark
  }

  /** The lines `import_main` writes for one input, or the exception that
      stops the import. */
  ghost function Conversion(env: Host.Env, legacy: Legacy, input: Entry, src: seq<string>): Result<seq<string>>
    requires GroupsNonEmpty(legacy.resets)
  {
    if MarkedConverted(src) then Ok(Copied(src))
    else match Header(env, legacy, input)
      case Err(e) => Err(e)
      case Ok(h) => Ok(h + Copied(src))
  }

  /** A converted input is copied without a header; any other input gets
      the header, and fails exactly when the header does; the copied lines
      always end the output. */
  lemma ConversionShape(env: Host.Env, legacy: Legacy, input: Entry, src: seq<string>)
    requires GroupsNonEmpty(legacy.resets)
    ensures var r := Conversion(env, legacy, input, src);
            var h := Header(env, legacy, input);
            && (MarkedConverted(src) ==> r == Ok(Copied(src)))
            && (!MarkedConverted(src) ==> (r.Err? <==> h.Err?) && (r.Err? ==> r.error == h.error))
            && (!MarkedConverted(src) && r.Ok? ==> |r.value| == |h.value| + |src| && r.value[..|h.value|] == h.value)
            && (r.Ok? ==> |r.value| >= |src| && r.value[|r.value| - |src|..] == Copied(src))
  {
    var r := Conversion(env, legacy, input, src);
    if !MarkedConverted(src) && r.Ok? {
      var h := Header(env, legacy, input).value;
      assert r.value == h + Copied(src);
      assert r.value[..|h|] == h;
    }
  }

  /** One pass of the conversion loop of `import_main`. */
  method Convert(env: Host.Env, legacy: Legacy, input: Entry, src: seq<string>) returns (r: Result<seq<string>>)
    requires GroupsNonEmpty(legacy.resets)
    ensures r == Conversion(env, legacy, input, src)
  {
    var converted := IsConverted(src);
    var header := [];
    if !converted {
      var h := Header(env, legacy, input);
      if h.Err? {
        return Err(h.error);
      }
      header := h.value;
    }
    var body := CopyLines(src);
    assert converted ==> header + body == body;
    r := Ok(header + body);
  }

  /** Where an input is written: `os.path.join(config.indir, test_dir)`
      and then its name. */
  function Destination(indir: string, input: Entry): string {
    Paths.Join(Paths.Join(indir, input.dir), input.name)
  }

  /** The file written for one input, or the exception it raises. */
  ghost function FileFor(env: Host.Env, root: string, indir: string, legacy: Legacy, input: Entry)
    : Result<(string, seq<string>)>
    requires GroupsNonEmpty(legacy.resets)
  {
    match Host.Open(env, TestsPath(root, input.dir, input.name))
    case Err(e) => Err(e)
    case Ok(src) =>
      match Conversion(env, legacy, input, src)
      case Err(e) => Err(e)
      case Ok(lines) => Ok((Destination(indir, input), lines))
  }

  /** The values of a run of steps, or the error of its first failing
      step. */
  function Sequenced<T>(rs: seq<Result<T>>): (r: Result<seq<T>>)
  {
    if rs == [] then Ok([])
    else match Sequenced(rs[..|rs| - 1])
      case Err(e) => Err(e)
      case Ok(done) =>
        match rs[|rs| - 1]
        case Err(e) => Err(e)
        case Ok(v) => Ok(done + [v])
  }

  /** A run succeeds iff every step does, with one value per step in order;
      otherwise it fails with the error of its first failing step. */
  lemma {:induction false} SequencedSteps<T>(rs: seq<Result<T>>)
    ensures Sequenced(rs).Ok? <==> forall k :: 0 <= k < |rs| ==> rs[k].Ok?
    ensures Sequenced(rs).Ok? ==> |Sequenced(rs).value| == |rs| && forall k :: 0 <= k < |rs| ==> rs[k] == Ok(Sequenced(rs).value[k])
    ensures Sequenced(rs).Err? ==> exists j :: 0 <= j < |rs| && rs[j].Err? && Sequenced(rs).error == rs[j].error &&
                                            forall k :: 0 <= k < j ==> rs[k].Ok?
  {
    if rs != [] {
      var init := rs[..|rs| - 1];
      SequencedSteps(init);
      assert forall k :: 0 <= k < |init| ==> init[k] == rs[k];
      if Sequenced(init).Err? {
        var j :| 0 <= j < |init| && init[j].Err? && Sequenced(init).error == init[j].error &&
                 forall k :: 0 <= k < j ==> init[k].Ok?;
        assert rs[j] == init[j];
      }
    }
  }

  /** Once a step fails, the later steps do not matter. */
  lemma {:induction false} SequencedStop<T>(rs: seq<Result<T>>, j: nat)
    requires j <= |rs| && Sequenced(rs[..j]).Err?
    ensures Sequenced(rs) == Sequenced(rs[..j])
    decreases |rs| - j
  {
    if j < |rs| {
      assert rs[..j + 1][..j] == rs[..j];
      SequencedStop(rs, j + 1);
    } else {
      assert rs[..j] == rs;
    }
  }

  /** The files written for the inputs, in order, or the first error. */
  ghost function Outputs(env: Host.Env, root: string, indir: string, legacy: Legacy, inputs: seq<Entry>)
    : Result<seq<(string, seq<string>)>>
    requires GroupsNonEmpty(legacy.resets)
  {
    Sequenced(seq(|inputs|, k requires 0 <= k < |inputs| => FileFor(env, root, indir, legacy, inputs[k])))
  }

  /** The import succeeds iff every input converts; then each input gets
      one file, in order. */
  lemma OutputsPerInput(env: Host.Env, root: string, indir: string, legacy: Legacy, inputs: seq<Entry>)
    requires GroupsNonEmpty(legacy.resets)
    ensures var r := Outputs(env, root, indir, legacy, inputs);
            && (r.Ok? <==> forall k :: 0 <= k < |inputs| ==> FileFor(env, root, indir, legacy, inputs[k]).Ok?)
            && (r.Ok? ==> |r.value| == |inputs| &&
                          forall k :: 0 <= k < |inputs| ==> FileFor(env, root, indir, legacy, inputs[k]) == Ok(r.value[k]))
  {
    var steps := seq(|inputs|, k requires 0 <= k < |inputs| => FileFor(env, root, indir, legacy, inputs[k]));
    assert Outputs(env, root, indir, legacy, inputs) == Sequenced(steps);
    assert forall k :: 0 <= k < |inputs| ==> steps[k] == FileFor(env, root, indir, legacy, inputs[k]);
    SequencedSteps(steps);
  }

  /** The file of an input is written at its destination and holds the
      conversion of its source file; a source that cannot be opened is an
      IOError. */
  lemma FileForInput(env: Host.Env, root: string, indir: string, legacy: Legacy, input: Entry)
    requires GroupsNonEmpty(legacy.resets)
    ensures var f := FileFor(env, root, indir, legacy, input);
            var src := TestsPath(root, input.dir, input.name);
            var c := Conversion(env, legacy, input, env.readLines(src));
            && (f.Ok? <==> env.isFile(src) && c.Ok?)
            && (!env.isFile(src) ==> f.Err? && f.error.IOError?)
            && (f.Ok? ==> f.value == (Paths.Join(Paths.Join(indir, input.dir), input.name), c.value))
  {
  }

  /** Converting one input and naming its destination. */
  method ConvertFile(env: Host.Env, root: string, indir: string, legacy: Legacy, input: Entry)
    returns (r: Result<(string, seq<string>)>)
    requires GroupsNonEmpty(legacy.resets)
    ensures r == FileFor(env, root, indir, legacy, input)
  {
    var src := Host.Open(env, TestsPath(root, input.dir, input.name));
    if src.Err? {
      return Err(src.error);
    }
    var lines := Convert(env, legacy, input, src.value);
    if lines.Err? {
      return Err(lines.error);
    }
    return Ok((Destination(indir, input), lines.value));
  }

  /** The conversion loop of `import_main` over all inputs. */
  method ConvertAll(env: Host.Env, root: string, indir: string, legacy: Legacy) returns (r: Result<seq<(string, seq<string>)>>)
    requires GroupsNonEmpty(legacy.resets)
    ensures r == Outputs(env, root, indir, legacy, legacy.inputs)
  {
    var inputs := legacy.inputs;
    ghost var steps := seq(|inputs|, k requires 0 <= k < |inputs| => FileFor(env, root, indir, legacy, inputs[k]));
    var files := [];
    for i := 0 to |inputs|
      invariant Sequenced(steps[..i]) == Ok(files)
    {
      assert steps[..i + 1][..i] == steps[..i];
      var file := ConvertFile(env, root, indir, legacy, inputs[i]);
      assert file == steps[i];
      if file.Err? {
        SequencedStop(steps, i + 1);
        return Err(file.error);
      }
      files := files + [file.value];
    }
    assert steps[..|inputs|] == steps;
    return Ok(files);
  }

  /** `import_main(config)` up to the copying of extra files: the legacy
      lists are read and every input is converted. */
  method ImportMain(env: Host.Env, root: string, indir: string) returns (r: Result<seq<(string, seq<string>)>>)
    ensures LegacyOf(env, root).Err? ==> r == Err(LegacyOf(env, root).error)
    ensures LegacyOf(env, root).Ok? ==>
              GroupsNonEmpty(LegacyOf(env, root).value.resets) &&
              r == Outputs(env, root, indir, LegacyOf(env, root).value, LegacyOf(env, root).value.inputs)
  {
    var legacy := Load(env, root);
    if legacy.Err? {
      return Err(legacy.error);
    }
    LegacyOfCases(env, root);
    r := ConvertAll(env, root, indir, legacy.value);
  }

  // ---------------------------------------------------------------------------
  // The conversion loop as written

  /** What the loop body as written raises once an input's file is written:
      `TestInput` is constructed on the `tests` directory itself, and were
      that to succeed, `paths_extra` is read, which `TestInput` does not
      define (it sets `extra_paths`). */
  function ExtrasError(env: Host.Env, root: string, input: Entry): (e: PyError)
    ensures !env.isFile(Paths.Join(root, "tests")) ==> e.IOError?
  {
    Data.LoadedNeedsFile(env, Paths.Join(root, "tests"), Paths.Join(input.dir, input.name));
    match Data.LoadedAsWritten(env, Paths.Join(root, "tests"), Paths.Join(input.dir, input.name))
    case Err(e) => e
    case Ok(_) => AttributeError("paths_extra")
  }

  /** The files a run has written, and the exception that ended it, if any. */
  datatype Run = Run(written: seq<(string, seq<string>)>, raised: Option<PyError>)

  /** The conversion loop as written over the first inputs: each pass writes
      its file and then raises at the extras step. */
  ghost function RunAsWritten(env: Host.Env, root: string, indir: string, legacy: Legacy, inputs: seq<Entry>): Run
    requires GroupsNonEmpty(legacy.resets)
  {
    if inputs == [] then Run([], None)
    else
      var done := RunAsWritten(env, root, indir, legacy, inputs[..|inputs| - 1]);
      if done.raised.Some? then done
      else
        var input := inputs[|inputs| - 1];
        match FileFor(env, root, indir, legacy, input)
        case Err(e) => Run(done.written, Some(e))
        case Ok(f) => Run(done.written + [f], Some(ExtrasError(env, root, input)))
  }

  lemma {:induction false} RunStop(env: Host.Env, root: string, indir: string, legacy: Legacy, inputs: seq<Entry>, j: nat)
    requires GroupsNonEmpty(legacy.resets)
    requires j <= |inputs| && RunAsWritten(env, root, indir, legacy, inputs[..j]).raised.Some?
    ensures RunAsWritten(env, root, indir, legacy, inputs) == RunAsWritten(env, root, indir, legacy, inputs[..j])
    decreases |inputs| - j
  {
    if j < |inputs| {
      assert inputs[..j + 1][..j] == inputs[..j];
      RunStop(env, root, indir, legacy, inputs, j + 1);
    } else {
      assert inputs[..j] == inputs;
    }
  }

  /** As written, the loop never reaches a second input: the first one is
      written, if it converts, and then the run raises. */
  lemma {:induction false} AsWrittenStopsAfterFirst(env: Host.Env, root: string, indir: string, legacy: Legacy, inputs: seq<Entry>)
    requires GroupsNonEmpty(legacy.resets)
    requires inputs != []
    ensures var run := RunAsWritten(env, root, indir, legacy, inputs);
            var first := FileFor(env, root, indir, legacy, inputs[0]);
            && (first.Ok? ==> run == Run([first.value], Some(ExtrasError(env, root, inputs[0]))))
            && (first.Err? ==> run == Run([], Some(first.error)))
  {
    var init := inputs[..|inputs| - 1];
    if init != [] {
      AsWrittenStopsAfterFirst(env, root, indir, legacy, init);
      assert init[0] == inputs[0];
    }
  }

  /** Whenever the corrected loop converts two inputs or more, the loop as
      written has written only the first of them, and raised. */
  lemma AsWrittenMissesSecond(env: Host.Env, root: string, indir: string, legacy: Legacy, inputs: seq<Entry>)
    requires GroupsNonEmpty(legacy.resets)
    requires |inputs| >= 2 && Outputs(env, root, indir, legacy, inputs).Ok?
    ensures var run := RunAsWritten(env, root, indir, legacy, inputs);
            && run.raised.Some?
            && run.written == Outputs(env, root, indir, legacy, inputs).value[..1]
            && |run.written| < |Outputs(env, root, indir, legacy, inputs).value|
  {
    OutputsPerInput(env, root, indir, legacy, inputs);
    AsWrittenStopsAfterFirst(env, root, indir, legacy, inputs);
  }

  /** The conversion loop of `import_main` as written, extras step included. */
  method ConvertAllAsWritten(env: Host.Env, root: string, indir: string, legacy: Legacy)
    returns (written: seq<(string, seq<string>)>, raised: Option<PyError>)
    requires GroupsNonEmpty(legacy.resets)
    ensures Run(written, raised) == RunAsWritten(env, root, indir, legacy, legacy.inputs)
  {
    var inputs := legacy.inputs;
    written := [];
    raised := None;
    for i := 0 to |inputs|
      invariant RunAsWritten(env, root, indir, legacy, inputs[..i]) == Run(written, None)
    {
      assert inputs[..i + 1][..i] == inputs[..i];
      var file := ConvertFile(env, root, indir, legacy, inputs[i]);
      if file.Err? {
        raised := Some(file.error);
        RunStop(env, root, indir, legacy, inputs, i + 1);
        return;
      }
      written := written + [file.value];
      var t := Data.LoadedAsWritten(env, Paths.Join(root, "tests"), Paths.Join(inputs[i].dir, inputs[i].name));
      raised := Some(if t.Err? then t.error else AttributeError("paths_extra"));
      RunStop(env, root, indir, legacy, inputs, i + 1);
      return;
    }
    assert inputs[..|inputs|] == inputs;
  }
}
