/** `Work.__init__`: the checks on the input and test directories, the
    discovery of the active inputs under the input directory, the resolution
    of their dependencies and their random order.

    Inputs refer to the inputs they depend on by prefix.  `Work` replaces
    every dependency prefix d by the object `lookup[d]`, whose prefix is d
    (`LookupKeys`), so the prefix lists of this model carry the same
    information; what resolution adds is its two failures, which are
    modelled. */
module Work {
  import opened Wrappers
  import opened PyStr
  import Host
  import Paths
  import opened Data

  /** One entry of `os.walk(indir)`: a directory and the names of its files. */
  datatype WalkEntry = WalkEntry(root: string, filenames: seq<string>)

  /** An input file the walk finds: its path and the prefix derived from it. */
  datatype Candidate = Candidate(fn: string, prefix: string)

  // ---------------------------------------------------------------------------
  // Discovery

  /** Only names ending in ".inp" are inputs; the prefix is the path without
      `indir` and the separator after it in front and without its last four
      characters. */
  function CandidateOf(indir: string, root: string, name: string): Option<Candidate> {
    if EndsWith(name, ".inp") then
      var fn := Paths.Join(root, name);
      Some(Candidate(fn, Slice(fn, |indir| + 1, -4)))
    else None
  }

  /** The inputs among the files of one directory, in order. */
  function RootCandidates(indir: string, root: string, names: seq<string>): seq<Candidate>
    decreases |names|
  {
    if names == [] then []
    else RootCandidates(indir, root, names[..|names| - 1]) + Opt(CandidateOf(indir, root, names[|names| - 1]))
  }

  /** The inputs of the whole walk, in walk order. */
  function Candidates(indir: string, walk: seq<WalkEntry>): seq<Candidate>
    decreases |walk|
  {
    if walk == [] then []
    else
      var e := walk[|walk| - 1];
      Candidates(indir, walk[..|walk| - 1]) + RootCandidates(indir, e.root, e.filenames)
  }

  predicate IsInput(indir: string, c: Candidate) {
    EndsWith(c.fn, ".inp") && c.prefix == Slice(c.fn, |indir| + 1, -4)
  }

  lemma EndsWithTrans(s: string, t: string, u: string)
    requires EndsWith(s, t) && EndsWith(t, u)
    ensures EndsWith(s, u)
  {
    assert s[|s| - |u|..] == t[|t| - |u|..];
  }

  lemma CandidateOfIsInput(indir: string, root: string, name: string)
    ensures CandidateOf(indir, root, name).Some? ==> IsInput(indir, CandidateOf(indir, root, name).value)
  {
    if EndsWith(name, ".inp") {
      Paths.JoinEndsWith(root, name);
      EndsWithTrans(Paths.Join(root, name), name, ".inp");
    }
  }

  lemma {:induction false} RootCandidatesAreInputs(indir: string, root: string, names: seq<string>)
    ensures forall c :: c in RootCandidates(indir, root, names) ==> IsInput(indir, c)
    decreases |names|
  {
    if names != [] {
      RootCandidatesAreInputs(indir, root, names[..|names| - 1]);
      CandidateOfIsInput(indir, root, names[|names| - 1]);
    }
  }

  /** Every file the walk yields as an input ends in ".inp" and carries the
      prefix derived from its path. */
  lemma {:induction false} CandidatesAreInputs(indir: string, walk: seq<WalkEntry>)
    ensures forall c :: c in Candidates(indir, walk) ==> IsInput(indir, c)
    decreases |walk|
  {
    if walk != [] {
      var e := walk[|walk| - 1];
      CandidatesAreInputs(indir, walk[..|walk| - 1]);
      RootCandidatesAreInputs(indir, e.root, e.filenames);
    }
  }

  lemma {:induction false} RootCandidatesAppend(indir: string, root: string, a: seq<string>, b: seq<string>)
    ensures RootCandidates(indir, root, a + b) == RootCandidates(indir, root, a) + RootCandidates(indir, root, b)
    decreases |b|
  {
    if b == [] {
      assert a + b == a;
    } else {
      var b0 := b[..|b| - 1];
      assert (a + b)[..|a + b| - 1] == a + b0;
      RootCandidatesAppend(indir, root, a, b0);
      AppendAssoc(RootCandidates(indir, root, a), RootCandidates(indir, root, b0),
                  Opt(CandidateOf(indir, root, b[|b| - 1])));
    }
  }

  lemma {:induction false} CandidatesAppend(indir: string, a: seq<WalkEntry>, b: seq<WalkEntry>)
    ensures Candidates(indir, a + b) == Candidates(indir, a) + Candidates(indir, b)
    decreases |b|
  {
    if b == [] {
      assert a + b == a;
    } else {
      var b0 := b[..|b| - 1];
      var e := b[|b| - 1];
      assert (a + b)[..|a + b| - 1] == a + b0;
      CandidatesAppend(indir, a, b0);
      AppendAssoc(Candidates(indir, a), Candidates(indir, b0), RootCandidates(indir, e.root, e.filenames));
    }
  }

  /** The constructor `TestInput(fn, prefix)`: the input, or the exception it
      raises.  Discovery is stated for any such function; `Constructor` is
      the one of `Data`. */
  type Loader = (string, string) -> Result<TestInput>

  function Constructor(env: Host.Env): Loader {
    (fn, prefix) => Loaded(env, fn, prefix)
  }

  /** The constructor keeps the name and prefix it is given. */
  ghost predicate KeepsNames(load: Loader) {
    forall fn, prefix :: load(fn, prefix).Ok? ==>
      load(fn, prefix).value.fn == fn && load(fn, prefix).value.prefix == prefix
  }

  lemma ConstructorKeepsNames(env: Host.Env)
    ensures KeepsNames(Constructor(env))
  {
    forall fn, prefix
      ensures Constructor(env)(fn, prefix).Ok? ==>
                Constructor(env)(fn, prefix).value.fn == fn && Constructor(env)(fn, prefix).value.prefix == prefix
    {
      LoadedKeeps(env, fn, prefix);
    }
  }

  /** `TestInput(fn, prefix)` for every candidate in turn, keeping the active
      ones; the first constructor that raises stops the discovery. */
  function LoadActive(load: Loader, cs: seq<Candidate>): Result<seq<TestInput>>
    decreases |cs|
  {
    if cs == [] then Ok([])
    else
      match LoadActive(load, cs[..|cs| - 1])
      case Err(e) => Err(e)
      case Ok(ts) =>
        var c := cs[|cs| - 1];
        match load(c.fn, c.prefix)
        case Err(e) => Err(e)
        case Ok(t) => Ok(ts + (if t.active then [t] else []))
  }

  /** Discovery of a longer list continues the discovery of its beginning. */
  lemma {:induction false} LoadActiveAppend(load: Loader, a: seq<Candidate>, b: seq<Candidate>)
    ensures LoadActive(load, a + b) ==
            match LoadActive(load, a)
            case Err(e) => Err(e)
            case Ok(ts) =>
              match LoadActive(load, b)
              case Err(e) => Err(e)
              case Ok(us) => Ok(ts + us)
    decreases |b|
  {
    if b == [] {
      assert a + b == a;
      if LoadActive(load, a).Ok? {
        assert LoadActive(load, a).value + [] == LoadActive(load, a).value;
      }
    } else {
      var b0 := b[..|b| - 1];
      assert (a + b)[..|a + b| - 1] == a + b0;
      LoadActiveAppend(load, a, b0);
      if LoadActive(load, a).Ok? && LoadActive(load, b0).Ok? {
        var c := b[|b| - 1];
        if load(c.fn, c.prefix).Ok? {
          var t := load(c.fn, c.prefix).value;
          AppendAssoc(LoadActive(load, a).value, LoadActive(load, b0).value, if t.active then [t] else []);
        }
      }
    }
  }

  /** Discovery keeps exactly the active inputs: every kept input is active
      and is what its own file loads to, and every candidate that loads to
      an active input is kept. */
  lemma {:induction false} LoadActiveKeepsActive(load: Loader, cs: seq<Candidate>)
    requires KeepsNames(load) && LoadActive(load, cs).Ok?
    ensures forall c :: c in cs ==> load(c.fn, c.prefix).Ok?
    ensures forall c :: c in cs && load(c.fn, c.prefix).value.active ==>
              load(c.fn, c.prefix).value in LoadActive(load, cs).value
    ensures forall t :: t in LoadActive(load, cs).value ==>
              t.active && Candidate(t.fn, t.prefix) in cs && load(t.fn, t.prefix) == Ok(t)
    decreases |cs|
  {
    if cs != [] {
      var c := cs[|cs| - 1];
      LoadActiveKeepsActive(load, cs[..|cs| - 1]);
    }
  }

  /** What the walk loop does with one file name, given the inputs found so
      far: a name ending in ".inp" is loaded, and kept when active. */
  function FileStep(load: Loader, indir: string, root: string, name: string, found: seq<TestInput>)
    : Result<seq<TestInput>>
  {
    if EndsWith(name, ".inp") then
      var fn := Paths.Join(root, name);
      match load(fn, Slice(fn, |indir| + 1, -4))
      case Err(e) => Err(e)
      case Ok(t) => Ok(if t.active then found + [t] else found)
    else Ok(found)
  }

  /** The inner loop of the walk over the files of one directory, as the
      source runs it: the inputs found so far extended file by file. */
  function WalkFiles(load: Loader, indir: string, root: string, names: seq<string>, found: seq<TestInput>)
    : Result<seq<TestInput>>
    decreases |names|
  {
    if names == [] then Ok(found)
    else
      match WalkFiles(load, indir, root, names[..|names| - 1], found)
      case Err(e) => Err(e)
      case Ok(acc) => FileStep(load, indir, root, names[|names| - 1], acc)
  }

  /** The outer loop of the walk, directory by directory. */
  function WalkDirs(load: Loader, indir: string, walk: seq<WalkEntry>, found: seq<TestInput>)
    : Result<seq<TestInput>>
    decreases |walk|
  {
    if walk == [] then Ok(found)
    else
      match WalkDirs(load, indir, walk[..|walk| - 1], found)
      case Err(e) => Err(e)
      case Ok(acc) => WalkFiles(load, indir, walk[|walk| - 1].root, walk[|walk| - 1].filenames, acc)
  }

  lemma LoadActiveOne(load: Loader, c: Candidate)
    ensures LoadActive(load, [c]) ==
            match load(c.fn, c.prefix)
            case Err(e) => Err(e)
            case Ok(t) => Ok(if t.active then [t] else [])
  {
    var cs := [c];
    assert cs[..|cs| - 1] == [];
    assert LoadActive(load, cs[..|cs| - 1]) == Ok([]);
    if load(c.fn, c.prefix).Ok? {
      var t := load(c.fn, c.prefix).value;
      var kept: seq<TestInput> := if t.active then [t] else [];
      assert [] + kept == kept;
    }
  }

  /** The loop over one directory extends what it is given by the active
      inputs among that directory's candidates, or fails as their discovery
      does. */
  lemma {:induction false} WalkFilesIsLoadActive(load: Loader, indir: string, root: string,
                                                 names: seq<string>, found: seq<TestInput>)
    ensures WalkFiles(load, indir, root, names, found) ==
            match LoadActive(load, RootCandidates(indir, root, names))
            case Err(e) => Err(e)
            case Ok(ts) => Ok(found + ts)
    decreases |names|
  {
    if names == [] {
      assert found + [] == found;
    } else {
      var init := names[..|names| - 1];
      var name := names[|names| - 1];
      var opt := Opt(CandidateOf(indir, root, name));
      WalkFilesIsLoadActive(load, indir, root, init, found);
      LoadActiveAppend(load, RootCandidates(indir, root, init), opt);
      if LoadActive(load, RootCandidates(indir, root, init)).Ok? {
        var ts := LoadActive(load, RootCandidates(indir, root, init)).value;
        if EndsWith(name, ".inp") {
          var fn := Paths.Join(root, name);
          assert opt == [Candidate(fn, Slice(fn, |indir| + 1, -4))];
          LoadActiveOne(load, Candidate(fn, Slice(fn, |indir| + 1, -4)));
          match load(fn, Slice(fn, |indir| + 1, -4))
          case Err(_) =>
          case Ok(t) =>
            if t.active {
              AppendAssoc(found, ts, [t]);
            } else {
              assert ts + [] == ts;
            }
        } else {
          assert ts + [] == ts;
        }
      }
    }
  }

  /** The whole walk yields the active inputs among all candidates, or fails
      as their discovery does. */
  lemma {:induction false} WalkDirsIsLoadActive(load: Loader, indir: string, walk: seq<WalkEntry>,
                                                found: seq<TestInput>)
    ensures WalkDirs(load, indir, walk, found) ==
            match LoadActive(load, Candidates(indir, walk))
            case Err(e) => Err(e)
            case Ok(ts) => Ok(found + ts)
    decreases |walk|
  {
    if walk == [] {
      assert found + [] == found;
    } else {
      var init := walk[..|walk| - 1];
      var e := walk[|walk| - 1];
      WalkDirsIsLoadActive(load, indir, init, found);
      LoadActiveAppend(load, Candidates(indir, init), RootCandidates(indir, e.root, e.filenames));
      if LoadActive(load, Candidates(indir, init)).Ok? {
        var ts := LoadActive(load, Candidates(indir, init)).value;
        WalkFilesIsLoadActive(load, indir, e.root, e.filenames, found + ts);
        if LoadActive(load, RootCandidates(indir, e.root, e.filenames)).Ok? {
          AppendAssoc(found, ts, LoadActive(load, RootCandidates(indir, e.root, e.filenames)).value);
        }
      }
    }
  }

  /** A failure among the first n files is the failure of the directory. */
  lemma {:induction false} WalkFilesStops(load: Loader, indir: string, root: string, names: seq<string>,
                                          found: seq<TestInput>, n: nat)
    requires n <= |names| && WalkFiles(load, indir, root, names[..n], found).Err?
    ensures WalkFiles(load, indir, root, names, found) == WalkFiles(load, indir, root, names[..n], found)
    decreases |names|
  {
    if n < |names| {
      assert names[..|names| - 1][..n] == names[..n];
      WalkFilesStops(load, indir, root, names[..|names| - 1], found, n);
    } else {
      assert names[..n] == names;
    }
  }

  /** A failure in the first n directories is the failure of the walk. */
  lemma {:induction false} WalkDirsStops(load: Loader, indir: string, walk: seq<WalkEntry>,
                                         found: seq<TestInput>, n: nat)
    requires n <= |walk| && WalkDirs(load, indir, walk[..n], found).Err?
    ensures WalkDirs(load, indir, walk, found) == WalkDirs(load, indir, walk[..n], found)
    decreases |walk|
  {
    if n < |walk| {
      assert walk[..|walk| - 1][..n] == walk[..n];
      WalkDirsStops(load, indir, walk[..|walk| - 1], found, n);
    } else {
      assert walk[..n] == walk;
    }
  }

  /** The inner loop of the walk: the files of one directory. */
  method DiscoverIn(load: Loader, indir: string, root: string, names: seq<string>, found: seq<TestInput>)
    returns (r: Result<seq<TestInput>>)
    ensures r == WalkFiles(load, indir, root, names, found)
  {
    var out := found;
    var j := 0;
    while j < |names|
      invariant 0 <= j <= |names|
      invariant WalkFiles(load, indir, root, names[..j], found) == Ok(out)
    {
      assert names[..j + 1][..j] == names[..j];
      var name := names[j];
      if EndsWith(name, ".inp") {
        var fn := Paths.Join(root, name);
        var prefix := Slice(fn, |indir| + 1, -4);
        var t := load(fn, prefix);
        if t.Err? {
          WalkFilesStops(load, indir, root, names, found, j + 1);
          return Err(t.error);
        }
        if t.value.active {
          out := out + [t.value];
        }
      }
      j := j + 1;
    }
    assert names[..j] == names;
    r := Ok(out);
  }

  /** The walk: every directory in turn. */
  method Discover(load: Loader, indir: string, walk: seq<WalkEntry>) returns (r: Result<seq<TestInput>>)
    ensures r == LoadActive(load, Candidates(indir, walk))
  {
    var found: seq<TestInput> := [];
    var i := 0;
    while i < |walk|
      invariant 0 <= i <= |walk|
      invariant WalkDirs(load, indir, walk[..i], []) == Ok(found)
    {
      assert walk[..i + 1][..i] == walk[..i];
      var next := DiscoverIn(load, indir, walk[i].root, walk[i].filenames, found);
      if next.Err? {
        WalkDirsStops(load, indir, walk, [], i + 1);
        WalkDirsIsLoadActive(load, indir, walk, []);
        return next;
      }
      found := next.value;
      i := i + 1;
    }
    assert walk[..i] == walk;
    WalkDirsIsLoadActive(load, indir, walk, []);
    assert [] + LoadActive(load, Candidates(indir, walk)).value == LoadActive(load, Candidates(indir, walk)).value;
    r := Ok(found);
  }

  // ---------------------------------------------------------------------------
  // Dependency resolution

  /** `dict((t.prefix, t) for t in test_inputs)`: a later input with the same
      prefix replaces an earlier one. */
  function Lookup(ts: seq<TestInput>): map<string, TestInput>
    decreases |ts|
  {
    if ts == [] then map[] else Lookup(ts[..|ts| - 1])[ts[|ts| - 1].prefix := ts[|ts| - 1]]
  }

  function Prefixes(ts: seq<TestInput>): set<string> {
    set t | t in ts :: t.prefix
  }

  /** The lookup holds the prefix of every input, and maps it to an input
      with that prefix. */
  lemma {:induction false} LookupKeys(ts: seq<TestInput>)
    ensures forall p :: p in Lookup(ts) <==> p in Prefixes(ts)
    ensures forall p :: p in Lookup(ts) ==> Lookup(ts)[p] in ts && Lookup(ts)[p].prefix == p
    decreases |ts|
  {
    if ts != [] {
      var init := ts[..|ts| - 1];
      LookupKeys(init);
      assert ts == init + [ts[|ts| - 1]];
      assert Prefixes(ts) == Prefixes(init) + {ts[|ts| - 1].prefix};
    }
  }

  /** No two inputs share a prefix (distinct paths under one directory give
      distinct prefixes). */
  predicate DistinctPrefixes(ts: seq<TestInput>) {
    forall i, j :: 0 <= i < j < |ts| ==> ts[i].prefix != ts[j].prefix
  }

  /** With distinct prefixes every input is found under its own prefix. */
  lemma {:induction false} LookupFindsEach(ts: seq<TestInput>)
    requires DistinctPrefixes(ts)
    ensures forall i :: 0 <= i < |ts| ==> ts[i].prefix in Lookup(ts) && Lookup(ts)[ts[i].prefix] == ts[i]
    decreases |ts|
  {
    if ts != [] {
      var init := ts[..|ts| - 1];
      LookupFindsEach(init);
      assert forall i :: 0 <= i < |init| ==> init[i] == ts[i];
    }
  }

  /** `[lookup[d] for d in deps]`: KeyError for the first unknown prefix. */
  function Targets(lookup: map<string, TestInput>, deps: seq<string>): Result<seq<TestInput>>
    decreases |deps|
  {
    if deps == [] then Ok([])
    else
      match Targets(lookup, deps[..|deps| - 1])
      case Err(e) => Err(e)
      case Ok(us) =>
        var d := deps[|deps| - 1];
        if d in lookup then Ok(us + [lookup[d]]) else Err(KeyError(d))
  }

  /** Resolution succeeds iff every prefix is known, and then gives the
      input of every prefix, in order; otherwise it names an unknown one. */
  lemma {:induction false} TargetsResolve(lookup: map<string, TestInput>, deps: seq<string>)
    ensures Targets(lookup, deps).Ok? <==> forall d :: d in deps ==> d in lookup
    ensures Targets(lookup, deps).Ok? ==>
              |Targets(lookup, deps).value| == |deps| &&
              forall k :: 0 <= k < |deps| ==> Targets(lookup, deps).value[k] == lookup[deps[k]]
    ensures Targets(lookup, deps).Err? ==>
              Targets(lookup, deps).error.KeyError? &&
              Targets(lookup, deps).error.key in deps && Targets(lookup, deps).error.key !in lookup
    decreases |deps|
  {
    if deps != [] {
      var init := deps[..|deps| - 1];
      TargetsResolve(lookup, init);
      assert deps == init + [deps[|deps| - 1]];
    }
  }

  /** The loop body of the resolution for one input: the lookup of its
      dependencies, then the check that it is not among them. */
  function ResolveOne(lookup: map<string, TestInput>, t: TestInput): Option<PyError> {
    match Targets(lookup, t.depends)
    case Err(e) => Some(e)
    case Ok(us) => if t in us then Some(AssertionError) else None
  }

  /** The resolution loop: the first input whose resolution fails stops it. */
  function ResolveError(lookup: map<string, TestInput>, ts: seq<TestInput>): Option<PyError>
    decreases |ts|
  {
    if ts == [] then None
    else
      match ResolveError(lookup, ts[..|ts| - 1])
      case Some(e) => Some(e)
      case None => ResolveOne(lookup, ts[|ts| - 1])
  }

  /** Resolution fails iff it fails for some input. */
  lemma {:induction false} ResolveErrorNone(lookup: map<string, TestInput>, ts: seq<TestInput>)
    ensures ResolveError(lookup, ts) == None <==> forall t :: t in ts ==> ResolveOne(lookup, t) == None
    decreases |ts|
  {
    if ts != [] {
      var init := ts[..|ts| - 1];
      ResolveErrorNone(lookup, init);
      assert ts == init + [ts[|ts| - 1]];
    }
  }

  /** With distinct prefixes, an input resolves iff every dependency is the
      prefix of some input and none is its own prefix: after resolution no
      input depends on itself. */
  lemma ResolveOneNone(ts: seq<TestInput>, t: TestInput)
    requires DistinctPrefixes(ts) && t in ts
    ensures ResolveOne(Lookup(ts), t) == None <==>
              (forall d :: d in t.depends ==> d in Prefixes(ts)) && t.prefix !in t.depends
  {
    var lookup := Lookup(ts);
    LookupKeys(ts);
    LookupFindsEach(ts);
    TargetsResolve(lookup, t.depends);
    if Targets(lookup, t.depends).Ok? {
      var us := Targets(lookup, t.depends).value;
      if t.prefix in t.depends {
        var k :| 0 <= k < |t.depends| && t.depends[k] == t.prefix;
        var i :| 0 <= i < |ts| && ts[i] == t;
        assert us[k] == t;
      }
      if t in us {
        var k :| 0 <= k < |us| && us[k] == t;
        assert t.depends[k] == t.prefix;
      }
    }
  }

  /** The loop that rewrites the dependencies of every input, and checks
      that none depends on itself. */
  method Resolve(ts: seq<TestInput>) returns (err: Option<PyError>)
    ensures err == ResolveError(Lookup(ts), ts)
  {
    var lookup := Lookup(ts);
    var i := 0;
    while i < |ts|
      invariant 0 <= i <= |ts|
      invariant ResolveError(lookup, ts[..i]) == None
    {
      assert ts[..i + 1][..i] == ts[..i];
      var t := ts[i];
      var deps := Targets(lookup, t.depends);
      if deps.Err? || t in deps.value {
        err := if deps.Err? then Some(deps.error) else Some(AssertionError);
        ResolveErrorStops(lookup, ts, i + 1);
        return;
      }
      i := i + 1;
    }
    assert ts[..i] == ts;
    err := None;
  }

  /** The first failing input decides the error of the whole loop. */
  lemma {:induction false} ResolveErrorStops(lookup: map<string, TestInput>, ts: seq<TestInput>, n: nat)
    requires 0 < n <= |ts| && ResolveError(lookup, ts[..n]).Some?
    ensures ResolveError(lookup, ts) == ResolveError(lookup, ts[..n])
    decreases |ts| - n
  {
    if n < |ts| {
      var init := ts[..|ts| - 1];
      assert init[..n] == ts[..n];
      ResolveErrorStops(lookup, init, n);
    } else {
      assert ts[..n] == ts;
    }
  }

  // ---------------------------------------------------------------------------
  // The whole constructor

  /** `Work.__init__` up to the shuffle. */
  function Prepared(env: Host.Env, load: Loader, indir: string, tstdir: string, walk: seq<WalkEntry>): Result<seq<TestInput>> {
    if !env.isDir(indir) then Err(IOError("Input directory \"" + indir + "\" is not present."))
    else if env.isDir(tstdir) then Err(IOError("Test directory \"" + tstdir + "\" is already present."))
    else
      match LoadActive(load, Candidates(indir, walk))
      case Err(e) => Err(e)
      case Ok(ts) =>
        match ResolveError(Lookup(ts), ts)
        case Some(e) => Err(e)
        case None => Ok(ts)
  }

  /** A prepared list holds only active inputs discovered under indir, each
      resolving its dependencies. */
  lemma PreparedInputs(env: Host.Env, load: Loader, indir: string, tstdir: string, walk: seq<WalkEntry>)
    requires KeepsNames(load)
    requires Prepared(env, load, indir, tstdir, walk).Ok?
    ensures forall t :: t in Prepared(env, load, indir, tstdir, walk).value ==>
              t.active && EndsWith(t.fn, ".inp") && t.prefix == Slice(t.fn, |indir| + 1, -4) &&
              ResolveOne(Lookup(Prepared(env, load, indir, tstdir, walk).value), t) == None
  {
    var cs := Candidates(indir, walk);
    var ts := LoadActive(load, cs).value;
    LoadActiveKeepsActive(load, cs);
    CandidatesAreInputs(indir, walk);
    ResolveErrorNone(Lookup(ts), ts);
    forall t | t in ts
      ensures IsInput(indir, Candidate(t.fn, t.prefix))
    {
      assert Candidate(t.fn, t.prefix) in cs;
    }
  }

  /** `random.shuffle` of Python 2: from the last position down to the
      second, swap with a position `int(random() * (i + 1))`; random(k) is the
      k-th draw, in [0, 1). */
  method Shuffle(x: seq<TestInput>, random: nat -> real) returns (y: seq<TestInput>)
    requires forall k :: 0.0 <= random(k) < 1.0
    ensures multiset(y) == multiset(x)
  {
    y := x;
    if |y| < 2 {
      return;
    }
    var i := |y| - 1;
    var draw := 0;
    while i > 0
      invariant 0 <= i < |y| == |x|
      invariant multiset(y) == multiset(x)
    {
      var j := Below(random(draw), i + 1);
      y := Swap(y, i, j);
      draw := draw + 1;
      i := i - 1;
    }
  }

  /** `int(r * n)` for r in [0, 1): a position below n. */
  function Below(r: real, n: nat): (j: nat)
    requires 0.0 <= r < 1.0 && n > 0
    ensures j < n
  {
    BelowBound(r, n);
    (r * n as real).Floor
  }

  lemma BelowBound(r: real, n: nat)
    requires 0.0 <= r < 1.0 && n > 0
    ensures 0.0 <= r * n as real < n as real
  {
  }

  /** `x[i], x[j] = x[j], x[i]` */
  function Swap<T>(s: seq<T>, i: nat, j: nat): (r: seq<T>)
    requires i < |s| && j < |s|
    ensures |r| == |s| && r[i] == s[j] && r[j] == s[i]
    ensures forall k :: 0 <= k < |s| && k != i && k != j ==> r[k] == s[k]
    ensures multiset(r) == multiset(s)
  {
    s[i := s[j]][j := s[i]]
  }

  /** `Work(config)`: the prepared inputs, in random order.  With `load` the
      constructor of `Data` (`Constructor(env)`). */
  method Prepare(env: Host.Env, load: Loader, indir: string, tstdir: string, walk: seq<WalkEntry>, random: nat -> real)
    returns (r: Result<seq<TestInput>>)
    requires forall k :: 0.0 <= random(k) < 1.0
    ensures r.Err? <==> Prepared(env, load, indir, tstdir, walk).Err?
    ensures r.Err? ==> r == Prepared(env, load, indir, tstdir, walk)
    ensures r.Ok? ==> multiset(r.value) == multiset(Prepared(env, load, indir, tstdir, walk).value)
  {
    if !env.isDir(indir) {
      return Err(IOError("Input directory \"" + indir + "\" is not present."));
    }
    if env.isDir(tstdir) {
      return Err(IOError("Test directory \"" + tstdir + "\" is already present."));
    }
    var found := Discover(load, indir, walk);
    if found.Err? {
      return Err(found.error);
    }
    var err := Resolve(found.value);
    if err.Some? {
      return Err(err.value);
    }
    var shuffled := Shuffle(found.value, random);
    r := Ok(shuffled);
  }
}
