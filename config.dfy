/** `Config` of cpqa/config.py: the settings read from the user's
    config.py, checked, the names derived from them, and the classification
    of the command-line arguments into the test selection.  The values the
    user's config.py defines are a parameter, as is the date tag. */
module Configuration {
  import opened Wrappers
  import opened PyStr
  import Host
  import Paths
  import Tests

  /** A value config.py may bind a setting to. */
  datatype PyValue = Str(s: string) | Int(i: int) | Bool(b: bool) | Float(x: real) | NoneValue | Other

  /** `isinstance(v, int)` holds for ints and for bools, whose values are 0 and 1. */
  function IntOf(v: PyValue): (r: Option<int>)
    ensures r.Some? <==> v.Int? || v.Bool?
  {
    match v
    case Int(i) => Some(i)
    case Bool(b) => Some(if b then 1 else 0)
    case _ => None
  }

  /** `user_config.__dict__.get(key, default)` */
  function Get(user: map<string, PyValue>, key: string, default: PyValue): (v: PyValue)
    ensures key !in user ==> v == default
  {
    if key in user then user[key] else default
  }

  /** The checked settings of config.py. */
  datatype Settings = Settings(cp2kRoot: string, arch: string, version: string,
                               nproc: int, nprocMpi: int, mpiPrefix: Option<string>)

  const DefaultRoot: string := Paths.Join("..", "cp2k")

  /** The type and range checks of `Config.__init__`, in the order the
      source makes them. */
  function Validate(env: Host.Env, user: map<string, PyValue>): (r: Result<Settings>)
  {
    var root := Get(user, "cp2k_root", Str(DefaultRoot));
    var arch := Get(user, "arch", NoneValue);
    var version := Get(user, "version", NoneValue);
    var nproc := Get(user, "nproc", Int(1));
    var nprocMpi := Get(user, "nproc_mpi", Int(1));
    var mpiPrefix := Get(user, "mpi_prefix", NoneValue);
    if !root.Str? then Err(TypeError("Error in config.py: cp2k_root must be a string."))
    else if !arch.Str? then Err(TypeError("Error in config.py: arch must be a string."))
    else if !version.Str? then Err(TypeError("Error in config.py: version must be a string."))
    else if IntOf(nproc).None? then Err(TypeError("Error in config.py: nproc must be an integer."))
    else if IntOf(nproc).value <= 0 then Err(ValueError("Error in config.py: nproc must be strictly positive."))
    else if IntOf(nprocMpi).None? then Err(TypeError("Error in config.py: nproc_mpi must be an integer."))
    else if IntOf(nprocMpi).value <= 0 then Err(ValueError("Error in config.py: nproc_mpi must be strictly positive."))
    else if mpiPrefix.NoneValue? then
      Ok(Settings(root.s, arch.s, version.s, IntOf(nproc).value, IntOf(nprocMpi).value, None))
    else if !mpiPrefix.Str? then Err(TypeError("Error in config.py: mpi_prefix must be a string or None."))
    else match env.percentFormat(mpiPrefix.s, IntOf(nprocMpi).value)
      case Err(e) => Err(e)
      case Ok(prefix) =>
        Ok(Settings(root.s, arch.s, version.s, IntOf(nproc).value, IntOf(nprocMpi).value, Some(prefix)))
  }

  /** config.py is accepted iff its root, arch and version are strings, its
      process counts are strictly positive integers, and its MPI prefix is
      absent, None, or a string that formats with the MPI process count;
      the accepted settings are those values. */
  lemma ValidateAccepts(env: Host.Env, user: map<string, PyValue>)
    ensures var r := Validate(env, user);
            var mpiPrefix := Get(user, "mpi_prefix", NoneValue);
            && (r.Ok? <==>
                  && Get(user, "cp2k_root", Str(DefaultRoot)).Str?
                  && Get(user, "arch", NoneValue).Str?
                  && Get(user, "version", NoneValue).Str?
                  && IntOf(Get(user, "nproc", Int(1))).Some? && IntOf(Get(user, "nproc", Int(1))).value > 0
                  && IntOf(Get(user, "nproc_mpi", Int(1))).Some? && IntOf(Get(user, "nproc_mpi", Int(1))).value > 0
                  && (mpiPrefix.NoneValue? ||
                      (mpiPrefix.Str? && env.percentFormat(mpiPrefix.s, IntOf(Get(user, "nproc_mpi", Int(1))).value).Ok?)))
            && (r.Ok? ==>
                  && r.value.nproc > 0 && r.value.nprocMpi > 0
                  && r.value.arch == Get(user, "arch", NoneValue).s
                  && r.value.version == Get(user, "version", NoneValue).s
                  && (r.value.mpiPrefix.None? <==> mpiPrefix.NoneValue?)
                  && (r.value.mpiPrefix.Some? ==>
                        r.value.mpiPrefix.value == env.percentFormat(mpiPrefix.s, r.value.nprocMpi).value))
  {
  }

  /** Without `arch` or `version` in config.py nothing is accepted; with
      neither `cp2k_root`, `nproc`, `nproc_mpi` nor `mpi_prefix` given, the
      defaults `../cp2k`, 1, 1 and no prefix apply. */
  lemma ValidateDefaults(env: Host.Env, user: map<string, PyValue>)
    ensures "arch" !in user || "version" !in user ==> Validate(env, user).Err? && Validate(env, user).error.TypeError?
    ensures user.Keys == {"arch", "version"} && user["arch"].Str? && user["version"].Str? ==>
              Validate(env, user) == Ok(Settings("../cp2k", user["arch"].s, user["version"].s, 1, 1, None))
  {
    assert "cp2k"[..1] != "/" && ".."[1..] != "/";
    assert DefaultRoot == "../cp2k";
  }

  /** `os.path.join(cp2k_root, 'exe', arch, 'cp2k.%s' % version)` */
  function BinPath(s: Settings): string {
    Paths.JoinAll(s.cp2kRoot, ["exe", s.arch, "cp2k." + s.version])
  }

  // ---------------------------------------------------------------------------
  // Argument classification

  /** The test selection that `parse_args` builds. */
  datatype Selection = Selection(selectDirs: seq<string>, selectPrefixes: seq<string>,
                                 fasterThan: Option<real>, slowerThan: Option<real>)

  const NoSelection := Selection([], [], None, None)

  const OneTiming: string := "Only one fast:x or slow:x argument is allowed."
  const BadArgument: string :=
    "Arguments must be one optional timing restriction, existing directories or input files."

  /** `arg[len(indir)+1:-4]`: an input file's prefix below the input directory. */
  function FilePrefix(indir: string, arg: string): string {
    Slice(arg, |indir| + 1, -4)
  }

  /** `arg[len(indir)+1:]`: a directory below the input directory. */
  function DirName(indir: string, arg: string): string {
    SliceFrom(arg, |indir| + 1)
  }

  /** One pass of the loop of `parse_args`. */
  function Classify(env: Host.Env, indir: string, sel: Selection, arg: string): (r: Result<Selection>)
    ensures r.Err? ==> r.error.ValueError?
  {
    if env.isFile(arg) then Ok(sel.(selectPrefixes := sel.selectPrefixes + [FilePrefix(indir, arg)]))
    else if env.isDir(arg) then Ok(sel.(selectDirs := sel.selectDirs + [DirName(indir, arg)]))
    else if StartsWith(arg, "fast:") then
      if sel.fasterThan.Some? || sel.slowerThan.Some? then Err(ValueError(OneTiming))
      else match Tests.FloatWord(env, arg[5..])
        case Err(e) => Err(e)
        case Ok(x) => Ok(sel.(fasterThan := Some(x)))
    else if StartsWith(arg, "slow:") then
      if sel.fasterThan.Some? || sel.slowerThan.Some? then Err(ValueError(OneTiming))
      else match Tests.FloatWord(env, arg[5..])
        case Err(e) => Err(e)
        case Ok(x) => Ok(sel.(slowerThan := Some(x)))
    else Err(ValueError(BadArgument))
  }

  /** The selection after the loop of `parse_args` has seen `args`; the
      first exception ends it. */
  function Select(env: Host.Env, indir: string, args: seq<string>): (r: Result<Selection>)
    ensures r.Err? ==> r.error.ValueError?
    decreases |args|
  {
    if args == [] then Ok(NoSelection)
    else match Select(env, indir, args[..|args| - 1])
      case Err(e) => Err(e)
      case Ok(sel) => Classify(env, indir, sel, args[|args| - 1])
  }

  /** The first exception ends the loop: nothing after it changes it. */
  lemma {:induction false} SelectStops(env: Host.Env, indir: string, args: seq<string>, j: nat)
    requires j <= |args| && Select(env, indir, args[..j]).Err?
    ensures Select(env, indir, args) == Select(env, indir, args[..j])
    decreases |args| - j
  {
    if j < |args| {
      assert args[..j + 1][..j] == args[..j];
      SelectStops(env, indir, args, j + 1);
    } else {
      assert args[..j] == args;
    }
  }

  /** What an argument names: an input file, a directory, or a timing. */
  predicate Known(env: Host.Env, arg: string) {
    env.isFile(arg) || env.isDir(arg) || StartsWith(arg, "fast:") || StartsWith(arg, "slow:")
  }

  predicate Timing(env: Host.Env, arg: string) {
    !env.isFile(arg) && !env.isDir(arg) && (StartsWith(arg, "fast:") || StartsWith(arg, "slow:"))
  }

  /** The prefixes of the input files among the arguments, in order. */
  function FilesOf(env: Host.Env, indir: string, args: seq<string>): seq<string>
    decreases |args|
  {
    if args == [] then []
    else FilesOf(env, indir, args[..|args| - 1]) +
         (if env.isFile(args[|args| - 1]) then [FilePrefix(indir, args[|args| - 1])] else [])
  }

  /** The directories among the arguments, in order. */
  function DirsOf(env: Host.Env, indir: string, args: seq<string>): seq<string>
    decreases |args|
  {
    if args == [] then []
    else DirsOf(env, indir, args[..|args| - 1]) +
         (if !env.isFile(args[|args| - 1]) && env.isDir(args[|args| - 1])
          then [DirName(indir, args[|args| - 1])] else [])
  }

  function TimingsOf(env: Host.Env, args: seq<string>): (n: nat)
    decreases |args|
  {
    if args == [] then 0
    else TimingsOf(env, args[..|args| - 1]) + (if Timing(env, args[|args| - 1]) then 1 else 0)
  }

  /** An accepted argument list sorts its files and directories into the
      two lists in their order, and holds at most one timing, so that
      `faster_than` and `slower_than` are never both set. */
  lemma {:induction false} SelectAccepted(env: Host.Env, indir: string, args: seq<string>)
    requires Select(env, indir, args).Ok?
    ensures var sel := Select(env, indir, args).value;
            && sel.selectPrefixes == FilesOf(env, indir, args)
            && sel.selectDirs == DirsOf(env, indir, args)
            && TimingsOf(env, args) <= 1
            && (TimingsOf(env, args) == 0 <==> sel.fasterThan.None? && sel.slowerThan.None?)
            && !(sel.fasterThan.Some? && sel.slowerThan.Some?)
            && forall k :: 0 <= k < |args| ==> Known(env, args[k])
    decreases |args|
  {
    if args != [] {
      var init := args[..|args| - 1];
      SelectAccepted(env, indir, init);
      assert forall k :: 0 <= k < |init| ==> args[k] == init[k];
    }
  }

  /** An argument that is neither an existing file or directory nor a timing
      is refused, and so is a second timing. */
  lemma {:induction false} SelectRefuses(env: Host.Env, indir: string, args: seq<string>)
    ensures (exists k :: 0 <= k < |args| && !Known(env, args[k])) ==> Select(env, indir, args).Err?
    ensures TimingsOf(env, args) > 1 ==> Select(env, indir, args).Err?
    decreases |args|
  {
    if args != [] {
      var init := args[..|args| - 1];
      SelectRefuses(env, indir, init);
      if Select(env, indir, init).Ok? {
        SelectAccepted(env, indir, init);
        assert forall k :: 0 <= k < |init| ==> init[k] == args[k];
      }
    }
  }

  // ---------------------------------------------------------------------------
  // The configuration object

  class Config {
    const cp2kRoot: string
    const arch: string
    const version: string
    const nproc: int
    const nprocMpi: int
    const mpiPrefix: Option<string>
    const cp2kBin: string
    const bintag: string
    const datetag: string
    const runtag: string
    const refdir: string
    const tstdir: string
    const lastlink: string
    const indir: string
    var selectDirs: seq<string>
    var selectPrefixes: seq<string>
    var fasterThan: Option<real>
    var slowerThan: Option<real>

    /** The attributes `__init__` sets from checked settings. */
    ghost predicate Settled(s: Settings) {
      && cp2kRoot == s.cp2kRoot && arch == s.arch && version == s.version
      && nproc == s.nproc && nprocMpi == s.nprocMpi && mpiPrefix == s.mpiPrefix
    }

    /** The names `__init__` derives from the settings and the date tag. */
    ghost predicate Named(s: Settings, datetag': string) {
      && cp2kBin == BinPath(s)
      && bintag == s.arch + "--" + s.version
      && datetag == datetag'
      && runtag == bintag + "--" + datetag'
      && refdir == "ref--" + bintag
      && tstdir == "tst--" + runtag
      && lastlink == "tst--" + bintag + "--last"
      && indir == "in"
    }

    /** The assignments of `__init__` once the settings are checked, before
        `parse_args` runs. */
    constructor (s: Settings, datetag': string)
      ensures Settled(s) && Named(s, datetag')
      ensures Selected() == NoSelection
    {
      cp2kRoot, arch, version := s.cp2kRoot, s.arch, s.version;
      nproc, nprocMpi, mpiPrefix := s.nproc, s.nprocMpi, s.mpiPrefix;
      cp2kBin := BinPath(s);
      bintag := s.arch + "--" + s.version;
      datetag := datetag';
      runtag := bintag + "--" + datetag;
      refdir := "ref--" + bintag;
      tstdir := "tst--" + runtag;
      lastlink := "tst--" + bintag + "--last";
      indir := "in";
      selectDirs, selectPrefixes := [], [];
      fasterThan, slowerThan := None, None;
    }

    /** `Config(args)`: `__init__` either raises, giving `Err`, or yields a
        new object.  `user` holds what config.py defines, and `datetag'` is
        the formatted current time. */
    static method New(env: Host.Env, user: map<string, PyValue>, datetag': string, args: seq<string>)
      returns (r: Result<Config>)
      ensures !env.isFile("config.py") ==> r == Err(IOError("Could not find file config.py"))
      ensures env.isFile("config.py") && Validate(env, user).Err? ==> r == Err(Validate(env, user).error)
      ensures env.isFile("config.py") && Validate(env, user).Ok? ==>
                && (r.Ok? <==> Select(env, "in", args).Ok?)
                && (r.Err? ==> r.error == Select(env, "in", args).error)
                && (r.Ok? ==>
                      && fresh(r.value)
                      && r.value.Settled(Validate(env, user).value)
                      && r.value.Named(Validate(env, user).value, datetag')
                      && r.value.Selected() == Select(env, "in", args).value)
    {
      if !env.isFile("config.py") {
        return Err(IOError("Could not find file config.py"));
      }
      var settings := Validate(env, user);
      if settings.Err? {
        return Err(settings.error);
      }
      var c := new Config(settings.value, datetag');
      var error := c.ParseArgs(env, args);
      if error.Some? {
        return Err(error.value);
      }
      return Ok(c);
    }

    /** The selection the fields hold. */
    function Selected(): Selection
      reads this
    {
      Selection(selectDirs, selectPrefixes, fasterThan, slowerThan)
    }

    /** `Config.parse_args(args)`: on success the fields hold `Select`;
        an exception leaves the object to be discarded. */
    method ParseArgs(env: Host.Env, args: seq<string>) returns (error: Option<PyError>)
      modifies this`selectDirs, this`selectPrefixes, this`fasterThan, this`slowerThan
      ensures error.None? <==> Select(env, indir, args).Ok?
      ensures error.Some? ==> error.value == Select(env, indir, args).error
      ensures error.None? ==> Selected() == Select(env, indir, args).value
    {
      error := None;
      selectDirs, selectPrefixes := [], [];
      fasterThan, slowerThan := None, None;
      for i := 0 to |args|
        invariant Select(env, indir, args[..i]) == Ok(Selected())
      {
        assert args[..i + 1][..i] == args[..i];
        var arg := args[i];
        if env.isFile(arg) {
          selectPrefixes := selectPrefixes + [FilePrefix(indir, arg)];
        } else if env.isDir(arg) {
          selectDirs := selectDirs + [DirName(indir, arg)];
        } else if StartsWith(arg, "fast:") {
          if fasterThan.Some? || slowerThan.Some? {
            SelectStops(env, indir, args, i + 1);
            return Some(ValueError(OneTiming));
          }
          var x := Tests.FloatWord(env, arg[5..]);
          if x.Err? {
            SelectStops(env, indir, args, i + 1);
            return Some(x.error);
          }
          fasterThan := Some(x.value);
        } else if StartsWith(arg, "slow:") {
          if fasterThan.Some? || slowerThan.Some? {
            SelectStops(env, indir, args, i + 1);
            return Some(ValueError(OneTiming));
          }
          var x := Tests.FloatWord(env, arg[5..]);
          if x.Err? {
            SelectStops(env, indir, args, i + 1);
            return Some(x.error);
          }
          slowerThan := Some(x.value);
        } else {
          SelectStops(env, indir, args, i + 1);
          return Some(ValueError(BadArgument));
        }
      }
      assert args[..|args|] == args;
    }
  }
}
