/** What the source obtains from its surroundings.  The filesystem, the
    regular-expression engine, `shlex.split`, the number parsers `float()` and
    `int()`, `os.path.normpath` and `%`-formatting are not modelled; every
    operation that needs one of them takes an `Env` that supplies it. */
module Host {
  import opened Wrappers

  datatype Env = Env(
    /** `os.path.isfile` */
    isFile: string -> bool,
    /** `os.path.isdir` */
    isDir: string -> bool,
    /** The lines of a file as `for line in f` yields them, each with its '\n'. */
    readLines: string -> seq<string>,
    /** `os.path.normpath` */
    normpath: string -> string,
    /** `shlex.split`; None where it raises ValueError. */
    shlexSplit: string -> Option<seq<string>>,
    /** `float(s)`; None where it raises ValueError. */
    parseFloat: string -> Option<real>,
    /** `int(s)`; None where it raises ValueError. */
    parseInt: string -> Option<int>,
    /** False where `re.compile(regex)` raises `re.error`. */
    compiles: string -> bool,
    /** `re.compile(regex).search(line) is not None` */
    search: (string, string) -> bool,
    /** `template % n`, or the exception it raises. */
    percentFormat: (string, int) -> Result<string>
  )

  /** `open(path)` followed by reading its lines: IOError unless the path is
      a regular file (a directory gives errno 21, anything else errno 2). */
  function Open(env: Env, path: string): (r: Result<seq<string>>)
    ensures r.Ok? <==> env.isFile(path)
    ensures r.Ok? ==> r.value == env.readLines(path)
    ensures r.Err? ==> r.error.IOError?
  {
    if env.isFile(path) then Ok(env.readLines(path))
    else if env.isDir(path) then Err(IOError("[Errno 21] Is a directory: '" + path + "'"))
    else Err(IOError("[Errno 2] No such file or directory: '" + path + "'"))
  }
}

/** `os.path` (posixpath) functions on strings. */
module Paths {
  import opened PyStr

  /** `s.rfind(c)`: the last index of c, or -1. */
  function RFind(s: string, c: char): (i: int)
    ensures -1 <= i < |s|
  {
    if s == [] then -1
    else if s[|s| - 1] == c then |s| - 1
    else RFind(s[..|s| - 1], c)
  }

  lemma {:induction false} RFindIsLast(s: string, c: char)
    ensures RFind(s, c) >= 0 ==> s[RFind(s, c)] == c
    ensures forall k :: RFind(s, c) < k < |s| ==> s[k] != c
  {
    if s != [] && s[|s| - 1] != c {
      RFindIsLast(s[..|s| - 1], c);
    }
  }

  /** Removes every trailing '/' (`s.rstrip('/')`). */
  function RStripSlash(s: string): string {
    if s != [] && s[|s| - 1] == '/' then RStripSlash(s[..|s| - 1]) else s
  }

  lemma {:induction false} RStripSlashTrims(s: string)
    ensures var r := RStripSlash(s);
            |r| <= |s| && r == s[..|r|] && (r == [] || r[|r| - 1] != '/') &&
            forall k :: |r| <= k < |s| ==> s[k] == '/'
  {
    if s != [] && s[|s| - 1] == '/' {
      RStripSlashTrims(s[..|s| - 1]);
    }
  }

  predicate AllSlashes(s: string) {
    forall k :: 0 <= k < |s| ==> s[k] == '/'
  }

  /** `os.path.dirname(p)` */
  function Dirname(p: string): string {
    var head := p[..RFind(p, '/') + 1];
    if head != [] && !AllSlashes(head) then RStripSlash(head) else head
  }

  /** The directory of a path is a prefix of it. */
  lemma DirnameIsPrefix(p: string)
    ensures StartsWith(p, Dirname(p))
  {
    RStripSlashTrims(p[..RFind(p, '/') + 1]);
  }

  /** `os.path.basename(p)` */
  function Basename(p: string): string {
    p[RFind(p, '/') + 1..]
  }

  /** The base name of a path is a suffix of it free of slashes. */
  lemma BasenameIsSuffix(p: string)
    ensures EndsWith(p, Basename(p))
    ensures forall k :: 0 <= k < |Basename(p)| ==> Basename(p)[k] != '/'
  {
    RFindIsLast(p, '/');
  }

  /** `os.path.join(a, b)` */
  function Join(a: string, b: string): string {
    if StartsWith(b, "/") then b
    else if a == [] || EndsWith(a, "/") then a + b
    else a + "/" + b
  }

  /** Joining ends with the joined name, and joining to the empty directory
      changes nothing. */
  lemma JoinEndsWith(a: string, b: string)
    ensures EndsWith(Join(a, b), b)
    ensures a == [] ==> Join(a, b) == b
  {
  }

  /** `os.path.join(a, b, c, ...)` */
  function JoinAll(a: string, rest: seq<string>): string
    decreases |rest|
  {
    if rest == [] then a else JoinAll(Join(a, rest[0]), rest[1..])
  }
}
