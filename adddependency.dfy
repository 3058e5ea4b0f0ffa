/** scripts/cpqa-add-dependency.py: checking the two arguments and putting a
    `#CPQA DEPENDS` directive in front of the first input, so that it runs
    after the second.  Whether a path is a file is a parameter, and the
    file's content is passed in and the new content returned. */
module AddDependency {
  import opened Wrappers
  import opened PyStr
  import Host
  import Data

  /** `parse_args()` after option parsing: exactly two existing `.inp`
      files, checked in this order. */
  function ParseArgs(env: Host.Env, args: seq<string>): (r: Result<seq<string>>)
  {
    if |args| != 2 then Err(TypeError("Expecting two arguments"))
    else if !(env.isFile(args[0]) && env.isFile(args[1])) then Err(ValueError("Both arguments must be existing files."))
    else if !(EndsWith(args[0], ".inp") && EndsWith(args[1], ".inp")) then Err(ValueError("Both arguments must be input files."))
    else Ok(args)
  }

  /** The arguments are accepted iff there are two of them, both existing
      files named `.inp`, and then they are returned unchanged; the first
      failing check decides the error. */
  lemma ParseArgsAccepts(env: Host.Env, args: seq<string>)
    ensures ParseArgs(env, args).Ok? <==>
              |args| == 2 && env.isFile(args[0]) && env.isFile(args[1]) &&
              EndsWith(args[0], ".inp") && EndsWith(args[1], ".inp")
    ensures ParseArgs(env, args).Ok? ==> ParseArgs(env, args).value == args
    ensures |args| != 2 ==> ParseArgs(env, args).error.TypeError?
    ensures |args| == 2 && ParseArgs(env, args).Err? ==> ParseArgs(env, args).error.ValueError?
  {
  }

  /** `'#CPQA DEPENDS %s\n' % args[1]` */
  function Directive(dependency: string): string {
    "#CPQA DEPENDS " + dependency + "\n"
  }

  /** `main()`: the new content of the first input, or the exception
      `parse_args` raises. */
  function NewContent(env: Host.Env, args: seq<string>, data: string): (r: Result<string>)
  {
    match ParseArgs(env, args)
    case Err(e) => Err(e)
    case Ok(a) => Ok(Directive(a[1]) + data)
  }

  /** On accepted arguments the old content follows the directive
      untouched, and the directive is the first line. */
  lemma NewContentKeepsData(env: Host.Env, args: seq<string>, data: string)
    ensures var r := NewContent(env, args, data);
            && (r.Ok? <==> ParseArgs(env, args).Ok?)
            && (r.Err? ==> r.error == ParseArgs(env, args).error)
            && (r.Ok? ==> EndsWith(r.value, data) && StartsWith(r.value, Directive(args[1])))
            && (r.Ok? && '\n' !in args[1] ==> Find(r.value, '\n') == |Directive(args[1])| - 1)
  {
    var r := NewContent(env, args, data);
    if r.Ok? {
      var d := Directive(args[1]);
      assert r.value == d + data;
      assert r.value[..|d|] == d && r.value[|r.value| - |data|..] == data;
      if '\n' !in args[1] {
        NewlineAt(d, data, args[1]);
      }
    }
  }

  lemma NewlineAt(d: string, data: string, dependency: string)
    requires d == Directive(dependency) && '\n' !in dependency
    ensures Find(d + data, '\n') == |d| - 1
  {
    var s := d + data;
    var i := |d| - 1;
    assert s[i] == '\n';
    assert s[..i] == "#CPQA DEPENDS " + dependency;
    assert '\n' !in "#CPQA DEPENDS ";
    FindAt(s, '\n', i);
  }

  /** Trailing spaces after a word that ends in a non-space. */
  lemma {:induction false} TrailingAfter(s: string, t: string)
    requires s != [] && !IsSpace(s[|s| - 1]) && forall k :: 0 <= k < |t| ==> IsSpace(t[k])
    ensures TrailingSpaces(s + t) == |t|
    decreases |t|
  {
    if t == [] {
      assert s + t == s;
    } else {
      var u := s + t;
      assert u[..|u| - 1] == s + t[..|t| - 1];
      TrailingAfter(s, t[..|t| - 1]);
    }
  }

  /** Stripping removes only the spaces after a word that starts and ends
      with a non-space. */
  lemma StripWord(s: string, t: string)
    requires s != [] && !IsSpace(s[0]) && !IsSpace(s[|s| - 1]) && forall k :: 0 <= k < |t| ==> IsSpace(t[k])
    ensures Strip(s + t) == s
  {
    assert (s + t)[0] == s[0];
    assert LeadingSpaces(s + t) == 0;
    assert (s + t)[0..] == s + t;
    TrailingAfter(s, t);
    assert (s + t)[..|s|] == s;
  }

  /** The directive line, as a later scan of the input reads it, is a
      DEPENDS directive naming the dependency: a scan records it as the
      dependency's prefix. */
  lemma DirectiveIsRead(prefix: string, dependency: string)
    requires EndsWith(dependency, ".inp") && !IsSpace(dependency[0])
    ensures Data.IsDepends(Directive(dependency))
    ensures Data.DependsOf(prefix, Directive(dependency)) == Some(Data.DependPath(prefix, dependency))
    ensures EndsWith(Data.DependPath(prefix, dependency), dependency[..|dependency| - 4])
  {
    var line := Directive(dependency);
    var word := "DEPENDS " + dependency;
    assert line[6..] == word + "\n";
    assert word[|word| - 1] == dependency[|dependency| - 1] == 'p';
    StripWord(word, "\n");
    assert Data.Body(line) == word;
    assert word[..8] == "DEPENDS ";
    assert word[0] != "RESET"[0] && word[0] != "TEST "[0];
    assert !StartsWith(word, "RESET") && !StartsWith(word, "TEST ") by {
      if |word| >= 5 {
        assert word[..5][0] == word[0];
      }
    }
    assert word[8..] == dependency;
    assert dependency[|dependency| - 1] == 'p';
    StripWord(dependency, []);
    assert dependency + [] == dependency;
    Data.DependPathDropsSuffix(prefix, dependency);
  }
}
