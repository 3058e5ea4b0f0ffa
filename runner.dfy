/** `Runner`: which of the discovered inputs run and in what order, the files
    they need, the Makefile that runs them and the size of its job pool.

    An input refers to the inputs it depends on by prefix, and the runner
    sees every discovered input through `graph`, the map from prefix to
    input that the discovery builds (`Work.Lookup`).  Sets of inputs are
    sets of prefixes.  What the runner assigns onto an input object
    (`ref_result`, `sort_key`) is kept in maps keyed by prefix. */
module Runner {
  import opened Wrappers
  import opened PyStr
  import opened Data
  import Work

  type Graph = map<string, TestInput>

  /** Every input is held under its own prefix, and every dependency of an
      input is itself an input. */
  ghost predicate Resolved(g: Graph) {
    (forall p :: p in g ==> g[p].prefix == p) &&
    (forall p, d :: p in g && d in g[p].depends ==> d in g)
  }

  /** t is the input the graph holds under its prefix. */
  predicate Node(g: Graph, t: TestInput) {
    t.prefix in g && g[t.prefix] == t
  }

  /** The graph that resolved discovery yields: every input is found under
      its own prefix and every dependency names an input. */
  lemma WorkGraph(ts: seq<TestInput>)
    requires Work.DistinctPrefixes(ts) && Work.ResolveError(Work.Lookup(ts), ts) == None
    ensures Resolved(Work.Lookup(ts))
    ensures forall t :: t in ts ==> Node(Work.Lookup(ts), t)
  {
    var g := Work.Lookup(ts);
    Work.LookupKeys(ts);
    Work.LookupFindsEach(ts);
    Work.ResolveErrorNone(g, ts);
    forall p, d | p in g && d in g[p].depends
      ensures d in g
    {
      Work.ResolveOneNone(ts, g[p]);
    }
  }

  // ---------------------------------------------------------------------------
  // Dependencies

  /** The direct dependencies of the inputs named in s. */
  function Deps(g: Graph, s: set<string>): set<string> {
    set p, d | p in s && p in g && d in g[p].depends :: d
  }

  predicate ClosedSet(g: Graph, s: set<string>) {
    Deps(g, s) <= s
  }

  /** s together with everything reachable from it through `depends`. */
  function Closure(g: Graph, s: set<string>): (r: set<string>)
    requires Resolved(g) && s <= g.Keys
    ensures s <= r <= g.Keys
    decreases g.Keys - s
  {
    var next := s + Deps(g, s);
    if next == s then s
    else
      assert g.Keys - next < g.Keys - s;
      Closure(g, next)
  }

  lemma DepsMonotone(g: Graph, a: set<string>, b: set<string>)
    requires a <= b
    ensures Deps(g, a) <= Deps(g, b)
  {
  }

  /** The closure is closed under `depends` and lies inside every closed set
      that holds s: it is exactly what is reachable from s. */
  lemma {:induction false} ClosureIsLeast(g: Graph, s: set<string>)
    requires Resolved(g) && s <= g.Keys
    ensures ClosedSet(g, Closure(g, s))
    ensures forall c :: s <= c && ClosedSet(g, c) ==> Closure(g, s) <= c
    decreases g.Keys - s
  {
    var next := s + Deps(g, s);
    if next != s {
      assert g.Keys - next < g.Keys - s;
      ClosureIsLeast(g, next);
      forall c | s <= c && ClosedSet(g, c)
        ensures next <= c
      {
        DepsMonotone(g, s, c);
      }
    }
  }

  /** Adding the dependencies twice adds nothing the first time did not. */
  lemma ClosureIdempotent(g: Graph, s: set<string>)
    requires Resolved(g) && s <= g.Keys
    ensures Closure(g, Closure(g, s)) == Closure(g, s)
  {
    ClosureIsLeast(g, s);
  }

  /** The closure of one of its members lies inside it. */
  lemma ClosureOfMember(g: Graph, c: set<string>, p: string)
    requires Resolved(g) && c <= g.Keys && ClosedSet(g, c) && p in c
    ensures Closure(g, {p}) <= c
  {
    ClosureIsLeast(g, {p});
  }

  /** The inner loop of `_with_dependencies`: each dependency not yet
      checked joins the work list. */
  method AddUnchecked(deps: seq<string>, withDeps: set<string>, unchecked: set<string>)
    returns (u: set<string>)
    ensures u == unchecked + (set d | d in deps && d !in withDeps)
  {
    u := unchecked;
    for k := 0 to |deps|
      invariant u == unchecked + (set d | d in deps[..k] && d !in withDeps)
    {
      assert deps[..k + 1] == deps[..k] + [deps[k]];
      if deps[k] !in withDeps {
        u := u + {deps[k]};
      }
    }
    assert deps[..|deps|] == deps;
  }

  lemma DepsAdd(g: Graph, a: set<string>, x: string)
    requires x in g
    ensures Deps(g, a + {x}) == Deps(g, a) + (set d | d in g[x].depends)
  {
  }

  lemma DepsHas(g: Graph, s: set<string>, p: string)
    requires p in s && p in g
    ensures forall d :: d in g[p].depends ==> d in Deps(g, s)
  {
  }

  /** `_with_dependencies(original)`: the work-list loop that pops an
      unchecked input, queues its dependencies not yet checked and marks it
      checked. */
  method WithDependencies(g: Graph, original: set<string>) returns (withDeps: set<string>)
    requires Resolved(g) && original <= g.Keys
    ensures withDeps == Closure(g, original)
  {
    ClosureIsLeast(g, original);
    ghost var all := Closure(g, original);
    withDeps := {};
    var unchecked := original;
    while unchecked != {}
      invariant withDeps + unchecked <= all
      invariant original <= withDeps + unchecked
      invariant Deps(g, withDeps) <= withDeps + unchecked
      decreases g.Keys - withDeps, unchecked
    {
      var tocheck :| tocheck in unchecked;
      withDeps, unchecked := CheckNext(g, all, withDeps, unchecked, tocheck);
    }
  }

  /** One pass of the work-list loop. */
  method CheckNext(g: Graph, ghost all: set<string>, withDeps: set<string>, unchecked: set<string>, tocheck: string)
    returns (withDeps': set<string>, unchecked': set<string>)
    requires Resolved(g) && ClosedSet(g, all) && all <= g.Keys
    requires withDeps + unchecked <= all && tocheck in unchecked
    requires Deps(g, withDeps) <= withDeps + unchecked
    ensures withDeps' == withDeps + {tocheck}
    ensures unchecked' == unchecked - {tocheck} + (set d | d in g[tocheck].depends && d !in withDeps)
    ensures withDeps' + unchecked' <= all
    ensures withDeps + unchecked <= withDeps' + unchecked'
    ensures Deps(g, withDeps') <= withDeps' + unchecked'
    ensures tocheck in withDeps ==> unchecked' < unchecked
    ensures tocheck !in withDeps ==> g.Keys - withDeps' < g.Keys - withDeps
  {
    unchecked' := unchecked - {tocheck};
    unchecked' := AddUnchecked(g[tocheck].depends, withDeps, unchecked');
    DepsAdd(g, withDeps, tocheck);
    DepsHas(g, all, tocheck);
    if tocheck in withDeps {
      DepsHas(g, withDeps, tocheck);
    }
    withDeps' := withDeps + {tocheck};
  }

  // ---------------------------------------------------------------------------
  // Timing keys

  /** The reference timing assigned to an input, None where it has none. */
  function Timed(refs: map<string, Option<real>>, p: string): Option<real> {
    if p in refs then refs[p] else None
  }

  /** A sum that is None as soon as one term is. */
  function Plus(a: Option<real>, b: Option<real>): (r: Option<real>)
    ensures r.Some? <==> a.Some? && b.Some?
  {
    if a.Some? && b.Some? then Some(a.value + b.value) else None
  }

  /** The reference timings of the inputs in s added up, None when one of
      them has no reference result; the order of the terms is immaterial
      (`TotalPick`). */
  ghost function Total(refs: map<string, Option<real>>, s: set<string>): Option<real>
    decreases s
  {
    if s == {} then Some(0.0)
    else
      var x :| x in s;
      Plus(Timed(refs, x), Total(refs, s - {x}))
  }

  /** Any member can be taken first. */
  lemma {:induction false} TotalPick(refs: map<string, Option<real>>, s: set<string>, y: string)
    requires y in s
    ensures Total(refs, s) == Plus(Timed(refs, y), Total(refs, s - {y}))
    decreases s
  {
    var x :| x in s && Total(refs, s) == Plus(Timed(refs, x), Total(refs, s - {x}));
    if x != y {
      var rest := s - {x} - {y};
      assert s - {y} - {x} == rest;
      TotalPick(refs, s - {x}, y);
      TotalPick(refs, s - {y}, x);
      assert Total(refs, s - {x}) == Plus(Timed(refs, y), Total(refs, rest));
      assert Total(refs, s - {y}) == Plus(Timed(refs, x), Total(refs, rest));
      PlusSwap(Timed(refs, x), Timed(refs, y), Total(refs, rest));
    }
  }

  lemma PlusSwap(a: Option<real>, b: Option<real>, c: Option<real>)
    ensures Plus(a, Plus(b, c)) == Plus(b, Plus(a, c))
  {
  }

  /** The total is missing exactly when some member has no reference. */
  lemma {:induction false} TotalNone(refs: map<string, Option<real>>, s: set<string>)
    ensures Total(refs, s).None? <==> exists p :: p in s && Timed(refs, p).None?
    decreases s
  {
    if s != {} {
      var x :| x in s;
      TotalPick(refs, s, x);
      TotalNone(refs, s - {x});
      if Total(refs, s).Some? {
        forall p | p in s
          ensures Timed(refs, p).Some?
        {
          if p != x {
            assert p in s - {x};
          }
        }
      }
    }
  }

  /** The loop of `sort_test_inputs` over the inputs an input needs: the
      timings added up, stopping at the first missing one. */
  method SumTimings(refs: map<string, Option<real>>, s: set<string>) returns (key: Option<real>)
    requires s <= refs.Keys
    ensures key == Total(refs, s)
  {
    var sum := 0.0;
    var rest := s;
    while rest != {}
      invariant rest <= s
      invariant Total(refs, s) == Plus(Some(sum), Total(refs, rest))
      decreases rest
    {
      var tmp :| tmp in rest;
      TotalPick(refs, rest, tmp);
      if refs[tmp].None? {
        return None;
      }
      sum := sum + refs[tmp].value;
      rest := rest - {tmp};
    }
    key := Some(sum);
  }

  /** `sort_key` of one input: the timings of the input and of everything it
      needs, each counted once. */
  method SortKey(g: Graph, refs: map<string, Option<real>>, p: string) returns (key: Option<real>)
    requires Resolved(g) && p in g && Closure(g, {p}) <= refs.Keys
    ensures key == Total(refs, Closure(g, {p}))
  {
    var withDeps := WithDependencies(g, {p});
    key := SumTimings(refs, withDeps);
  }

  // ---------------------------------------------------------------------------
  // Ordering

  /** `compare(ti1, ti2)` on two sort keys. */
  function Compare(a: Option<real>, b: Option<real>): (c: int)
    ensures -1 <= c <= 1
  {
    if a.None? && b.None? then 0
    else if a.None? then 1
    else if b.None? then -1
    else if a.value < b.value then -1
    else if a.value > b.value then 1
    else 0
  }

  /** a may come before b in the sorted list: a missing key first, then the
      larger keys. */
  predicate Ordered(a: Option<real>, b: Option<real>) {
    a.Some? ==> b.Some? && a.value >= b.value
  }

  /** Sorting with the comparator in reverse puts a before b only when
      `compare(a, b)` is not negative, and the comparator is antisymmetric. */
  lemma CompareOrders(a: Option<real>, b: Option<real>)
    ensures Compare(a, b) >= 0 <==> Ordered(a, b)
    ensures Compare(a, b) == -Compare(b, a)
  {
  }

  predicate SortedByKey<T>(s: seq<T>, key: T -> Option<real>) {
    forall i, j :: 0 <= i < j < |s| ==> Ordered(key(s[i]), key(s[j]))
  }

  /** Places x before the first element it may precede. */
  function Insert<T>(x: T, s: seq<T>, key: T -> Option<real>): seq<T>
    decreases |s|
  {
    if s == [] || Ordered(key(x), key(s[0])) then [x] + s
    else [s[0]] + Insert(x, s[1..], key)
  }

  /** `list.sort(compare, reverse=True)`: a stable sort from the largest to
      the smallest key, inputs without a key first. */
  function SortByKey<T>(s: seq<T>, key: T -> Option<real>): seq<T>
    decreases |s|
  {
    if s == [] then [] else Insert(s[0], SortByKey(s[1..], key), key)
  }

  /** Inserting adds x and nothing else. */
  lemma {:induction false} InsertMultiset<T>(x: T, s: seq<T>, key: T -> Option<real>)
    ensures multiset(Insert(x, s, key)) == multiset(s) + multiset{x}
    decreases |s|
  {
    if !(s == [] || Ordered(key(x), key(s[0]))) {
      assert s == [s[0]] + s[1..];
      InsertMultiset(x, s[1..], key);
    }
  }

  /** An element that may precede all of a sorted list may head it. */
  lemma ConsSorted<T>(h: T, s: seq<T>, key: T -> Option<real>)
    requires SortedByKey(s, key)
    requires forall e :: e in s ==> Ordered(key(h), key(e))
    ensures SortedByKey([h] + s, key)
  {
    forall i, j | 0 <= i < j < |[h] + s|
      ensures Ordered(key(([h] + s)[i]), key(([h] + s)[j]))
    {
      if i > 0 {
        assert ([h] + s)[i] == s[i - 1];
      }
      assert ([h] + s)[j] == s[j - 1];
    }
  }

  lemma {:induction false} InsertSorted<T>(x: T, s: seq<T>, key: T -> Option<real>)
    requires SortedByKey(s, key)
    ensures multiset(Insert(x, s, key)) == multiset(s) + multiset{x}
    ensures SortedByKey(Insert(x, s, key), key)
    decreases |s|
  {
    InsertMultiset(x, s, key);
    if s == [] || Ordered(key(x), key(s[0])) {
      forall e | e in s
        ensures Ordered(key(x), key(e))
      {
        var j :| 0 <= j < |s| && s[j] == e;
        if j > 0 {
          assert Ordered(key(s[0]), key(s[j]));
        }
      }
      ConsSorted(x, s, key);
    } else {
      var rest := Insert(x, s[1..], key);
      assert SortedByKey(s[1..], key);
      InsertSorted(x, s[1..], key);
      forall e | e in rest
        ensures Ordered(key(s[0]), key(e))
      {
        assert e in multiset(rest);
        if e != x {
          assert e in s[1..];
        }
      }
      ConsSorted(s[0], rest, key);
    }
  }

  /** The sorted list holds the same inputs, as often as before, and every
      input comes no later than the inputs it may precede: missing keys
      first, then non-increasing keys. */
  lemma {:induction false} SortByKeySorts<T>(s: seq<T>, key: T -> Option<real>)
    ensures multiset(SortByKey(s, key)) == multiset(s)
    ensures SortedByKey(SortByKey(s, key), key)
    decreases |s|
  {
    if s != [] {
      SortByKeySorts(s[1..], key);
      InsertSorted(s[0], SortByKey(s[1..], key), key);
      assert s == [s[0]] + s[1..];
    }
  }

  /** The elements of s whose key is v, in their order in s. */
  function Keyed<T>(s: seq<T>, key: T -> Option<real>, v: Option<real>): seq<T> {
    if s == [] then [] else (if key(s[0]) == v then [s[0]] else []) + Keyed(s[1..], key, v)
  }

  /** Insertion passes only elements with a different key from x's, so x
      lands in front of every element sharing its key. */
  lemma {:induction false} InsertKeyed<T>(x: T, s: seq<T>, key: T -> Option<real>, v: Option<real>)
    ensures Keyed(Insert(x, s, key), key, v) == (if key(x) == v then [x] else []) + Keyed(s, key, v)
    decreases |s|
  {
    if s == [] || Ordered(key(x), key(s[0])) {
      assert ([x] + s)[1..] == s;
    } else {
      var rest := Insert(x, s[1..], key);
      InsertKeyed(x, s[1..], key, v);
      assert ([s[0]] + rest)[1..] == rest;
      assert key(s[0]) != key(x);
    }
  }

  /** The sort is stable: the inputs sharing a key keep their order. */
  lemma {:induction false} SortByKeyStable<T>(s: seq<T>, key: T -> Option<real>, v: Option<real>)
    ensures Keyed(SortByKey(s, key), key, v) == Keyed(s, key, v)
    decreases |s|
  {
    if s != [] {
      SortByKeyStable(s[1..], key, v);
      InsertKeyed(s[0], SortByKey(s[1..], key), key, v);
    }
  }

  /** The key stored for an input, None where none is stored. */
  function KeyOf(keys: map<string, Option<real>>): TestInput -> Option<real> {
    (t: TestInput) => if t.prefix in keys then keys[t.prefix] else None
  }

  // ---------------------------------------------------------------------------
  // Selection

  /** `select_name` picks an input when its prefix is a selected prefix or
      starts with a selected directory. */
  predicate Picked(prefixes: seq<string>, dirs: seq<string>, t: TestInput) {
    t.prefix in prefixes || exists d :: d in dirs && StartsWith(t.prefix, d)
  }

  function PickedBy(prefixes: seq<string>, dirs: seq<string>): TestInput -> bool {
    (t: TestInput) => Picked(prefixes, dirs, t)
  }

  /** The inputs `select_name` adds: all of them when nothing is selected. */
  function NameSelection(work: seq<TestInput>, prefixes: seq<string>, dirs: seq<string>): seq<TestInput> {
    if |prefixes| > 0 || |dirs| > 0 then Filter(PickedBy(prefixes, dirs), work) else work
  }

  /** An input is added iff it is picked (or nothing is selected); the order
      of the discovery is kept and none is added more often than it was
      discovered. */
  lemma NameSelectionPicks(work: seq<TestInput>, prefixes: seq<string>, dirs: seq<string>)
    ensures forall t :: t in NameSelection(work, prefixes, dirs) <==>
              t in work && ((|prefixes| == 0 && |dirs| == 0) || Picked(prefixes, dirs, t))
    ensures multiset(NameSelection(work, prefixes, dirs)) <= multiset(work)
    ensures forall a, b :: work == a + b ==>
              NameSelection(work, prefixes, dirs) == NameSelection(a, prefixes, dirs) + NameSelection(b, prefixes, dirs)
  {
    FilterMembers(PickedBy(prefixes, dirs), work);
    FilterMultiset(PickedBy(prefixes, dirs), work);
    forall a, b | work == a + b
      ensures NameSelection(work, prefixes, dirs) == NameSelection(a, prefixes, dirs) + NameSelection(b, prefixes, dirs)
    {
      FilterAppend(PickedBy(prefixes, dirs), a, b);
    }
  }

  function FasterThan(refs: map<string, Option<real>>, bound: real): TestInput -> bool {
    (t: TestInput) => Timed(refs, t.prefix).Some? && Timed(refs, t.prefix).value < bound
  }

  function SlowerThan(refs: map<string, Option<real>>, bound: real): TestInput -> bool {
    (t: TestInput) => Timed(refs, t.prefix).Some? && Timed(refs, t.prefix).value > bound
  }

  /** `select_timing`: the `fast:` bound, then the `slow:` bound. */
  function TimingSelection(ts: seq<TestInput>, refs: map<string, Option<real>>,
                           fasterThan: Option<real>, slowerThan: Option<real>): seq<TestInput>
  {
    var fast := if fasterThan.Some? then Filter(FasterThan(refs, fasterThan.value), ts) else ts;
    if slowerThan.Some? then Filter(SlowerThan(refs, slowerThan.value), fast) else fast
  }

  /** An input stays iff it meets every bound that is set, and an input
      without a reference result meets none; the order is kept and nothing
      is added. */
  lemma TimingSelectionKeeps(ts: seq<TestInput>, refs: map<string, Option<real>>,
                             fasterThan: Option<real>, slowerThan: Option<real>)
    ensures forall t :: t in TimingSelection(ts, refs, fasterThan, slowerThan) <==>
              t in ts &&
              (fasterThan.Some? ==> Timed(refs, t.prefix).Some? && Timed(refs, t.prefix).value < fasterThan.value) &&
              (slowerThan.Some? ==> Timed(refs, t.prefix).Some? && Timed(refs, t.prefix).value > slowerThan.value)
    ensures multiset(TimingSelection(ts, refs, fasterThan, slowerThan)) <= multiset(ts)
    ensures forall a, b :: ts == a + b ==>
              TimingSelection(ts, refs, fasterThan, slowerThan) ==
              TimingSelection(a, refs, fasterThan, slowerThan) + TimingSelection(b, refs, fasterThan, slowerThan)
  {
    var fast := if fasterThan.Some? then Filter(FasterThan(refs, fasterThan.value), ts) else ts;
    if fasterThan.Some? {
      FilterMembers(FasterThan(refs, fasterThan.value), ts);
      FilterMultiset(FasterThan(refs, fasterThan.value), ts);
    }
    if slowerThan.Some? {
      FilterMembers(SlowerThan(refs, slowerThan.value), fast);
      FilterMultiset(SlowerThan(refs, slowerThan.value), fast);
    }
    forall a, b | ts == a + b
      ensures TimingSelection(ts, refs, fasterThan, slowerThan) ==
              TimingSelection(a, refs, fasterThan, slowerThan) + TimingSelection(b, refs, fasterThan, slowerThan)
    {
      if fasterThan.Some? {
        FilterAppend(FasterThan(refs, fasterThan.value), a, b);
      }
      var fa := if fasterThan.Some? then Filter(FasterThan(refs, fasterThan.value), a) else a;
      var fb := if fasterThan.Some? then Filter(FasterThan(refs, fasterThan.value), b) else b;
      if slowerThan.Some? {
        FilterAppend(SlowerThan(refs, slowerThan.value), fa, fb);
      }
    }
  }

  /** `select_prefix in select_prefixes`, searched as the loop does. */
  method InPrefixes(prefix: string, selectPrefixes: seq<string>) returns (found: bool)
    ensures found <==> prefix in selectPrefixes
  {
    found := false;
    for k := 0 to |selectPrefixes|
      invariant !found <==> prefix !in selectPrefixes[..k]
    {
      if prefix == selectPrefixes[k] {
        return true;
      }
    }
    assert selectPrefixes[..|selectPrefixes|] == selectPrefixes;
  }

  /** Whether the prefix starts with one of the directories, searched as the
      loop does. */
  method InDirs(prefix: string, selectDirs: seq<string>) returns (found: bool)
    ensures found <==> exists d :: d in selectDirs && StartsWith(prefix, d)
  {
    for k := 0 to |selectDirs|
      invariant forall i :: 0 <= i < k ==> !StartsWith(prefix, selectDirs[i])
    {
      if StartsWith(prefix, selectDirs[k]) {
        return true;
      }
    }
    return false;
  }

  /** `select_name` adds an input when nothing is selected or when it is
      picked. */
  predicate Selects(prefixes: seq<string>, dirs: seq<string>, t: TestInput) {
    (|prefixes| == 0 && |dirs| == 0) || Picked(prefixes, dirs, t)
  }

  lemma NameSelectionSnoc(work: seq<TestInput>, i: nat, prefixes: seq<string>, dirs: seq<string>)
    requires i < |work|
    ensures NameSelection(work[..i + 1], prefixes, dirs) ==
            NameSelection(work[..i], prefixes, dirs) + (if Selects(prefixes, dirs, work[i]) then [work[i]] else [])
  {
    assert work[..i + 1][..i] == work[..i];
    if |prefixes| == 0 && |dirs| == 0 {
      assert work[..i + 1] == work[..i] + [work[i]];
    }
  }

  lemma PrefixesAppend(a: seq<TestInput>, b: seq<TestInput>)
    ensures Work.Prefixes(a + b) == Work.Prefixes(a) + Work.Prefixes(b)
  {
  }

  /** The sort key of a prefix: the summed timing of everything it needs. */
  ghost function KeyFor(g: Graph, refs: map<string, Option<real>>, p: string): (key: Option<real>)
    ensures Resolved(g) && p in g ==> key == Total(refs, Closure(g, {p}))
  {
    if Resolved(g) && p in g then Total(refs, Closure(g, {p})) else None
  }

  /** `keys` extends `keys0` by the sort key of every prefix of `ts` and keeps
      the other entries of `keys0`. */
  ghost predicate KeyedBy(keys: map<string, Option<real>>, keys0: map<string, Option<real>>,
                          ts: seq<TestInput>, g: Graph, refs: map<string, Option<real>>)
  {
    keys.Keys == keys0.Keys + Work.Prefixes(ts) &&
    (forall t :: t in ts ==> keys[t.prefix] == KeyFor(g, refs, t.prefix)) &&
    (forall p :: p in keys0 && p !in Work.Prefixes(ts) ==> keys[p] == keys0[p])
  }

  /** Assigning the key of one more input extends `KeyedBy` by that input. */
  lemma KeyedByAppend(keys: map<string, Option<real>>, keys0: map<string, Option<real>>,
                      ts: seq<TestInput>, t: TestInput, g: Graph, refs: map<string, Option<real>>)
    requires KeyedBy(keys, keys0, ts, g, refs)
    ensures KeyedBy(keys[t.prefix := KeyFor(g, refs, t.prefix)], keys0, ts + [t], g, refs)
  {
    PrefixesAppend(ts, [t]);
    var keys' := keys[t.prefix := KeyFor(g, refs, t.prefix)];
    forall u | u in ts + [t]
      ensures keys'[u.prefix] == KeyFor(g, refs, u.prefix)
    {
      if u.prefix != t.prefix {
        assert u in ts;
      }
    }
  }

  /** The same, stated on the inputs before and up to index `i`. */
  lemma KeyedBySnoc(keys: map<string, Option<real>>, keys0: map<string, Option<real>>,
                    ts: seq<TestInput>, i: nat, g: Graph, refs: map<string, Option<real>>)
    requires i < |ts| && KeyedBy(keys, keys0, ts[..i], g, refs)
    ensures KeyedBy(keys[ts[i].prefix := KeyFor(g, refs, ts[i].prefix)], keys0, ts[..i + 1], g, refs)
  {
    assert ts[..i + 1] == ts[..i] + [ts[i]];
    KeyedByAppend(keys, keys0, ts[..i], ts[i], g, refs);
  }

  /** The reference results `_add_test_input` has looked up for `ts`. */
  function References(reference: string -> Option<real>, ts: seq<TestInput>): (refs: map<string, Option<real>>)
    ensures refs.Keys == Work.Prefixes(ts)
    ensures forall p :: p in refs ==> refs[p] == reference(p)
  {
    map p | p in Work.Prefixes(ts) :: reference(p)
  }

  /** The inputs `select_name` and then `select_timing` keep of `work`. */
  function Chosen(reference: string -> Option<real>, work: seq<TestInput>,
                  selectPrefixes: seq<string>, selectDirs: seq<string>,
                  fasterThan: Option<real>, slowerThan: Option<real>): (r: seq<TestInput>)
    ensures forall t :: t in r ==> t in work
  {
    var named := NameSelection(work, selectPrefixes, selectDirs);
    NameSelectionPicks(work, selectPrefixes, selectDirs);
    TimingSelectionKeeps(named, References(reference, named), fasterThan, slowerThan);
    TimingSelection(named, References(reference, named), fasterThan, slowerThan)
  }

  /** The prefixes of `ts` and of everything they depend on. */
  ghost function Needed(g: Graph, ts: seq<TestInput>): (r: set<string>)
    requires Resolved(g) && forall t :: t in ts ==> Node(g, t)
    ensures Work.Prefixes(ts) <= r <= g.Keys
  {
    assert Work.Prefixes(ts) <= g.Keys by {
      forall p | p in Work.Prefixes(ts) ensures p in g {
        var t :| t in ts && t.prefix == p;
        assert Node(g, t);
      }
    }
    Closure(g, Work.Prefixes(ts))
  }

  /** Reordering a sequence of inputs keeps its prefixes. */
  lemma MultisetPrefixes(a: seq<TestInput>, b: seq<TestInput>)
    requires multiset(a) == multiset(b)
    ensures Work.Prefixes(a) == Work.Prefixes(b)
  {
    forall t | t in a ensures t in b { assert t in multiset(a); }
    forall t | t in b ensures t in a { assert t in multiset(b); }
  }

  /** The inputs from index `n` on have distinct prefixes, none in `avoid`. */
  ghost predicate NewAfter(ts: seq<TestInput>, n: nat, avoid: set<string>) {
    (forall i :: n <= i < |ts| ==> ts[i].prefix !in avoid) &&
    (forall i, j :: n <= i < j < |ts| ==> ts[i].prefix != ts[j].prefix)
  }

  /** The state of the `select_dependencies` loop: `ts` is `ts0` followed by
      inputs of distinct prefixes outside `original`, which together with
      `extra` make up `withDeps`. */
  ghost predicate Pending(ts: seq<TestInput>, ts0: seq<TestInput>, original: set<string>,
                          withDeps: set<string>, extra: set<string>) {
    |ts0| <= |ts| && ts[..|ts0|] == ts0 &&
    original == Work.Prefixes(ts0) && original <= withDeps &&
    extra <= withDeps - original &&
    Work.Prefixes(ts) == withDeps - extra &&
    NewAfter(ts, |ts0|, original + extra)
  }

  /** Appending the input of one missing prefix keeps the loop state, with
      that prefix no longer missing. */
  lemma ExtraStep(ts: seq<TestInput>, t: TestInput, ts0: seq<TestInput>, original: set<string>,
                  withDeps: set<string>, extra: set<string>)
    requires t.prefix in extra && Pending(ts, ts0, original, withDeps, extra)
    ensures Pending(ts + [t], ts0, original, withDeps, extra - {t.prefix})
  {
    PrefixesAppend(ts, [t]);
    var ts' := ts + [t];
    assert ts'[..|ts0|] == ts[..|ts0|];
    forall i | |ts0| <= i < |ts'|
      ensures ts'[i].prefix !in original + (extra - {t.prefix})
    {
      if i < |ts| {
        assert ts'[i] == ts[i];
      }
    }
    forall i, j | |ts0| <= i < j < |ts'|
      ensures ts'[i].prefix != ts'[j].prefix
    {
      assert ts'[i] == ts[i];
      if j < |ts| {
        assert ts'[j] == ts[j];
      }
    }
  }

  // ---------------------------------------------------------------------------
  // The runner

  class Runner {
    /** The discovered inputs by prefix. */
    const graph: Graph
    /** The `seconds` of the pickled reference result `refdir/<prefix>.pp`,
        None where that file does not exist. */
    const reference: string -> Option<real>
    /** `_test_inputs` */
    var testInputs: seq<TestInput>
    /** `ref_result.seconds` as assigned onto each input added. */
    var refs: map<string, Option<real>>
    /** `sort_key` as assigned onto each input. */
    var sortKeys: map<string, Option<real>>

    ghost predicate Valid()
      reads this
    {
      Resolved(graph) &&
      (forall t :: t in testInputs ==> Node(graph, t) && t.prefix in refs) &&
      (forall p :: p in refs ==> refs[p] == reference(p))
    }

    /** A runner over the discovered inputs that has selected nothing yet. */
    constructor Empty(graph: Graph, reference: string -> Option<real>)
      requires Resolved(graph)
      ensures Valid()
      ensures this.graph == graph && this.reference == reference
      ensures testInputs == [] && refs == map[] && sortKeys == map[]
    {
      this.graph := graph;
      this.reference := reference;
      testInputs := [];
      refs := map[];
      sortKeys := map[];
    }

    /** `_add_test_input`: the reference result is looked up and the input
        appended. */
    method AddTestInput(t: TestInput)
      requires Valid() && Node(graph, t)
      modifies this
      ensures Valid()
      ensures testInputs == old(testInputs) + [t]
      ensures refs == old(refs)[t.prefix := reference(t.prefix)]
      ensures sortKeys == old(sortKeys)
    {
      refs := refs[t.prefix := reference(t.prefix)];
      testInputs := testInputs + [t];
    }

    /** `select_name` */
    method SelectName(work: seq<TestInput>, selectPrefixes: seq<string>, selectDirs: seq<string>)
      requires Valid() && forall t :: t in work ==> Node(graph, t)
      modifies this
      ensures Valid()
      ensures testInputs == old(testInputs) + NameSelection(work, selectPrefixes, selectDirs)
      ensures refs.Keys == old(refs).Keys + Work.Prefixes(NameSelection(work, selectPrefixes, selectDirs))
      ensures sortKeys == old(sortKeys)
    {
      for i := 0 to |work|
        invariant Valid()
        invariant testInputs == old(testInputs) + NameSelection(work[..i], selectPrefixes, selectDirs)
        invariant refs.Keys == old(refs).Keys + Work.Prefixes(NameSelection(work[..i], selectPrefixes, selectDirs))
        invariant sortKeys == old(sortKeys)
      {
        SelectStep(work, i, selectPrefixes, selectDirs, old(testInputs), old(refs).Keys);
      }
      assert work[..|work|] == work;
    }

    /** One pass of the loop of `SelectName`, stated on the selection so far. */
    method SelectStep(work: seq<TestInput>, i: nat, selectPrefixes: seq<string>, selectDirs: seq<string>,
                      ghost ts0: seq<TestInput>, ghost keys0: set<string>)
      requires Valid() && i < |work| && Node(graph, work[i])
      requires testInputs == ts0 + NameSelection(work[..i], selectPrefixes, selectDirs)
      requires refs.Keys == keys0 + Work.Prefixes(NameSelection(work[..i], selectPrefixes, selectDirs))
      modifies this
      ensures Valid()
      ensures testInputs == ts0 + NameSelection(work[..i + 1], selectPrefixes, selectDirs)
      ensures refs.Keys == keys0 + Work.Prefixes(NameSelection(work[..i + 1], selectPrefixes, selectDirs))
      ensures sortKeys == old(sortKeys)
    {
      ghost var before := NameSelection(work[..i], selectPrefixes, selectDirs);
      ghost var added := if Selects(selectPrefixes, selectDirs, work[i]) then [work[i]] else [];
      NameSelectionSnoc(work, i, selectPrefixes, selectDirs);
      AppendAssoc(ts0, before, added);
      PrefixesAppend(before, added);
      SelectOne(work[i], selectPrefixes, selectDirs);
    }

    /** One pass of the loops of `select_name`. */
    method SelectOne(t: TestInput, selectPrefixes: seq<string>, selectDirs: seq<string>)
      requires Valid() && Node(graph, t)
      modifies this
      ensures Valid()
      ensures testInputs == old(testInputs) + (if Selects(selectPrefixes, selectDirs, t) then [t] else [])
      ensures refs.Keys == old(refs).Keys + (if Selects(selectPrefixes, selectDirs, t) then {t.prefix} else {})
      ensures sortKeys == old(sortKeys)
    {
      if |selectPrefixes| > 0 || |selectDirs| > 0 {
        var done := InPrefixes(t.prefix, selectPrefixes);
        if done {
          AddTestInput(t);
          return;
        }
        var under := InDirs(t.prefix, selectDirs);
        if under {
          AddTestInput(t);
        } else {
          assert testInputs + [] == testInputs;
        }
      } else {
        AddTestInput(t);
      }
    }

    /** `select_timing` */
    method SelectTiming(fasterThan: Option<real>, slowerThan: Option<real>)
      requires Valid()
      modifies this
      ensures Valid()
      ensures testInputs == TimingSelection(old(testInputs), refs, fasterThan, slowerThan)
      ensures refs == old(refs) && sortKeys == old(sortKeys)
    {
      TimingSelectionKeeps(testInputs, refs, fasterThan, slowerThan);
      if fasterThan.None? && slowerThan.None? {
        return;
      }
      if fasterThan.Some? {
        testInputs := Filter(FasterThan(refs, fasterThan.value), testInputs);
      }
      if slowerThan.Some? {
        testInputs := Filter(SlowerThan(refs, slowerThan.value), testInputs);
      }
    }

    /** `select_dependencies`: the inputs the selection needs and lacks are
        appended, each once. */
    method SelectDependencies()
      requires Valid()
      modifies this
      ensures Valid()
      ensures |testInputs| >= |old(testInputs)| && testInputs[..|old(testInputs)|] == old(testInputs)
      ensures Work.Prefixes(testInputs) == Closure(graph, Work.Prefixes(old(testInputs)))
      ensures forall i :: |old(testInputs)| <= i < |testInputs| ==>
                testInputs[i].prefix !in Work.Prefixes(old(testInputs))
      ensures forall i, j :: |old(testInputs)| <= i < j < |testInputs| ==>
                testInputs[i].prefix != testInputs[j].prefix
      ensures refs.Keys == old(refs).Keys + Work.Prefixes(testInputs)
      ensures sortKeys == old(sortKeys)
    {
      var original := set t | t in testInputs :: t.prefix;
      var withDeps := WithDependencies(graph, original);
      var extra := withDeps - original;
      ghost var keys0 := refs.Keys;
      assert original == Work.Prefixes(old(testInputs));
      assert Work.Prefixes(testInputs) <= refs.Keys;
      assert testInputs[..|testInputs|] == testInputs;
      while extra != {}
        invariant Valid() && withDeps <= graph.Keys
        invariant Pending(testInputs, old(testInputs), original, withDeps, extra)
        invariant refs.Keys == keys0 + Work.Prefixes(testInputs)
        invariant sortKeys == old(sortKeys)
        decreases extra
      {
        var p :| p in extra;
        AddExtra(p, old(testInputs), original, withDeps, extra, keys0);
        extra := extra - {p};
      }
    }

    /** One pass of the loop of `select_dependencies`. */
    method AddExtra(p: string, ghost ts0: seq<TestInput>, ghost original: set<string>, ghost withDeps: set<string>,
                    ghost extra: set<string>, ghost keys0: set<string>)
      requires Valid() && p in extra && withDeps <= graph.Keys
      requires Pending(testInputs, ts0, original, withDeps, extra)
      requires refs.Keys == keys0 + Work.Prefixes(testInputs)
      modifies this
      ensures Valid()
      ensures testInputs == old(testInputs) + [graph[p]]
      ensures Pending(testInputs, ts0, original, withDeps, extra - {p})
      ensures refs.Keys == keys0 + Work.Prefixes(testInputs)
      ensures sortKeys == old(sortKeys)
    {
      ExtraStep(testInputs, graph[p], ts0, original, withDeps, extra);
      AddTestInput(graph[p]);
    }

    /** The first loop of `sort_test_inputs`: each input gets the timing of
        everything it needs. */
    method AssignSortKeys()
      requires Valid() && ClosedSet(graph, Work.Prefixes(testInputs))
      modifies this
      ensures Valid()
      ensures testInputs == old(testInputs) && refs == old(refs)
      ensures sortKeys.Keys == old(sortKeys).Keys + Work.Prefixes(testInputs)
      ensures forall t :: t in testInputs ==> sortKeys[t.prefix] == Total(refs, Closure(graph, {t.prefix}))
      ensures forall p :: p in old(sortKeys) && p !in Work.Prefixes(testInputs) ==> sortKeys[p] == old(sortKeys)[p]
    {
      for i := 0 to |testInputs|
        invariant Valid() && testInputs == old(testInputs) && refs == old(refs)
        invariant KeyedBy(sortKeys, old(sortKeys), testInputs[..i], graph, refs)
      {
        AssignOne(i, old(sortKeys));
      }
      assert testInputs[..|testInputs|] == testInputs;
    }

    /** One pass of the first loop of `sort_test_inputs`. */
    method AssignOne(i: nat, ghost keys0: map<string, Option<real>>)
      requires Valid() && ClosedSet(graph, Work.Prefixes(testInputs)) && i < |testInputs|
      requires KeyedBy(sortKeys, keys0, testInputs[..i], graph, refs)
      modifies this
      ensures Valid()
      ensures testInputs == old(testInputs) && refs == old(refs)
      ensures sortKeys == old(sortKeys)[testInputs[i].prefix := Total(refs, Closure(graph, {testInputs[i].prefix}))]
      ensures KeyedBy(sortKeys, keys0, testInputs[..i + 1], graph, refs)
    {
      var t := testInputs[i];
      ClosureOfMember(graph, Work.Prefixes(testInputs), t.prefix);
      var key := SortKey(graph, refs, t.prefix);
      KeyedBySnoc(sortKeys, keys0, testInputs, i, graph, refs);
      sortKeys := sortKeys[t.prefix := key];
    }

    /** `sort_test_inputs` */
    method SortTestInputs()
      requires Valid() && ClosedSet(graph, Work.Prefixes(testInputs))
      modifies this
      ensures Valid()
      ensures refs == old(refs)
      ensures sortKeys.Keys == old(sortKeys).Keys + Work.Prefixes(old(testInputs))
      ensures forall t :: t in old(testInputs) ==> sortKeys[t.prefix] == Total(refs, Closure(graph, {t.prefix}))
      ensures forall p :: p in old(sortKeys) && p !in Work.Prefixes(old(testInputs)) ==> sortKeys[p] == old(sortKeys)[p]
      ensures testInputs == SortByKey(old(testInputs), KeyOf(sortKeys))
    {
      AssignSortKeys();
      ghost var unsorted := testInputs;
      SortByKeySorts(testInputs, KeyOf(sortKeys));
      testInputs := SortByKey(testInputs, KeyOf(sortKeys));
      forall t | t in testInputs
        ensures t in unsorted
      {
        assert t in multiset(testInputs);
      }
    }

    /** The selection part of `Runner.__init__`: every discovered input
        picked by name, then by timing, then whatever those need, sorted
        slowest first. */
    constructor (graph: Graph, reference: string -> Option<real>, work: seq<TestInput>,
                 selectPrefixes: seq<string>, selectDirs: seq<string>,
                 fasterThan: Option<real>, slowerThan: Option<real>)
      requires Resolved(graph) && forall t :: t in work ==> Node(graph, t)
      ensures Valid()
      ensures this.graph == graph && this.reference == reference
      ensures Work.Prefixes(testInputs) ==
              Needed(graph, Chosen(reference, work, selectPrefixes, selectDirs, fasterThan, slowerThan))
      ensures SortedByKey(testInputs, KeyOf(sortKeys))
      ensures forall t :: t in testInputs ==>
                t.prefix in sortKeys && sortKeys[t.prefix] == Total(refs, Closure(graph, {t.prefix}))
    {
      this.graph := graph;
      this.reference := reference;
      testInputs := [];
      refs := map[];
      sortKeys := map[];
      new;
      SelectName(work, selectPrefixes, selectDirs);
      ghost var named := NameSelection(work, selectPrefixes, selectDirs);
      assert testInputs == named;
      assert refs == References(reference, named);
      SelectTiming(fasterThan, slowerThan);
      SelectDependencies();
      ghost var closed := testInputs;
      ghost var chosen := Chosen(reference, work, selectPrefixes, selectDirs, fasterThan, slowerThan);
      assert Work.Prefixes(chosen) <= graph.Keys;
      ClosureIsLeast(graph, Work.Prefixes(chosen));
      SortTestInputs();
      SortByKeySorts(closed, KeyOf(sortKeys));
      MultisetPrefixes(closed, testInputs);
      forall t | t in testInputs
        ensures t.prefix in sortKeys && sortKeys[t.prefix] == Total(refs, Closure(graph, {t.prefix}))
      {
        assert t in multiset(closed);
        assert t.prefix in Work.Prefixes(closed);
      }
    }
  }

  // ---------------------------------------------------------------------------
  // Files of the run

  /** The paths `copy_inputs` copies, relative to the input directory. */
  function InputPaths(ts: seq<TestInput>): set<string>
    decreases |ts|
  {
    if ts == [] then {}
    else
      var t := ts[|ts| - 1];
      InputPaths(ts[..|ts| - 1]) + {t.prefix + ".inp"} + (set p | p in t.extraPaths)
  }

  /** The inputs and the extra files of every job are copied, and nothing
      else. */
  lemma {:induction false} InputPathsOf(ts: seq<TestInput>)
    ensures forall p :: p in InputPaths(ts) <==>
              exists t :: t in ts && (p == t.prefix + ".inp" || p in t.extraPaths)
    decreases |ts|
  {
    if ts != [] {
      InputPathsOf(ts[..|ts| - 1]);
      assert ts == ts[..|ts| - 1] + [ts[|ts| - 1]];
    }
  }

  /** The loops of `copy_inputs` that collect `all_paths`. */
  method CollectPaths(ts: seq<TestInput>) returns (all: set<string>)
    ensures all == InputPaths(ts)
  {
    all := {};
    for i := 0 to |ts|
      invariant all == InputPaths(ts[..i])
    {
      assert ts[..i + 1][..i] == ts[..i];
      all := all + {ts[i].prefix + ".inp"};
      ghost var start := all;
      for k := 0 to |ts[i].extraPaths|
        invariant all == start + (set p | p in ts[i].extraPaths[..k])
      {
        assert ts[i].extraPaths[..k + 1] == ts[i].extraPaths[..k] + [ts[i].extraPaths[k]];
        all := all + {ts[i].extraPaths[k]};
      }
      assert ts[i].extraPaths[..|ts[i].extraPaths|] == ts[i].extraPaths;
    }
    assert ts[..|ts|] == ts;
  }

  /** The output file of a job. */
  function Out(prefix: string): string {
    prefix + ".out"
  }

  function Outs(prefixes: seq<string>): (r: seq<string>)
    ensures |r| == |prefixes| && forall i :: 0 <= i < |r| ==> r[i] == Out(prefixes[i])
  {
    seq(|prefixes|, i requires 0 <= i < |prefixes| => Out(prefixes[i]))
  }

  function PrefixList(ts: seq<TestInput>): (r: seq<string>)
    ensures |r| == |ts| && forall i :: 0 <= i < |r| ==> r[i] == ts[i].prefix
  {
    seq(|ts|, i requires 0 <= i < |ts| => ts[i].prefix)
  }

  /** The command of a job's rule; the MPI prefix is passed quoted when there
      is one.  `bin` is the absolute path of the CP2K binary. */
  function Command(bin: string, refdir: string, mpiPrefix: Option<string>, prefix: string): string {
    "\tcpqa-driver.py " + bin + " " + prefix + " " + refdir +
    (if mpiPrefix.Some? then " '" + mpiPrefix.value + "'" else "")
  }

  function RuleLine(t: TestInput): string {
    Out(t.prefix) + ": " + Join(" ", Outs(t.depends))
  }

  /** The lines written for one job: its rule, its command, an empty line. */
  function JobLines(bin: string, refdir: string, mpiPrefix: Option<string>, t: TestInput): seq<string> {
    [RuleLine(t), Command(bin, refdir, mpiPrefix, t.prefix), ""]
  }

  function Rules(bin: string, refdir: string, mpiPrefix: Option<string>, ts: seq<TestInput>): seq<string>
    decreases |ts|
  {
    if ts == [] then []
    else Rules(bin, refdir, mpiPrefix, ts[..|ts| - 1]) + JobLines(bin, refdir, mpiPrefix, ts[|ts| - 1])
  }

  /** The lines of the Makefile, each written with a newline after it. */
  function Makefile(bin: string, refdir: string, mpiPrefix: Option<string>, ts: seq<TestInput>): seq<string> {
    ["all: " + Join(" ", Outs(PrefixList(ts)))] + Rules(bin, refdir, mpiPrefix, ts)
  }

  /** Three lines per job, in the order of the jobs. */
  lemma {:induction false} RulesOfEachJob(bin: string, refdir: string, mpiPrefix: Option<string>, ts: seq<TestInput>)
    ensures |Rules(bin, refdir, mpiPrefix, ts)| == 3 * |ts|
    ensures forall i :: 0 <= i < |ts| ==>
              Rules(bin, refdir, mpiPrefix, ts)[3 * i] == RuleLine(ts[i]) &&
              Rules(bin, refdir, mpiPrefix, ts)[3 * i + 1] == Command(bin, refdir, mpiPrefix, ts[i].prefix) &&
              Rules(bin, refdir, mpiPrefix, ts)[3 * i + 2] == ""
    decreases |ts|
  {
    if ts != [] {
      RulesOfEachJob(bin, refdir, mpiPrefix, ts[..|ts| - 1]);
    }
  }

  /** The `all` target names the output of every job, in job order, when no
      prefix holds a space. */
  lemma AllTargetLists(bin: string, refdir: string, mpiPrefix: Option<string>, ts: seq<TestInput>)
    requires ts != [] && forall t :: t in ts ==> ' ' !in t.prefix
    ensures var all := Makefile(bin, refdir, mpiPrefix, ts)[0];
            StartsWith(all, "all: ") && SplitOn(all[5..], ' ') == Outs(PrefixList(ts))
  {
    var outs := Outs(PrefixList(ts));
    forall k | 0 <= k < |outs|
      ensures ' ' !in outs[k]
    {
      assert ts[k] in ts;
    }
    SplitOnJoin(outs, ' ');
    var all := Makefile(bin, refdir, mpiPrefix, ts)[0];
    assert all[5..] == Join(" ", outs);
  }

  /** The prerequisites of a job's rule are the outputs of exactly the jobs
      it depends on, when no prefix holds a space. */
  lemma RulePrerequisites(t: TestInput)
    requires t.depends != [] && forall d :: d in t.depends ==> ' ' !in d
    ensures var rule := RuleLine(t); var n := |Out(t.prefix)| + 2;
            n <= |rule| && rule[..n] == Out(t.prefix) + ": " && SplitOn(rule[n..], ' ') == Outs(t.depends)
  {
    var outs := Outs(t.depends);
    forall k | 0 <= k < |outs|
      ensures ' ' !in outs[k]
    {
      assert t.depends[k] in t.depends;
    }
    SplitOnJoin(outs, ' ');
    var rule := RuleLine(t);
    var n := |Out(t.prefix)| + 2;
    assert rule[n..] == Join(" ", outs);
  }

  /** `create_makefile`: the lines as the loop writes them. */
  method CreateMakefile(bin: string, refdir: string, mpiPrefix: Option<string>, ts: seq<TestInput>)
    returns (lines: seq<string>)
    ensures lines == Makefile(bin, refdir, mpiPrefix, ts)
  {
    lines := ["all: " + Join(" ", Outs(PrefixList(ts)))];
    for i := 0 to |ts|
      invariant lines == ["all: " + Join(" ", Outs(PrefixList(ts)))] + Rules(bin, refdir, mpiPrefix, ts[..i])
    {
      assert ts[..i + 1][..i] == ts[..i];
      AppendAssoc(["all: " + Join(" ", Outs(PrefixList(ts)))], Rules(bin, refdir, mpiPrefix, ts[..i]),
                  JobLines(bin, refdir, mpiPrefix, ts[i]));
      lines := lines + [RuleLine(ts[i]), Command(bin, refdir, mpiPrefix, ts[i].prefix), ""];
    }
    assert ts[..|ts|] == ts;
  }

  /** The `-j` argument of `make`: the processes, divided among the MPI
      ranks of each job when jobs run under MPI. */
  function MakeJobs(nproc: int, nprocMpi: int, mpiPrefix: Option<string>): (n: int)
    requires nproc > 0 && nprocMpi > 0
    ensures mpiPrefix.None? ==> n == nproc
    ensures mpiPrefix.Some? ==> 0 <= n && n * nprocMpi <= nproc < (n + 1) * nprocMpi
  {
    if mpiPrefix.None? then nproc else nproc / nprocMpi
  }

  /** One progress line of `run_makefile`. */
  datatype Progress = Progress(counter: nat, percent: real, text: string)

  predicate IsMarked(line: string) {
    StartsWith(line, "CPQA-PREFIX")
  }

  function Marked(output: seq<string>): seq<string> {
    Filter(IsMarked, output)
  }

  /** The loop of `run_makefile` over the lines `make` prints (given here),
      then the check of its exit status. */
  method FollowMake(output: seq<string>, total: nat, returncode: int) returns (r: Result<seq<Progress>>)
    ensures total == 0 && |Marked(output)| > 0 ==> r == Err(ZeroDivisionError)
    ensures (total > 0 || |Marked(output)| == 0) && returncode != 0 ==>
              r == Err(RuntimeError("CPQA could not run the tests."))
    ensures r.Ok? <==> (total > 0 || |Marked(output)| == 0) && returncode == 0
    ensures r.Ok? ==> |r.value| == |Marked(output)|
    ensures r.Ok? ==> forall i :: 0 <= i < |r.value| ==>
              r.value[i] == Progress(i + 1, (i + 1) as real / total as real * 100.0, Slice(Marked(output)[i], 12, -1))
  {
    var progress: seq<Progress> := [];
    var counter: nat := 0;
    for k := 0 to |output|
      invariant |Marked(output[..k])| == counter == |progress|
      invariant counter > 0 ==> total > 0
      invariant forall i :: 0 <= i < counter ==>
                  progress[i] == Progress(i + 1, (i + 1) as real / total as real * 100.0, Slice(Marked(output[..k])[i], 12, -1))
    {
      var line := output[k];
      assert output[..k + 1] == output[..k] + [line];
      if IsMarked(line) {
        assert Marked(output[..k + 1]) == Marked(output[..k]) + [line];
        counter := counter + 1;
        if total == 0 {
          MarkedGrows(output, k + 1);
          return Err(ZeroDivisionError);
        }
        progress := progress + [Progress(counter, counter as real / total as real * 100.0, Slice(line, 12, -1))];
      } else {
        assert Marked(output[..k + 1]) == Marked(output[..k]) + [];
      }
    }
    assert output[..|output|] == output;
    if returncode != 0 {
      return Err(RuntimeError("CPQA could not run the tests."));
    }
    r := Ok(progress);
  }

  /** Lines marked early are marked in the whole output. */
  lemma MarkedGrows(output: seq<string>, n: nat)
    requires n <= |output|
    ensures |Marked(output[..n])| <= |Marked(output)|
  {
    assert output == output[..n] + output[n..];
    FilterAppend(IsMarked, output[..n], output[n..]);
  }
}
