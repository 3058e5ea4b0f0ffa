/** The logic of cpqa/log.py: the summary counters of `log_txt` and
    `log_html`, the rows they print in sorted key order, the choice of the
    jobs that get a problem section, and the per-line markup of
    `diff_html`.  The flags of a job are the dict the driver pickles; the
    rest of the report is text formatting and is not modelled. */
module Log {
  import opened Wrappers
  import opened PyStr
  import Driver

  // ---------------------------------------------------------------------------
  // The flags dict and the counters

  /** The items of a job's `flags` dict: the driver's keys, each once, with
      their values.  Python 2 iterates a dict in no particular order; the
      counters do not depend on it, and the model takes key order. */
  function Items(f: Driver.Flags): seq<(string, bool)> {
    Driver.Entries(f)
  }

  /** `int(b)` */
  function Ord(b: bool): int {
    if b then 1 else 0
  }

  /** `counters.get(key, 0)` */
  function Get(c: map<string, int>, key: string): int {
    if key in c then c[key] else 0
  }

  /** `counters[key] = value + counters.get(key, 0)` */
  function Bump(c: map<string, int>, key: string, value: bool): map<string, int> {
    c[key := Ord(value) + Get(c, key)]
  }

  /** The counters after the inner loop over the first items of a dict. */
  function Bumped(c: map<string, int>, items: seq<(string, bool)>): map<string, int> {
    if items == [] then c
    else
      var last := items[|items| - 1];
      Bump(Bumped(c, items[..|items| - 1]), last.0, last.1)
  }

  /** The counters after the outer loop over the first jobs. */
  function Counters(results: seq<Driver.Flags>): map<string, int> {
    if results == [] then map[]
    else Bumped(Counters(results[..|results| - 1]), Items(results[|results| - 1]))
  }

  /** `for key in result.flags: counters[key] = result.flags[key] + counters.get(key, 0)` */
  method AddFlags(counters: map<string, int>, items: seq<(string, bool)>) returns (c: map<string, int>)
    ensures c == Bumped(counters, items)
  {
    c := counters;
    for j := 0 to |items|
      invariant c == Bumped(counters, items[..j])
    {
      assert items[..j + 1][..j] == items[..j];
      c := c[items[j].0 := Ord(items[j].1) + Get(c, items[j].0)];
    }
    assert items[..|items|] == items;
  }

  /** The counters of `log_txt` and `log_html`, accumulated over all jobs. */
  method Count(results: seq<Driver.Flags>) returns (counters: map<string, int>)
    ensures counters == Counters(results)
  {
    counters := map[];
    for i := 0 to |results|
      invariant counters == Counters(results[..i])
    {
      assert results[..i + 1][..i] == results[..i];
      counters := AddFlags(counters, Items(results[i]));
    }
    assert results[..|results|] == results;
  }

  /** The number of items that raise `key`. */
  function Raises(items: seq<(string, bool)>, key: string): (n: nat)
    ensures n <= |items|
  {
    if items == [] then 0
    else Raises(items[..|items| - 1], key) + Ord(items[|items| - 1] == (key, true))
  }

  predicate HasKey(items: seq<(string, bool)>, key: string) {
    exists j :: 0 <= j < |items| && items[j].0 == key
  }

  /** Adding the items of a dict gives each key one count per item that
      raises it, and adds exactly the dict's keys. */
  lemma {:induction false} BumpedCounts(c: map<string, int>, items: seq<(string, bool)>)
    ensures forall k :: k in Bumped(c, items) <==> k in c || HasKey(items, k)
    ensures forall k :: Get(Bumped(c, items), k) == Get(c, k) + Raises(items, k)
  {
    if items != [] {
      var init := items[..|items| - 1];
      BumpedCounts(c, init);
      forall k ensures HasKey(items, k) <==> HasKey(init, k) || items[|items| - 1].0 == k {
        if HasKey(items, k) && items[|items| - 1].0 != k {
          var j :| 0 <= j < |items| && items[j].0 == k;
          assert init[j].0 == k;
        }
        if HasKey(init, k) {
          var j :| 0 <= j < |init| && init[j].0 == k;
          assert items[j].0 == k;
        }
      }
    }
  }

  /** The number of jobs whose `i`-th flag, in key order, is raised. */
  function Raising(results: seq<Driver.Flags>, i: nat): (n: nat)
    requires i < 9
    ensures n <= |results|
  {
    if results == [] then 0
    else Raising(results[..|results| - 1], i) + Ord(Items(results[|results| - 1])[i].1)
  }

  /** The keys of the flags dict, in order. */
  function EntryKeys(f: Driver.Flags): (keys: seq<string>)
    ensures |keys| == 9
  {
    seq(9, i requires 0 <= i < 9 => Driver.Entries(f)[i].0)
  }

  /** Every job's dict has the same keys. */
  lemma SameKeys(f: Driver.Flags, g: Driver.Flags)
    ensures EntryKeys(f) == EntryKeys(g)
  {
  }

  /** In items with strictly increasing keys a key is raised at most once:
      by its own item. */
  lemma {:induction false} RaisesOwnItem(items: seq<(string, bool)>, i: nat)
    requires forall a, b :: 0 <= a < b < |items| ==> Driver.Below(items[a].0, items[b].0)
    requires i < |items|
    ensures Raises(items, items[i].0) == Ord(items[i].1)
  {
    var init := items[..|items| - 1];
    var last := items[|items| - 1];
    if i == |items| - 1 {
      NotRaised(init, last.0);
    } else {
      if last.0 == items[i].0 {
        BelowIrreflexive(items[i].0);
      }
      RaisesOwnItem(init, i);
    }
  }

  /** A key that no item carries is not raised. */
  lemma {:induction false} NotRaised(items: seq<(string, bool)>, key: string)
    requires forall a :: 0 <= a < |items| ==> Driver.Below(items[a].0, key)
    ensures Raises(items, key) == 0
  {
    if items != [] {
      BelowIrreflexive(key);
      NotRaised(items[..|items| - 1], key);
    }
  }

  /** Without jobs there are no counters; otherwise the counters have the
      keys of the flags dict, and the counter of the `i`-th key holds the
      number of jobs whose `i`-th flag is raised. */
  lemma {:induction false} CountersTally(results: seq<Driver.Flags>)
    ensures results == [] ==> Counters(results) == map[]
    ensures results != [] ==>
              && (forall k :: k in Counters(results) <==> k in EntryKeys(results[0]))
              && (forall i :: 0 <= i < 9 ==> Counters(results)[EntryKeys(results[0])[i]] == Raising(results, i))
  {
    if results != [] {
      var init := results[..|results| - 1];
      var f := results[|results| - 1];
      var keys := EntryKeys(f);
      CountersTally(init);
      BumpedCounts(Counters(init), Items(f));
      Driver.EntriesSorted(f);
      SameKeys(f, results[0]);
      if init != [] {
        SameKeys(init[0], results[0]);
      }
      ItemsHaveKeys(f);
      forall i | 0 <= i < 9
        ensures Counters(results)[keys[i]] == Raising(results, i)
      {
        RaisesOwnItem(Items(f), i);
        assert HasKey(Items(f), keys[i]) by {
          assert Items(f)[i].0 == keys[i];
        }
      }
    }
  }

  /** A job's dict has exactly the keys of the flags dict. */
  lemma ItemsHaveKeys(f: Driver.Flags)
    ensures forall k :: HasKey(Items(f), k) <==> k in EntryKeys(f)
  {
    var keys := EntryKeys(f);
    forall k ensures HasKey(Items(f), k) <==> k in keys {
      if HasKey(Items(f), k) {
        var j :| 0 <= j < 9 && Items(f)[j].0 == k;
        assert keys[j] == k;
      }
      if k in keys {
        var j :| 0 <= j < 9 && keys[j] == k;
        assert Items(f)[j].0 == k;
      }
    }
  }

  // ---------------------------------------------------------------------------
  // The problem sections

  /** The positions of the jobs that get a problem section: those whose
      `ok` flag is false, in order.  This is what the log writes once the
      `leak` flag is read with a default of False (see `SectionsAsWritten`). */
  function Problems(results: seq<Driver.Flags>): (r: seq<nat>)
  {
    if results == [] then []
    else Problems(results[..|results| - 1]) +
         (if results[|results| - 1].ok then [] else [|results| - 1])
  }

  /** The position of `ok` among the keys in order. */
  const OkIndex: nat := 5

  /** A job gets a problem section iff it is not ok, and the sections follow
      the jobs' order. */
  lemma {:induction false} ProblemsAreNotOk(results: seq<Driver.Flags>)
    ensures forall i: int :: i in Problems(results) <==> 0 <= i < |results| && !results[i].ok
    ensures forall a, b :: 0 <= a < b < |Problems(results)| ==> Problems(results)[a] < Problems(results)[b]
  {
    if results != [] {
      var init := results[..|results| - 1];
      ProblemsAreNotOk(init);
      assert forall i :: 0 <= i < |init| ==> init[i] == results[i];
      forall a | 0 <= a < |Problems(init)|
        ensures Problems(init)[a] < |init|
      {
        assert Problems(init)[a] in Problems(init);
      }
    }
  }

  /** The problem sections and the `ok` counter together account for every
      job. */
  lemma {:induction false} ProblemsAndOkCounter(results: seq<Driver.Flags>)
    ensures EntryKeys(Driver.Flags(false, false, false, false, false, false, false, false, false))[OkIndex] == "ok"
    ensures |Problems(results)| + Raising(results, OkIndex) == |results|
  {
    if results != [] {
      ProblemsAndOkCounter(results[..|results| - 1]);
    }
  }

  /** `flags[key]`: the value, or KeyError for a key the dict lacks. */
  function Lookup(items: seq<(string, bool)>, key: string): (r: Result<bool>)
    ensures r.Ok? <==> HasKey(items, key)
    ensures r.Ok? ==> (key, r.value) in items
    ensures r.Err? ==> r.error == KeyError(key)
  {
    if items == [] then Err(KeyError(key))
    else if items[0].0 == key then Ok(items[0].1)
    else
      var r := Lookup(items[1..], key);
      assert HasKey(items, key) <==> HasKey(items[1..], key) by {
        if HasKey(items, key) {
          var j :| 0 <= j < |items| && items[j].0 == key;
          assert items[1..][j - 1].0 == key;
        }
        if HasKey(items[1..], key) {
          var j :| 0 <= j < |items[1..]| && items[1..][j].0 == key;
          assert items[j + 1].0 == key;
        }
      }
      r
  }

  /** The problem sections of `log_txt` as written: each section of a job
      that is not ok ends by reading `flags['leak']`, which the driver never
      writes, so the first such job raises KeyError. */
  function SectionsAsWritten(results: seq<Driver.Flags>): Result<seq<nat>> {
    if results == [] then Ok([])
    else
      var last := results[|results| - 1];
      match SectionsAsWritten(results[..|results| - 1])
      case Err(e) => Err(e)
      case Ok(done) =>
        if last.ok then Ok(done)
        else match Lookup(Items(last), "leak")
          case Err(e) => Err(e)
          case Ok(_) => Ok(done + [|results| - 1])
  }

  /** The driver's flags have no `leak` key. */
  lemma NoLeakKey(f: Driver.Flags)
    ensures !HasKey(Items(f), "leak")
  {
    forall j | 0 <= j < |Items(f)|
      ensures Items(f)[j].0 != "leak"
    {
      assert Items(f)[j].0[0] != 'l';
    }
  }

  /** As written, the log gets past its problem sections only when every
      job is ok, and otherwise fails on the missing `leak` key. */
  lemma {:induction false} SectionsAsWrittenFail(results: seq<Driver.Flags>)
    ensures SectionsAsWritten(results).Ok? <==> Problems(results) == []
    ensures SectionsAsWritten(results).Err? ==> SectionsAsWritten(results).error == KeyError("leak")
  {
    if results != [] {
      SectionsAsWrittenFail(results[..|results| - 1]);
      NoLeakKey(results[|results| - 1]);
    }
  }

  // ---------------------------------------------------------------------------
  // Sorted keys

  lemma {:induction false} BelowIrreflexive(a: string)
    ensures !Driver.Below(a, a)
  {
    if a != [] {
      BelowIrreflexive(a[1..]);
    }
  }

  lemma {:induction false} BelowTransitive(a: string, b: string, c: string)
    requires Driver.Below(a, b) && Driver.Below(b, c)
    ensures Driver.Below(a, c)
  {
    if a != [] && a[0] == b[0] && b[0] == c[0] {
      BelowTransitive(a[1..], b[1..], c[1..]);
    }
  }

  lemma {:induction false} BelowTotal(a: string, b: string)
    ensures a == b || Driver.Below(a, b) || Driver.Below(b, a)
  {
    if a != [] && b != [] && a[0] == b[0] {
      BelowTotal(a[1..], b[1..]);
      if a[1..] == b[1..] {
        assert a == [a[0]] + a[1..] && b == [b[0]] + b[1..];
      }
    }
  }

  predicate IsLeast(m: string, keys: set<string>) {
    m in keys && forall x :: x in keys && x != m ==> Driver.Below(m, x)
  }

  /** At most one element is least. */
  lemma LeastUnique(keys: set<string>)
    ensures forall m, n :: IsLeast(m, keys) && IsLeast(n, keys) ==> m == n
  {
    forall m, n | IsLeast(m, keys) && IsLeast(n, keys)
      ensures m == n
    {
      if m != n {
        BelowTransitive(m, n, m);
        BelowIrreflexive(m);
      }
    }
  }

  /** A non-empty set of strings has a least element. */
  lemma {:induction false} LeastExists(keys: set<string>)
    requires keys != {}
    ensures exists m :: IsLeast(m, keys)
    decreases |keys|
  {
    var y :| y in keys;
    var rest := keys - {y};
    if rest == {} {
      assert keys == {y};
      assert IsLeast(y, keys);
    } else {
      LeastExists(rest);
      var m :| IsLeast(m, rest);
      BelowTotal(m, y);
      if Driver.Below(m, y) {
        assert IsLeast(m, keys);
      } else {
        forall x | x in keys && x != y
          ensures Driver.Below(y, x)
        {
          if x != m {
            BelowTransitive(y, m, x);
          }
        }
        assert IsLeast(y, keys);
      }
    }
  }

  /** `sorted(keys)`: the keys in increasing order. */
  function SortedKeys(keys: set<string>): seq<string>
    decreases |keys|
  {
    if keys == {} then []
    else
      LeastExists(keys);
      LeastUnique(keys);
      var m :| IsLeast(m, keys);
      [m] + SortedKeys(keys - {m})
  }

  /** The sorted keys are the keys, each once, in strictly increasing order. */
  lemma {:induction false} SortedKeysSorted(keys: set<string>)
    ensures var r := SortedKeys(keys);
            && |r| == |keys|
            && (forall x :: x in r <==> x in keys)
            && (forall i, j :: 0 <= i < j < |r| ==> Driver.Below(r[i], r[j]))
    decreases |keys|
  {
    if keys != {} {
      LeastExists(keys);
      LeastUnique(keys);
      var m :| IsLeast(m, keys);
      assert SortedKeys(keys) == [m] + SortedKeys(keys - {m});
      SortedKeysSorted(keys - {m});
    }
  }

  /** The head of a strictly increasing sequence is its least element. */
  lemma SortedHeadLeast(p: seq<string>)
    requires forall i, j :: 0 <= i < j < |p| ==> Driver.Below(p[i], p[j])
    requires p != []
    ensures IsLeast(p[0], set x | x in p)
  {
    forall x | x in p && x != p[0]
      ensures Driver.Below(p[0], x)
    {
      var i :| 0 <= i < |p| && p[i] == x;
    }
  }

  lemma NonEmptyMirror(p: seq<string>, q: seq<string>)
    requires forall x :: x in p ==> x in q
    ensures p != [] ==> q != []
  {
    if p != [] {
      assert p[0] in q;
    }
  }

  /** Two strictly increasing sequences with the same elements are equal. */
  lemma {:induction false} SortedUnique(p: seq<string>, q: seq<string>)
    requires forall i, j :: 0 <= i < j < |p| ==> Driver.Below(p[i], p[j])
    requires forall i, j :: 0 <= i < j < |q| ==> Driver.Below(q[i], q[j])
    requires forall x :: x in p <==> x in q
    ensures p == q
    decreases |p|
  {
    NonEmptyMirror(p, q);
    NonEmptyMirror(q, p);
    if p != [] {
      var elems := set x | x in p;
      assert elems == set x | x in q;
      SortedHeadLeast(p);
      SortedHeadLeast(q);
      LeastUnique(elems);
      forall x ensures x in p[1..] <==> x in q[1..] {
        if x in p[1..] {
          var i :| 1 <= i < |p| && p[i] == x;
          assert Driver.Below(p[0], p[i]);
          BelowIrreflexive(x);
          assert x in q;
          var j :| 0 <= j < |q| && q[j] == x;
          assert q[1..][j - 1] == x;
        }
        if x in q[1..] {
          var i :| 1 <= i < |q| && q[i] == x;
          assert Driver.Below(q[0], q[i]);
          BelowIrreflexive(x);
          assert x in p;
          var j :| 0 <= j < |p| && p[j] == x;
          assert p[1..][j - 1] == x;
        }
      }
      SortedUnique(p[1..], q[1..]);
      assert p == [p[0]] + p[1..] && q == [q[0]] + q[1..];
    }
  }

  /** Sorting the keys of the flags dict lists them in the order the status
      line shows them. */
  lemma SummaryOrderIsTagOrder(f: Driver.Flags)
    ensures SortedKeys(set k | k in EntryKeys(f)) == EntryKeys(f)
  {
    var e := EntryKeys(f);
    Driver.EntriesSorted(f);
    SortedKeysSorted(set k | k in e);
    SortedUnique(SortedKeys(set k | k in e), e);
  }

  // ---------------------------------------------------------------------------
  // The summary rows

  /** The count column: the number if positive, '-' otherwise. */
  function CountText(value: int): string {
    if value > 0 then Decimal(value) else "-"
  }

  /** `'%5s' % s`: padded with spaces on the left to five characters. */
  function PadLeft(s: string, width: nat): (r: string)
  {
    if |s| >= width then s else seq(width - |s|, _ => ' ') + s
  }

  /** A count shows as '-' iff it is zero or less, and otherwise as its
      digits; the text log shows the same text right-aligned to five
      characters. */
  lemma CountTextShowsCount(value: int)
    ensures CountText(value) == "-" <==> value <= 0
    ensures value > 0 ==> DecimalValue(CountText(value)) == value
    ensures EndsWith(PadLeft(CountText(value), 5), CountText(value))
    ensures |PadLeft(CountText(value), 5)| == if |CountText(value)| >= 5 then |CountText(value)| else 5
  {
    if value > 0 {
      DecimalRoundTrip(value);
      assert CountText(value)[0] != '-';
    }
  }

  /** One row of the summary table: the key's capital initial, the key in
      capitals, and the count. */
  datatype Row = Row(initial: string, caption: string, count: string)

  /** The rows of `sorted(counters.iteritems())`. */
  function Summary(counters: map<string, int>): seq<Row> {
    var keys := SortedKeys(counters.Keys);
    SortedKeysSorted(counters.Keys);
    seq(|keys|, i requires 0 <= i < |keys| =>
          Row(Upper(SliceTo(keys[i], 1)), Upper(keys[i]), CountText(counters[keys[i]])))
  }

  /** The TOTAL row shows the number of jobs, printed even when zero. */
  function TotalRow(results: seq<Driver.Flags>): Row {
    Row("", "TOTAL", Decimal(|results|))
  }

  /** The keys of the counters of a non-empty run, sorted, are the keys of
      the flags dict in order. */
  lemma CountersSorted(results: seq<Driver.Flags>)
    requires results != []
    ensures SortedKeys(Counters(results).Keys) == EntryKeys(results[0])
  {
    CountersTally(results);
    assert Counters(results).Keys == set k | k in EntryKeys(results[0]);
    SummaryOrderIsTagOrder(results[0]);
  }

  /** A row of the summary shows its key and that key's counter. */
  lemma SummaryRow(counters: map<string, int>, keys: seq<string>, i: nat)
    requires SortedKeys(counters.Keys) == keys && i < |keys| && |keys[i]| > 0
    ensures |Summary(counters)| == |keys|
    ensures keys[i] in counters
    ensures Summary(counters)[i] == Row([UpperChar(keys[i][0])], Upper(keys[i]), CountText(counters[keys[i]]))
  {
    SortedKeysSorted(counters.Keys);
    assert keys[i] in keys;
    assert SliceTo(keys[i], 1) == [keys[i][0]];
  }

  /** After any non-empty run the summary has one row per flag, in the
      order of the status line; each row shows '-' iff no job raised that
      flag and otherwise the number of jobs that did.  The TOTAL row reads
      back as the number of jobs. */
  lemma SummaryOfRun(results: seq<Driver.Flags>)
    requires results != []
    ensures var rows := Summary(Counters(results));
            var keys := EntryKeys(results[0]);
            && |rows| == |keys| == 9
            && (forall i :: 0 <= i < 9 ==>
                  && rows[i].caption == Upper(keys[i])
                  && rows[i].initial == [UpperChar(keys[i][0])]
                  && (rows[i].count == "-" <==> Raising(results, i) == 0)
                  && (Raising(results, i) > 0 ==> DecimalValue(rows[i].count) == Raising(results, i)))
    ensures DecimalValue(TotalRow(results).count) == |results|
  {
    var keys := EntryKeys(results[0]);
    var counters := Counters(results);
    CountersSorted(results);
    CountersTally(results);
    forall i | 0 <= i < 9
      ensures Summary(counters)[i].caption == Upper(keys[i])
      ensures Summary(counters)[i].initial == [UpperChar(keys[i][0])]
      ensures Summary(counters)[i].count == "-" <==> Raising(results, i) == 0
      ensures Raising(results, i) > 0 ==> DecimalValue(Summary(counters)[i].count) == Raising(results, i)
    {
      SummaryRow(counters, keys, i);
      CountTextShowsCount(Raising(results, i));
    }
    DecimalRoundTrip(|results|);
  }

  // ---------------------------------------------------------------------------
  // Diff markup

  /** The markup `diff_html` puts around one line of a unified diff. */
  datatype Style = RedBold | GreenBold | RedSpan | GreenSpan | PurpleItalic | Plain

  /** The first rule that matches the line. */
  function StyleOf(line: string): Style {
    if StartsWith(line, "---") then RedBold
    else if StartsWith(line, "+++") then GreenBold
    else if StartsWith(line, "-") then RedSpan
    else if StartsWith(line, "+") then GreenSpan
    else if StartsWith(line, "@@") && EndsWith(line, "@@") then PurpleItalic
    else Plain
  }

  function OpenTag(s: Style): string {
    match s
    case RedBold => "<b class=\"red\">"
    case GreenBold => "<b class=\"green\">"
    case RedSpan => "<span class=\"red\">"
    case GreenSpan => "<span class=\"green\">"
    case PurpleItalic => "<i class=\"purple\">"
    case Plain => ""
  }

  function CloseTag(s: Style): string {
    match s
    case RedBold | GreenBold => "</b>"
    case RedSpan | GreenSpan => "</span>"
    case PurpleItalic => "</i>"
    case Plain => ""
  }

  /** One printed line of the diff: the line without its last character,
      wrapped in the tags of its style. */
  function Markup(diffLine: string): string {
    var line := SliceTo(diffLine, -1);
    OpenTag(StyleOf(line)) + line + CloseTag(StyleOf(line))
  }

  /** Each style is chosen exactly when its own rule matches and no earlier
      one does: file headers in bold, removed and added lines in red and
      green, hunk headers in italics, the rest unmarked. */
  lemma StyleRules(line: string)
    ensures StyleOf(line) == RedBold <==> StartsWith(line, "---")
    ensures StyleOf(line) == GreenBold <==> StartsWith(line, "+++")
    ensures StyleOf(line) == RedSpan <==> StartsWith(line, "-") && !StartsWith(line, "---")
    ensures StyleOf(line) == GreenSpan <==> StartsWith(line, "+") && !StartsWith(line, "+++")
    ensures StyleOf(line) == PurpleItalic <==> StartsWith(line, "@@") && EndsWith(line, "@@")
    ensures StyleOf(line) == Plain <==>
              !StartsWith(line, "-") && !StartsWith(line, "+") && !(StartsWith(line, "@@") && EndsWith(line, "@@"))
  {
    if StartsWith(line, "---") || StartsWith(line, "+++") {
      assert line[0] == line[..3][0];
    }
    if StartsWith(line, "@@") {
      assert line[0] == line[..2][0] == '@';
    }
  }

  /** The markup keeps the line between an opening and a closing tag of the
      same style, and leaves an unmarked line as it is. */
  lemma MarkupKeepsLine(diffLine: string)
    ensures var line := SliceTo(diffLine, -1);
            var m := Markup(diffLine);
            var s := StyleOf(line);
            && StartsWith(m, OpenTag(s))
            && EndsWith(m, CloseTag(s))
            && m[|OpenTag(s)|..|m| - |CloseTag(s)|] == line
            && (s == Plain ==> m == line)
            && (diffLine != [] ==> |line| == |diffLine| - 1)
  {
    var line := SliceTo(diffLine, -1);
    var s := StyleOf(line);
    var m := Markup(diffLine);
    assert m == OpenTag(s) + line + CloseTag(s);
    assert m[..|OpenTag(s)|] == OpenTag(s);
    assert m[|m| - |CloseTag(s)|..] == CloseTag(s);
  }

  /** `diff_html(f, ...)` for the lines of the unified diff: the printed
      lines, inside a `<pre>` element. */
  method DiffHtml(diff: seq<string>) returns (out: seq<string>)
    ensures |out| == |diff| + 2
    ensures out[0] == "<pre>" && out[|out| - 1] == "</pre>"
    ensures forall i :: 0 <= i < |diff| ==> out[i + 1] == Markup(diff[i])
  {
    out := ["<pre>"];
    for i := 0 to |diff|
      invariant |out| == i + 1 && out[0] == "<pre>"
      invariant forall k :: 0 <= k < i ==> out[k + 1] == Markup(diff[k])
    {
      var line := SliceTo(diff[i], -1);
      var style := StyleOf(line);
      out := out + [OpenTag(style) + line + CloseTag(style)];
    }
    out := out + ["</pre>"];
  }
}
