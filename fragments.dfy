/** Harvesting fragments (cpqa/tests.py, Fragment, ScalarFragment and
    ArrayFragment): small state machines fed one output line at a time, then
    digested into numbers. */
module Fragments {
  import opened Wrappers
  import opened PyStr
  import Host

  /** The text recorded for a caught exception (`traceback.format_exc()`). */
  function Traceback(e: PyError): (m: string)
    ensures |m| > 0
  {
    "Traceback (most recent call last): " +
    match e
    case TypeError(msg) => "TypeError: " + msg
    case ValueError(msg) => "ValueError: " + msg
    case KeyError(key) => "KeyError: " + key
    case IndexError => "IndexError: list index out of range"
    case AttributeError(attr) => "AttributeError: " + attr
    case AssertionError => "AssertionError"
    case IOError(msg) => "IOError: " + msg
    case RuntimeError(msg) => "RuntimeError: " + msg
    case ZeroDivisionError => "ZeroDivisionError: float division by zero"
    case StopIteration => "StopIteration"
    case ReError(pattern) => "error: bad pattern " + pattern
    case SystemExit(code) => "SystemExit"
  }

  /** `float(line.split()[column])` */
  function ColumnValue(env: Host.Env, line: string, column: int): (r: Result<real>)
    ensures r.Ok? <==> Index(Words(line), column).Some? &&
                       env.parseFloat(Index(Words(line), column).value).Some?
  {
    match Index(Words(line), column)
    case None => Err(IndexError)
    case Some(word) =>
      match env.parseFloat(word)
      case None => Err(ValueError("could not convert string to float: " + word))
      case Some(x) => Ok(x)
  }

  // ---------------------------------------------------------------------------
  // ScalarFragment

  /** One line fed to a scalar fragment: a line the regex finds replaces
      whatever was kept. */
  function ScalarStep(env: Host.Env, regex: string, kept: seq<string>, line: string): seq<string> {
    if env.search(regex, line) then [line] else kept
  }

  /** Feeding the lines ls, in order, starting from kept. */
  function ScalarFeedAll(env: Host.Env, regex: string, kept: seq<string>, ls: seq<string>): seq<string>
    decreases |ls|
  {
    if ls == [] then kept
    else ScalarStep(env, regex, ScalarFeedAll(env, regex, kept, ls[..|ls| - 1]), ls[|ls| - 1])
  }

  /** Index of the last line of ls that the regex finds, or -1. */
  function LastMatch(env: Host.Env, regex: string, ls: seq<string>): (i: int)
    ensures -1 <= i < |ls|
    ensures i >= 0 ==> env.search(regex, ls[i])
    ensures forall k :: i < k < |ls| ==> !env.search(regex, ls[k])
  {
    if ls == [] then -1
    else if env.search(regex, ls[|ls| - 1]) then |ls| - 1
    else LastMatch(env, regex, ls[..|ls| - 1])
  }

  /** A scalar fragment keeps at most one line: the most recent matching line,
      or what it held before when no line matches. */
  lemma {:induction false} ScalarKeepsLastMatch(env: Host.Env, regex: string, kept: seq<string>, ls: seq<string>)
    ensures var i := LastMatch(env, regex, ls);
            ScalarFeedAll(env, regex, kept, ls) == if i >= 0 then [ls[i]] else kept
    decreases |ls|
  {
    if ls != [] {
      var init := ls[..|ls| - 1];
      ScalarKeepsLastMatch(env, regex, kept, init);
      if !env.search(regex, ls[|ls| - 1]) {
        var i := LastMatch(env, regex, init);
        if i >= 0 { assert init[i] == ls[i]; }
      }
    }
  }

  /** Feeding the same line twice changes nothing more than feeding it once. */
  lemma ScalarStepIdempotent(env: Host.Env, regex: string, kept: seq<string>, line: string)
    ensures ScalarStep(env, regex, ScalarStep(env, regex, kept, line), line) ==
            ScalarStep(env, regex, kept, line)
  {
  }

  /** The outcome of `ScalarFragment.digest`: the new value and the exception
      raised, if any.  Only a single kept line is parsed. */
  datatype Digested = Digested(value: Option<real>, error: Option<PyError>)

  function ScalarDigest(env: Host.Env, lines: seq<string>, column: int, old_value: Option<real>): (d: Digested)
    ensures |lines| != 1 ==> d == Digested(old_value, None)
    ensures d.error.None? && |lines| == 1 ==>
              ColumnValue(env, lines[0], column).Ok? && d.value == Some(ColumnValue(env, lines[0], column).value)
    ensures d.error.Some? ==> d.value == old_value && |lines| == 1 && ColumnValue(env, lines[0], column).Err?
  {
    if |lines| == 1 then
      match ColumnValue(env, lines[0], column)
      case Ok(x) => Digested(Some(x), None)
      case Err(e) => Digested(old_value, Some(e))
    else Digested(old_value, None)
  }

  class ScalarFragment {
    const env: Host.Env
    const regex: string
    const column: int
    var lines: seq<string>
    var value: Option<real>

    constructor (env: Host.Env, regex: string, column: int)
      ensures this.env == env && this.regex == regex && this.column == column
      ensures lines == [] && value == None
    {
      this.env := env;
      this.regex := regex;
      this.column := column;
      lines := [];
      value := None;
    }

    method Feed(line: string)
      modifies this`lines
      ensures lines == ScalarStep(env, regex, old(lines), line)
      ensures |lines| <= 1 || lines == old(lines)
    {
      if env.search(regex, line) {
        lines := [line];
      }
    }

    method Digest() returns (error: Option<PyError>)
      modifies this`value
      ensures Digested(value, error) == ScalarDigest(env, lines, column, old(value))
    {
      error := None;
      if |lines| == 1 {
        var r := ColumnValue(env, lines[0], column);
        match r {
          case Ok(x) => value := Some(x);
          case Err(e) => error := Some(e);
        }
      }
    }

    predicate Complete()
      reads this
    {
      value.Some?
    }
  }

  // ---------------------------------------------------------------------------
  // ArrayFragment

  /** Idle (status 0) or collecting (status 1), the number of lines still to
      skip, and the lines collected. */
  datatype ArrayState = ArrayState(collecting: bool, toskip: int, lines: seq<string>)

  function ArrayStep(env: Host.Env, start: string, stop: string, skip: int,
                     s: ArrayState, line: string): ArrayState
  {
    if !s.collecting && env.search(start, line) then ArrayState(true, skip, [])
    else if s.collecting then
      if env.search(stop, line) then s.(collecting := false)
      else if s.toskip > 0 then s.(toskip := s.toskip - 1)
      else s.(lines := s.lines + [line])
    else s
  }

  function ArrayFeedAll(env: Host.Env, start: string, stop: string, skip: int,
                        s: ArrayState, ls: seq<string>): ArrayState
    decreases |ls|
  {
    if ls == [] then s
    else ArrayStep(env, start, stop, skip, ArrayFeedAll(env, start, stop, skip, s, ls[..|ls| - 1]), ls[|ls| - 1])
  }

  function Max0(k: int): nat {
    if k > 0 then k else 0
  }

  /** While idle, lines without a start match leave the whole state as it is,
      collected lines included. */
  lemma {:induction false} IdleIgnoresLines(env: Host.Env, start: string, stop: string, skip: int,
                                            s: ArrayState, ls: seq<string>)
    requires !s.collecting
    requires forall k :: 0 <= k < |ls| ==> !env.search(start, ls[k])
    ensures ArrayFeedAll(env, start, stop, skip, s, ls) == s
    decreases |ls|
  {
    if ls != [] {
      IdleIgnoresLines(env, start, stop, skip, s, ls[..|ls| - 1]);
    }
  }

  /** While collecting, and as long as no line matches the stop regex, the
      first `toskip` lines are dropped and every later one is appended. */
  lemma {:induction false} CollectingAppends(env: Host.Env, start: string, stop: string, skip: int,
                                             s: ArrayState, body: seq<string>)
    requires s.collecting
    requires forall k :: 0 <= k < |body| ==> !env.search(stop, body[k])
    ensures var t := ArrayFeedAll(env, start, stop, skip, s, body);
            var dropped := if Max0(s.toskip) < |body| then Max0(s.toskip) else |body|;
            t.collecting &&
            t.lines == s.lines + body[dropped..] &&
            Max0(t.toskip) == Max0(s.toskip) - dropped
    decreases |body|
  {
    if body != [] {
      var init := body[..|body| - 1];
      CollectingAppends(env, start, stop, skip, s, init);
      var d := if Max0(s.toskip) < |init| then Max0(s.toskip) else |init|;
      assert body[d..] == init[d..] + [body[|body| - 1]];
    }
  }

  /** A block delimited by a start line and a stop line, fed to an idle
      fragment, leaves it idle holding exactly the block's lines after the
      first `skip` of them. */
  lemma BlockIsCollected(env: Host.Env, start: string, stop: string, skip: nat,
                         s: ArrayState, first: string, body: seq<string>, last: string)
    requires !s.collecting && env.search(start, first) && env.search(stop, last)
    requires forall k :: 0 <= k < |body| ==> !env.search(stop, body[k])
    ensures var t := ArrayFeedAll(env, start, stop, skip, s, [first] + body + [last]);
            !t.collecting && t.lines == (if skip < |body| then body[skip..] else [])
  {
    var s1 := ArrayStep(env, start, stop, skip, s, first);
    assert ArrayFeedAll(env, start, stop, skip, s, [first]) == s1 by {
      assert [first][..0] == [];
    }
    FeedAllAppend(env, start, stop, skip, s, [first], body);
    CollectingAppends(env, start, stop, skip, s1, body);
    var ls := [first] + body + [last];
    assert ls[..|ls| - 1] == [first] + body;
  }

  lemma {:induction false} FeedAllAppend(env: Host.Env, start: string, stop: string, skip: int,
                                         s: ArrayState, a: seq<string>, b: seq<string>)
    ensures ArrayFeedAll(env, start, stop, skip, s, a + b) ==
            ArrayFeedAll(env, start, stop, skip, ArrayFeedAll(env, start, stop, skip, s, a), b)
    decreases |b|
  {
    if b == [] {
      assert a + b == a;
    } else {
      assert (a + b)[..|a + b| - 1] == a + b[..|b| - 1];
      FeedAllAppend(env, start, stop, skip, s, a, b[..|b| - 1]);
    }
  }

  /** `ArrayFragment.digest` on the collected lines: None when nothing was
      collected, otherwise one row per line holding the requested columns. */
  function ArrayRows(env: Host.Env, lines: seq<string>, columns: seq<int>): Result<seq<seq<real>>>
    decreases |lines|
  {
    if lines == [] then Ok([])
    else
      match ArrayRows(env, lines[..|lines| - 1], columns)
      case Err(e) => Err(e)
      case Ok(rows) =>
        match ArrayRow(env, lines[|lines| - 1], columns)
        case Err(e) => Err(e)
        case Ok(row) => Ok(rows + [row])
  }

  function ArrayRow(env: Host.Env, line: string, columns: seq<int>): Result<seq<real>>
    decreases |columns|
  {
    if columns == [] then Ok([])
    else
      match ArrayRow(env, line, columns[..|columns| - 1])
      case Err(e) => Err(e)
      case Ok(row) =>
        match ColumnValue(env, line, columns[|columns| - 1])
        case Err(e) => Err(e)
        case Ok(x) => Ok(row + [x])
  }

  /** A parsed row holds, in order, the value of every requested column. */
  lemma {:induction false} ArrayRowValues(env: Host.Env, line: string, columns: seq<int>)
    ensures var r := ArrayRow(env, line, columns);
            r.Ok? ==> |r.value| == |columns| &&
                      forall j :: 0 <= j < |columns| ==> ColumnValue(env, line, columns[j]) == Ok(r.value[j])
    decreases |columns|
  {
    if columns != [] {
      ArrayRowValues(env, line, columns[..|columns| - 1]);
    }
  }

  /** Parsed rows form a table: one row per line, one value per column. */
  lemma {:induction false} ArrayRowsShape(env: Host.Env, lines: seq<string>, columns: seq<int>)
    ensures var r := ArrayRows(env, lines, columns);
            r.Ok? ==> |r.value| == |lines| &&
                      forall i :: 0 <= i < |lines| ==> |r.value[i]| == |columns|
    decreases |lines|
  {
    if lines != [] {
      ArrayRowsShape(env, lines[..|lines| - 1], columns);
      ArrayRowValues(env, lines[|lines| - 1], columns);
    }
  }

  class ArrayFragment {
    const env: Host.Env
    const regexStart: string
    const regexStop: string
    const columns: seq<int>
    const skip: int
    var collecting: bool
    var toskip: int
    var lines: seq<string>
    var data: Option<seq<seq<real>>>

    constructor (env: Host.Env, regexStart: string, regexStop: string, columns: seq<int>, skip: int)
      ensures this.env == env && this.regexStart == regexStart && this.regexStop == regexStop
      ensures this.columns == columns && this.skip == skip
      ensures !collecting && lines == [] && data == None
    {
      this.env := env;
      this.regexStart := regexStart;
      this.regexStop := regexStop;
      this.columns := columns;
      this.skip := skip;
      collecting := false;
      toskip := 0;
      lines := [];
      data := None;
    }

    function State(): ArrayState
      reads this
    {
      ArrayState(collecting, toskip, lines)
    }

    method Feed(line: string)
      modifies this`collecting, this`toskip, this`lines
      ensures State() == ArrayStep(env, regexStart, regexStop, skip, old(State()), line)
      ensures !old(collecting) ==> lines == old(lines) || lines == []
    {
      if !collecting && env.search(regexStart, line) {
        collecting := true;
        toskip := skip;
        lines := [];
      } else if collecting {
        if env.search(regexStop, line) {
          collecting := false;
        } else if toskip > 0 {
          toskip := toskip - 1;
        } else {
          lines := lines + [line];
        }
      }
    }

    /** Parses the collected lines row by row; on an exception `data` keeps
        its previous value. */
    method Digest() returns (error: Option<PyError>)
      modifies this`data
      ensures lines == [] ==> data == None && error == None
      ensures lines != [] && ArrayRows(env, lines, columns).Ok? ==>
                data == Some(ArrayRows(env, lines, columns).value) && error == None
      ensures lines != [] && ArrayRows(env, lines, columns).Err? ==>
                data == old(data) && error == Some(ArrayRows(env, lines, columns).error)
    {
      error := None;
      if |lines| > 0 {
        var rows := ParseRows(env, lines, columns);
        match rows {
          case Err(e) => error := Some(e);
          case Ok(v) => data := Some(v);
        }
      } else {
        data := None;
      }
    }
  }

  /** The outer loop of `ArrayFragment.digest`: row by row, stopped by the
      first failing parse. */
  method ParseRows(env: Host.Env, lines: seq<string>, columns: seq<int>) returns (r: Result<seq<seq<real>>>)
    ensures r == ArrayRows(env, lines, columns)
  {
    var rows: seq<seq<real>> := [];
    var i := 0;
    while i < |lines|
      invariant 0 <= i <= |lines|
      invariant ArrayRows(env, lines[..i], columns) == Ok(rows)
    {
      var row := ParseRow(env, lines[i], columns);
      if row.Err? {
        RowsErrorExtends(env, lines, columns, i + 1);
        return Err(row.error);
      }
      assert lines[..i + 1][..i] == lines[..i];
      rows := rows + [row.value];
      i := i + 1;
    }
    assert lines[..i] == lines;
    r := Ok(rows);
  }

  /** The inner loop of `ArrayFragment.digest`: one row, column by column,
      stopped by the first failing parse. */
  method ParseRow(env: Host.Env, line: string, columns: seq<int>) returns (r: Result<seq<real>>)
    ensures r == ArrayRow(env, line, columns)
  {
    var row: seq<real> := [];
    var j := 0;
    while j < |columns|
      invariant 0 <= j <= |columns|
      invariant ArrayRow(env, line, columns[..j]) == Ok(row)
    {
      var x := ColumnValue(env, line, columns[j]);
      if x.Err? {
        assert columns[..j + 1][..j] == columns[..j];
        RowErrorExtends(env, line, columns, j + 1);
        return Err(x.error);
      }
      assert columns[..j + 1][..j] == columns[..j];
      row := row + [x.value];
      j := j + 1;
    }
    assert columns[..j] == columns;
    r := Ok(row);
  }

  lemma {:induction false} RowErrorExtends(env: Host.Env, line: string, columns: seq<int>, n: nat)
    requires 0 < n <= |columns|
    requires ArrayRow(env, line, columns[..n - 1]).Ok?
    requires ColumnValue(env, line, columns[n - 1]).Err?
    ensures ArrayRow(env, line, columns) == Err(ColumnValue(env, line, columns[n - 1]).error)
    decreases |columns| - n
  {
    if n < |columns| {
      assert columns[..|columns| - 1][..n - 1] == columns[..n - 1];
      RowErrorExtends(env, line, columns[..|columns| - 1], n);
    } else {
      assert columns[..n] == columns;
    }
  }

  lemma {:induction false} RowsErrorExtends(env: Host.Env, lines: seq<string>, columns: seq<int>, n: nat)
    requires 0 < n <= |lines|
    requires ArrayRows(env, lines[..n - 1], columns).Ok?
    requires ArrayRow(env, lines[n - 1], columns).Err?
    ensures ArrayRows(env, lines, columns) == Err(ArrayRow(env, lines[n - 1], columns).error)
    decreases |lines| - n
  {
    if n < |lines| {
      assert lines[..|lines| - 1][..n - 1] == lines[..n - 1];
      RowsErrorExtends(env, lines[..|lines| - 1], columns, n);
    } else {
      assert lines[..n] == lines;
    }
  }
}
