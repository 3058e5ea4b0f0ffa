/** `tail` of cpqa/shell.py: the last lines of a file, read backwards in
    chunks of at most 1024 characters until enough newlines have been seen.
    The file's content is a parameter; opening, seeking and reading it are
    slices of that content. */
module Shell {
  import opened PyStr

  const ChunkSize: nat := 1024

  /** Reading the chunk before a suffix extends the suffix and its count
      of newlines. */
  lemma ReadStep(content: string, i: nat, j: nat)
    requires i <= j <= |content|
    ensures content[i..j] + content[j..] == content[i..]
    ensures CountChar(content[i..], '\n') == CountChar(content[i..j], '\n') + CountChar(content[j..], '\n')
  {
    assert content[i..j] + content[j..] == content[i..];
    CountCharAppend(content[i..j], content[j..], '\n');
  }

  /** A split starts with the piece before the first separator. */
  lemma SplitOnFirst(s: string, i: nat, sep: char)
    requires i < |s| && s[i] == sep && sep !in s[..i]
    ensures SplitOn(s, sep) == [s[..i]] + SplitOn(s[i + 1..], sep)
  {
    FindAt(s, sep, i);
  }

  /** Splitting around one separator splits both sides independently. */
  lemma {:induction false} SplitOnAround(u: string, v: string, sep: char)
    ensures SplitOn(u + [sep] + v, sep) == SplitOn(u, sep) + SplitOn(v, sep)
    decreases |u|
  {
    var s := u + [sep] + v;
    var i := Find(u, sep);
    if i < 0 {
      assert s[..|u|] == u && s[|u| + 1..] == v;
      SplitOnFirst(s, |u|, sep);
      assert SplitOn(u, sep) == [u];
    } else {
      var w := u[i + 1..];
      assert s[..i] == u[..i] && s[i + 1..] == w + [sep] + v;
      SplitOnFirst(s, i, sep);
      SplitOnFirst(u, i, sep);
      SplitOnAround(w, v, sep);
      AppendAssoc([u[..i]], SplitOn(w, sep), SplitOn(v, sep));
    }
  }

  lemma LastNAppend<T>(p: seq<T>, q: seq<T>, n: nat)
    requires 0 < n <= |q|
    ensures LastN(p + q, n) == LastN(q, n)
  {
    assert (p + q)[|p + q| - n..] == q[|q| - n..];
  }

  /** The last n pieces of a split depend only on a suffix holding at least
      n separators. */
  lemma LastPieces(content: string, data: string, n: nat, sep: char)
    requires EndsWith(content, data) && n > 0 && CountChar(data, sep) >= n
    ensures LastN(SplitOn(data, sep), n) == LastN(SplitOn(content, sep), n)
  {
    CountCharZero(data, sep);
    var i := Find(data, sep);
    var a, b := data[..i], data[i + 1..];
    var x := content[..|content| - |data|];
    assert data == (a + [sep]) + b;
    assert content == x + data;
    AppendAssoc(x, a + [sep], b);
    AppendAssoc(x, a, [sep]);
    SplitOnAround(a, b, sep);
    SplitOnAround(x + a, b, sep);
    CountAtFirst(data, sep, i);
    LastNAppend(SplitOn(a, sep), SplitOn(b, sep), n);
    LastNAppend(SplitOn(x + a, sep), SplitOn(b, sep), n);
  }

  /** The loop of `tail`: the suffix of the content read backwards in
      chunks until it holds more than `lines` newlines or is everything. */
  method ReadBack(content: string, lines: int) returns (data: string)
    ensures EndsWith(content, data)
    ensures data == content || CountChar(data, '\n') >= lines + 1
    ensures lines < 0 ==> data == []
  {
    var size := |content|;
    var linesFound := 0;
    data := [];
    while lines + 1 > linesFound && size > |data|
      invariant |data| <= size && data == content[size - |data|..]
      invariant linesFound == CountChar(data, '\n')
      invariant lines < 0 ==> data == []
      decreases size - |data|
    {
      var readSize := if ChunkSize < size - |data| then ChunkSize else size - |data|;
      ReadStep(content, size - readSize - |data|, size - |data|);
      var newData := content[size - readSize - |data|..size - |data|];
      data := newData + data;
      linesFound := linesFound + CountChar(newData, '\n');
    }
  }

  /** `tail(fn, lines)`: for a positive count, the last `lines` pieces of
      the content split on newlines, and nothing for an empty file. */
  method Tail(content: string, lines: int) returns (r: seq<string>)
    ensures lines < 0 ==> r == []
    ensures lines > 0 ==> r == if content == [] then [] else LastN(SplitOn(content, '\n'), lines)
    ensures lines > 0 ==> |r| <= lines
  {
    var data := ReadBack(content, lines);
    if |data| == 0 {
      r := [];
    } else {
      r := SliceFrom(SplitOn(data, '\n'), -lines);
      if lines > 0 && data != content {
        LastPieces(content, data, lines, '\n');
      }
    }
  }
}
