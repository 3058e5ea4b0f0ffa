/** The Python built-ins on strings and lists that the source relies on:
    indexing and slicing with negative positions, str.strip, str.split with
    and without a separator, str.find, str.startswith/endswith, str.lower,
    str.upper, str.count and str.join.  Only the ASCII letters are case
    mapped. */
module PyStr {
  import opened Wrappers

  // ---------------------------------------------------------------------------
  // Indexing and slicing

  /** Python's normalisation of a slice bound: negative bounds count from the
      end, then the bound is clamped into [0, n]. */
  function SliceBound(i: int, n: nat): (k: nat)
    ensures k <= n
    ensures 0 <= i <= n ==> k == i
    ensures i < 0 && -i <= n ==> k == n + i
    ensures i > n ==> k == n
    ensures i < 0 && -i > n ==> k == 0
  {
    if i < 0 then (if i + n < 0 then 0 else i + n)
    else if i > n then n
    else i
  }

  /** `s[a:b]` */
  function Slice<T>(s: seq<T>, a: int, b: int): (r: seq<T>)
    ensures |r| <= |s|
    ensures SliceBound(a, |s|) <= SliceBound(b, |s|) ==>
              r == s[SliceBound(a, |s|)..SliceBound(b, |s|)]
    ensures SliceBound(a, |s|) > SliceBound(b, |s|) ==> r == []
  {
    var i, j := SliceBound(a, |s|), SliceBound(b, |s|);
    if i <= j then s[i..j] else []
  }

  /** `s[:b]` */
  function SliceTo<T>(s: seq<T>, b: int): seq<T> {
    Slice(s, 0, b)
  }

  /** `s[a:]` */
  function SliceFrom<T>(s: seq<T>, a: int): seq<T> {
    Slice(s, a, |s|)
  }

  /** `s[i]`, or None where Python raises IndexError. */
  function Index<T>(s: seq<T>, i: int): (r: Option<T>)
    ensures r.Some? <==> -|s| <= i < |s|
    ensures 0 <= i < |s| ==> r == Some(s[i])
    ensures -|s| <= i < 0 ==> r == Some(s[|s| + i])
  {
    if 0 <= i < |s| then Some(s[i])
    else if -|s| <= i < 0 then Some(s[|s| + i])
    else None
  }

  /** `s[-n:]` for a count n: the last n elements, and for n == 0 the whole
      sequence (since -0 == 0). */
  function LastN<T>(s: seq<T>, n: nat): (r: seq<T>)
    ensures n == 0 ==> r == s
    ensures 0 < n <= |s| ==> r == s[|s| - n..]
    ensures n >= |s| ==> r == s
  {
    SliceFrom(s, -(n as int))
  }

  lemma AppendAssoc<T>(a: seq<T>, b: seq<T>, c: seq<T>)
    ensures a + b + c == a + (b + c)
  {
  }

  /** No element satisfies p (`not any(p(x) for x in s)`). */
  predicate NoneOf<T>(p: T -> bool, s: seq<T>)
    decreases |s|
  {
    s == [] || (NoneOf(p, s[..|s| - 1]) && !p(s[|s| - 1]))
  }

  lemma {:induction false} NoneOfAll<T>(p: T -> bool, s: seq<T>)
    ensures NoneOf(p, s) <==> forall i :: 0 <= i < |s| ==> !p(s[i])
    decreases |s|
  {
    if s != [] {
      NoneOfAll(p, s[..|s| - 1]);
      assert forall i :: 0 <= i < |s| - 1 ==> s[..|s| - 1][i] == s[i];
    }
  }

  /** `[x for x in s if keep(x)]` */
  function Filter<T>(keep: T -> bool, s: seq<T>): (r: seq<T>)
    ensures |r| <= |s|
    decreases |s|
  {
    if s == [] then []
    else Filter(keep, s[..|s| - 1]) + (if keep(s[|s| - 1]) then [s[|s| - 1]] else [])
  }

  /** A filter keeps exactly the elements that pass. */
  lemma {:induction false} FilterMembers<T>(keep: T -> bool, s: seq<T>)
    ensures forall x :: x in Filter(keep, s) <==> x in s && keep(x)
    decreases |s|
  {
    if s != [] {
      FilterMembers(keep, s[..|s| - 1]);
      assert s == s[..|s| - 1] + [s[|s| - 1]];
    }
  }

  /** Filtering a concatenation filters each part: the kept elements stay in
      their order. */
  lemma {:induction false} FilterAppend<T>(keep: T -> bool, a: seq<T>, b: seq<T>)
    ensures Filter(keep, a + b) == Filter(keep, a) + Filter(keep, b)
    decreases |b|
  {
    if b == [] {
      assert a + b == a;
    } else {
      var b0 := b[..|b| - 1];
      assert (a + b)[..|a + b| - 1] == a + b0;
      FilterAppend(keep, a, b0);
      AppendAssoc(Filter(keep, a), Filter(keep, b0), if keep(b[|b| - 1]) then [b[|b| - 1]] else []);
    }
  }

  /** A filter keeps no element more often than it occurs. */
  lemma {:induction false} FilterMultiset<T>(keep: T -> bool, s: seq<T>)
    ensures multiset(Filter(keep, s)) <= multiset(s)
    decreases |s|
  {
    if s != [] {
      var init := s[..|s| - 1];
      FilterMultiset(keep, init);
      assert s == init + [s[|s| - 1]];
    }
  }

  // ---------------------------------------------------------------------------
  // Prefixes, suffixes, searching

  predicate StartsWith(s: string, p: string) {
    |p| <= |s| && s[..|p|] == p
  }

  predicate EndsWith(s: string, p: string) {
    |p| <= |s| && s[|s| - |p|..] == p
  }

  /** Number of occurrences of c in s (`s.count(c)` for a one-character c). */
  function CountChar(s: string, c: char): (n: nat)
    ensures n <= |s|
  {
    if s == [] then 0 else (if s[0] == c then 1 else 0) + CountChar(s[1..], c)
  }

  /** A character is counted zero times iff it does not occur. */
  lemma {:induction false} CountCharZero(s: string, c: char)
    ensures CountChar(s, c) == 0 <==> c !in s
  {
    if s != [] {
      CountCharZero(s[1..], c);
      assert s == [s[0]] + s[1..];
    }
  }

  lemma {:induction false} CountCharAppend(a: string, b: string, c: char)
    ensures CountChar(a + b, c) == CountChar(a, c) + CountChar(b, c)
  {
    if a == [] {
      assert a + b == b;
    } else {
      assert (a + b)[1..] == a[1..] + b;
      CountCharAppend(a[1..], b, c);
    }
  }

  /** `s.find(c)`: the first index of c, or -1. */
  function Find(s: string, c: char): (i: int)
    ensures -1 <= i < |s|
    ensures i == -1 <==> c !in s
    ensures i >= 0 ==> s[i] == c && c !in s[..i]
  {
    if s == [] then -1
    else if s[0] == c then 0
    else
      var k := Find(s[1..], c);
      assert s[1..][..if k < 0 then 0 else k] == s[1..if k < 0 then 1 else k + 1];
      if k < 0 then -1 else k + 1
  }

  // ---------------------------------------------------------------------------
  // Whitespace

  /** The characters Python's str.strip() and str.split() treat as space. */
  predicate IsSpace(c: char) {
    c == ' ' || c == '\t' || c == '\n' || c == '\r' || c == '\U{0B}' || c == '\U{0C}'
  }

  predicate NoSpace(s: string) {
    forall i :: 0 <= i < |s| ==> !IsSpace(s[i])
  }

  /** Length of the longest all-space prefix. */
  function LeadingSpaces(s: string): (n: nat)
    ensures n <= |s|
    ensures n == |s| || !IsSpace(s[n])
  {
    if s != [] && IsSpace(s[0]) then 1 + LeadingSpaces(s[1..]) else 0
  }

  /** The leading spaces are spaces, and the character after them is not. */
  lemma {:induction false} LeadingSpacesSpan(s: string)
    ensures forall i :: 0 <= i < LeadingSpaces(s) ==> IsSpace(s[i])
    ensures LeadingSpaces(s) == |s| || !IsSpace(s[LeadingSpaces(s)])
  {
    if s != [] && IsSpace(s[0]) {
      LeadingSpacesSpan(s[1..]);
    }
  }

  /** Length of the longest all-space suffix. */
  function TrailingSpaces(s: string): (n: nat)
    ensures n <= |s|
  {
    if s != [] && IsSpace(s[|s| - 1]) then 1 + TrailingSpaces(s[..|s| - 1]) else 0
  }

  /** The trailing spaces are spaces, and the character before them is not. */
  lemma {:induction false} TrailingSpacesSpan(s: string)
    ensures forall i :: |s| - TrailingSpaces(s) <= i < |s| ==> IsSpace(s[i])
    ensures TrailingSpaces(s) == |s| || !IsSpace(s[|s| - TrailingSpaces(s) - 1])
  {
    if s != [] && IsSpace(s[|s| - 1]) {
      TrailingSpacesSpan(s[..|s| - 1]);
    }
  }

  /** Length of the longest prefix free of spaces. */
  function LeadingWord(s: string): (n: nat)
    ensures n <= |s|
  {
    if s != [] && !IsSpace(s[0]) then 1 + LeadingWord(s[1..]) else 0
  }

  /** The leading word holds no space, and what follows it starts with one. */
  lemma {:induction false} LeadingWordSpan(s: string)
    ensures NoSpace(s[..LeadingWord(s)])
    ensures LeadingWord(s) == |s| || IsSpace(s[LeadingWord(s)])
  {
    if s != [] && !IsSpace(s[0]) {
      LeadingWordSpan(s[1..]);
      assert s[..LeadingWord(s)] == [s[0]] + s[1..][..LeadingWord(s[1..])];
    }
  }

  /** `s.strip()` */
  function Strip(s: string): string {
    var i := LeadingSpaces(s);
    s[i..|s| - TrailingSpaces(s[i..])]
  }

  /** strip() removes exactly the spaces at both ends. */
  lemma StripTrims(s: string)
    ensures var r := Strip(s);
            r == [] || (!IsSpace(r[0]) && !IsSpace(r[|r| - 1]))
    ensures exists i, j :: 0 <= i <= j <= |s| && Strip(s) == s[i..j] &&
                           (forall k :: 0 <= k < i ==> IsSpace(s[k])) &&
                           (forall k :: j <= k < |s| ==> IsSpace(s[k]))
  {
    var i := LeadingSpaces(s);
    var t := s[i..];
    var j := |s| - TrailingSpaces(t);
    LeadingSpacesSpan(s);
    TrailingSpacesSpan(t);
    assert s[i..j] == t[..|t| - TrailingSpaces(t)];
  }

  /** `s.split()`: the maximal runs of non-space characters, in order. */
  function Words(s: string): (r: seq<string>)
    decreases |s|
  {
    var t := s[LeadingSpaces(s)..];
    if t == [] then []
    else
      var n := LeadingWord(t);
      assert !IsSpace(t[0]) && n > 0;
      [t[..n]] + Words(t[n..])
  }

  /** Every word is non-empty and holds no space. */
  lemma {:induction false} WordsAreWords(s: string)
    ensures forall k :: 0 <= k < |Words(s)| ==> Words(s)[k] != [] && NoSpace(Words(s)[k])
    decreases |s|
  {
    var t := s[LeadingSpaces(s)..];
    if t != [] {
      LeadingSpacesSpan(s);
      LeadingWordSpan(t);
      WordsAreWords(t[LeadingWord(t)..]);
    }
  }

  /** The characters of s that are not spaces. */
  function NonSpaces(s: string): string {
    if s == [] then [] else (if IsSpace(s[0]) then [] else [s[0]]) + NonSpaces(s[1..])
  }

  function Concat(ws: seq<string>): string {
    if ws == [] then [] else ws[0] + Concat(ws[1..])
  }

  lemma {:induction false} NonSpacesAppend(a: string, b: string)
    ensures NonSpaces(a + b) == NonSpaces(a) + NonSpaces(b)
  {
    if a == [] {
      assert a + b == b;
    } else {
      assert (a + b)[1..] == a[1..] + b;
      NonSpacesAppend(a[1..], b);
    }
  }

  lemma {:induction false} NonSpacesOfWord(s: string)
    requires NoSpace(s)
    ensures NonSpaces(s) == s
  {
    if s != [] { NonSpacesOfWord(s[1..]); }
  }

  /** The words of s, glued together, are exactly the non-space characters of
      s: `split()` loses nothing but whitespace. */
  lemma {:induction false} WordsKeepNonSpaces(s: string)
    ensures Concat(Words(s)) == NonSpaces(s)
    decreases |s|
  {
    var i := LeadingSpaces(s);
    var t := s[i..];
    LeadingSpacesSpan(s);
    SpacesThen(s, i);
    if t != [] {
      var n := LeadingWord(t);
      LeadingWordSpan(t);
      WordThen(t, n);
      WordsKeepNonSpaces(t[n..]);
    }
  }

  /** Leading spaces contribute no non-space characters. */
  lemma {:induction false} SpacesThen(s: string, i: nat)
    requires i <= |s| && forall k :: 0 <= k < i ==> IsSpace(s[k])
    ensures NonSpaces(s) == NonSpaces(s[i..])
  {
    if i > 0 {
      SpacesThen(s[1..], i - 1);
      assert s[1..][i - 1..] == s[i..];
    }
  }

  /** A leading word contributes all its characters. */
  lemma WordThen(t: string, n: nat)
    requires n <= |t| && NoSpace(t[..n])
    ensures NonSpaces(t) == t[..n] + NonSpaces(t[n..])
  {
    assert t == t[..n] + t[n..];
    NonSpacesAppend(t[..n], t[n..]);
    NonSpacesOfWord(t[..n]);
  }

  // ---------------------------------------------------------------------------
  // Splitting on a separator and joining

  /** `s.split(sep)` for a one-character separator. */
  function SplitOn(s: string, sep: char): (r: seq<string>)
    ensures |r| == CountChar(s, sep) + 1
    decreases |s|
  {
    var i := Find(s, sep);
    if i < 0 then CountCharZero(s, sep); [s]
    else
      CountAtFirst(s, sep, i);
      [s[..i]] + SplitOn(s[i + 1..], sep)
  }

  /** No piece of a split holds the separator. */
  lemma {:induction false} SplitOnPieces(s: string, sep: char)
    ensures forall k :: 0 <= k < |SplitOn(s, sep)| ==> sep !in SplitOn(s, sep)[k]
    decreases |s|
  {
    var i := Find(s, sep);
    if i >= 0 {
      SplitOnPieces(s[i + 1..], sep);
    }
  }

  lemma CountAtFirst(s: string, c: char, i: nat)
    requires i < |s| && s[i] == c && c !in s[..i]
    ensures CountChar(s, c) == CountChar(s[i + 1..], c) + 1
  {
    assert s == s[..i] + ([c] + s[i + 1..]);
    CountCharAppend(s[..i], [c] + s[i + 1..], c);
    CountCharAppend([c], s[i + 1..], c);
    CountCharZero(s[..i], c);
  }

  /** `sep.join(parts)` */
  function Join(sep: string, parts: seq<string>): string {
    if parts == [] then []
    else if |parts| == 1 then parts[0]
    else parts[0] + sep + Join(sep, parts[1..])
  }

  /** Joining the pieces of a split with the separator gives back the string. */
  lemma {:induction false} JoinSplitOn(s: string, sep: char)
    ensures Join([sep], SplitOn(s, sep)) == s
    decreases |s|
  {
    var i := Find(s, sep);
    if i >= 0 {
      JoinSplitOn(s[i + 1..], sep);
      assert s == s[..i] + [sep] + s[i + 1..];
    }
  }

  lemma FindAt(s: string, c: char, n: nat)
    requires n < |s| && s[n] == c && c !in s[..n]
    ensures Find(s, c) == n
  {
    assert c in s[..n + 1];
  }

  /** Splitting a join gives back the parts when no part holds the separator. */
  lemma {:induction false} SplitOnJoin(parts: seq<string>, sep: char)
    requires parts != [] && forall k :: 0 <= k < |parts| ==> sep !in parts[k]
    ensures SplitOn(Join([sep], parts), sep) == parts
    decreases |parts|
  {
    if |parts| == 1 {
      assert sep !in parts[0];
    } else {
      var rest := Join([sep], parts[1..]);
      var s := parts[0] + [sep] + rest;
      assert Join([sep], parts) == s;
      var n := |parts[0]|;
      assert s[..n] == parts[0];
      FindAt(s, sep, n);
      assert s[n + 1..] == rest;
      SplitOnJoin(parts[1..], sep);
      assert SplitOn(s, sep) == [parts[0]] + parts[1..];
    }
  }

  // ---------------------------------------------------------------------------
  // Case mapping (ASCII letters only)

  function LowerChar(c: char): char {
    if 'A' <= c <= 'Z' then (c as int + 32) as char else c
  }

  function UpperChar(c: char): char {
    if 'a' <= c <= 'z' then (c as int - 32) as char else c
  }

  /** `s.lower()` */
  function Lower(s: string): (r: string)
    ensures |r| == |s|
  {
    seq(|s|, i requires 0 <= i < |s| => LowerChar(s[i]))
  }

  /** `s.upper()` */
  function Upper(s: string): (r: string)
    ensures |r| == |s|
  {
    seq(|s|, i requires 0 <= i < |s| => UpperChar(s[i]))
  }

  // ---------------------------------------------------------------------------
  // Integer formatting

  function Digit(d: nat): char
    requires d < 10
  {
    ['0', '1', '2', '3', '4', '5', '6', '7', '8', '9'][d]
  }

  /** `'%i' % n` for a non-negative n. */
  function Decimal(n: nat): (r: string)
    ensures |r| > 0
    ensures forall i :: 0 <= i < |r| ==> '0' <= r[i] <= '9'
  {
    if n < 10 then [Digit(n)] else Decimal(n / 10) + [Digit(n % 10)]
  }

  /** The number a string of decimal digits denotes. */
  function DecimalValue(s: string): nat
    requires forall i :: 0 <= i < |s| ==> '0' <= s[i] <= '9'
  {
    if s == [] then 0
    else DecimalValue(s[..|s| - 1]) * 10 + ((s[|s| - 1] as int) - ('0' as int))
  }

  /** The printed number reads back as the number. */
  lemma {:induction false} DecimalRoundTrip(n: nat)
    ensures DecimalValue(Decimal(n)) == n
  {
    if n >= 10 {
      var p := Decimal(n / 10);
      DecimalRoundTrip(n / 10);
      assert (p + [Digit(n % 10)])[..|p|] == p;
    }
  }

  /** `'%i' % n` */
  function IntText(n: int): (r: string)
    ensures |r| > 0
  {
    if n < 0 then "-" + Decimal(-n) else Decimal(n)
  }
}
