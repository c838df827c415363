/** The string operations that the text formats rely on, with the laws used about them. */
module Text {
  import opened Wrappers

  /** White space as Python's `str.isspace` has it. */
  predicate IsSpace(c: char) {
    var n := c as int;
    || 9 <= n <= 13 || 28 <= n <= 32 || n == 0x85 || n == 0xA0 || n == 0x1680 || 0x2000 <= n <= 0x200A
    || n == 0x2028 || n == 0x2029 || n == 0x202F || n == 0x205F || n == 0x3000
  }

  predicate IsDigit(c: char) { '0' <= c <= '9' }

  predicate AllDigits(s: string) {
    forall i | 0 <= i < |s| :: IsDigit(s[i])
  }

  // Decimal numbers

  function DigitChar(d: nat): (c: char)
    requires d < 10
    ensures IsDigit(c) && (c - '0') as int == d
  {
    '0' + d as char
  }

  function Decimal(n: nat): (s: string)
    ensures |s| > 0 && AllDigits(s)
  {
    if n < 10 then [DigitChar(n)] else Decimal(n / 10) + [DigitChar(n % 10)]
  }

  function DigitsValue(s: string): nat
    requires AllDigits(s)
  {
    if s == "" then 0 else 10 * DigitsValue(s[..|s| - 1]) + (s[|s| - 1] - '0') as int
  }

  lemma DecimalValue(n: nat)
    ensures DigitsValue(Decimal(n)) == n
  {
  }

  // Searching

  /** Where `sep` first occurs. */
  function Find(s: string, sep: string): (r: Option<nat>)
    requires |sep| > 0
    ensures r.Some? ==> r.value + |sep| <= |s| && s[r.value..r.value + |sep|] == sep
  {
    if |s| < |sep| then None
    else if s[..|sep|] == sep then Some(0)
    else
      var r := Find(s[1..], sep);
      if r.None? then None
      else
        assert s[1..][r.value..r.value + |sep|] == s[r.value + 1..r.value + 1 + |sep|];
        Some(r.value + 1)
  }

  predicate OccursAt(s: string, sep: string, i: nat) {
    i + |sep| <= |s| && s[i..i + |sep|] == sep
  }

  lemma OccursLater(s: string, sep: string, i: nat, next: nat)
    requires s != "" && next == i + 1
    ensures OccursAt(s, sep, next) <==> OccursAt(s[1..], sep, i)
  {
    if next + |sep| <= |s| {
      assert s[1..][i..i + |sep|] == s[next..next + |sep|];
    }
  }

  lemma FindOn(s: string, sep: string)
    requires |sep| > 0 && s != "" && !OccursAt(s, sep, 0)
    ensures Find(s, sep) == var r := Find(s[1..], sep); if r.None? then None else Some(r.value + 1)
  {
  }

  /** A stretch in which `sep` does not start can be skipped. */
  lemma {:induction false} FindSkips(a: string, b: string, sep: string)
    requires |sep| > 0
    requires forall i | 0 <= i < |a| :: !OccursAt(a + b, sep, i)
    ensures Find(a + b, sep) == var r := Find(b, sep); if r.None? then None else Some(|a| + r.value)
  {
    if a == "" {
      assert a + b == b;
    } else {
      var s, rest := a + b, a[1..];
      assert s[1..] == rest + b;
      assert !OccursAt(s, sep, 0);
      forall i | 0 <= i < |rest| ensures !OccursAt(rest + b, sep, i) {
        OccursLater(s, sep, i, i + 1);
      }
      FindOn(s, sep);
      FindSkips(rest, b, sep);
    }
  }

  lemma FindAbsent(s: string, sep: string)
    requires |sep| > 0
    requires forall i | 0 <= i < |s| :: s[i] != sep[0]
    ensures Find(s, sep) == None
  {
  }

  lemma FindHere(a: string, sep: string)
    requires |sep| > 0
    ensures Find(sep + a, sep) == Some(0)
  {
  }

  /** `s.split(sep)[1]`: what stands between the first two occurrences of `sep`. */
  function SecondPart(s: string, sep: string): Option<string>
    requires |sep| > 0
  {
    var first := Find(s, sep);
    if first.None? then None
    else
      var rest := s[first.value + |sep|..];
      var second := Find(rest, sep);
      Some(if second.None? then rest else rest[..second.value])
  }

  // White space

  function TrimStart(s: string): (r: string)
    ensures |r| <= |s| && r == s[|s| - |r|..]
    ensures r != "" ==> !IsSpace(r[0])
  {
    if s != "" && IsSpace(s[0]) then TrimStart(s[1..]) else s
  }

  function TrimEnd(s: string): (r: string)
    ensures r <= s
    ensures r != "" ==> !IsSpace(r[|r| - 1])
  {
    if s != "" && IsSpace(s[|s| - 1]) then TrimEnd(s[..|s| - 1]) else s
  }

  function Strip(s: string): string {
    TrimEnd(TrimStart(s))
  }

  predicate IsTrimmed(s: string) {
    s != "" ==> !IsSpace(s[0]) && !IsSpace(s[|s| - 1])
  }

  function UntilSpace(s: string): string {
    if s == "" || IsSpace(s[0]) then "" else [s[0]] + UntilSpace(s[1..])
  }

  /** `s.split()[0]`. */
  function FirstWord(s: string): Option<string> {
    var t := TrimStart(s);
    if t == "" then None else Some(UntilSpace(t))
  }

  lemma {:induction false} UntilSpaceStops(word: string, rest: string)
    requires forall i | 0 <= i < |word| :: !IsSpace(word[i])
    requires rest == "" || IsSpace(rest[0])
    ensures UntilSpace(word + rest) == word
  {
    if word == "" {
      assert word + rest == rest;
    } else {
      assert (word + rest)[1..] == word[1..] + rest;
      UntilSpaceStops(word[1..], rest);
      assert word == [word[0]] + word[1..];
    }
  }

  /** `s.rstrip(c)`. */
  function TrimEndOf(s: string, c: char): string {
    if s != "" && s[|s| - 1] == c then TrimEndOf(s[..|s| - 1], c) else s
  }

  // Lines

  function Join(lines: seq<string>): string {
    if lines == [] then ""
    else if |lines| == 1 then lines[0]
    else lines[0] + "\n" + Join(lines[1..])
  }

  /** `s.split("\n")`. */
  function SplitLines(s: string): (lines: seq<string>)
    ensures |lines| > 0
  {
    if s == "" then [""]
    else
      var rest := SplitLines(s[1..]);
      if s[0] == '\n' then [""] + rest else [[s[0]] + rest[0]] + rest[1..]
  }

  lemma {:induction false} SplitAfterLine(line: string, rest: string)
    requires '\n' !in line
    ensures SplitLines(line + "\n" + rest) == [line] + SplitLines(rest)
    ensures SplitLines(line) == [line]
  {
    var s := line + "\n" + rest;
    if line == "" {
      assert s == "\n" + rest && s[1..] == rest;
    } else {
      assert s[1..] == line[1..] + "\n" + rest;
      SplitAfterLine(line[1..], rest);
      assert [line[0]] + line[1..] == line;
    }
  }

  predicate OneLine(s: string) {
    '\n' !in s
  }

  /** Splitting undoes joining for lines without line breaks. */
  lemma {:induction false} SplitJoin(lines: seq<string>)
    requires lines != [] && forall i | 0 <= i < |lines| :: OneLine(lines[i])
    ensures SplitLines(Join(lines)) == lines
  {
    assert OneLine(lines[0]);
    if |lines| == 1 {
      SplitAfterLine(lines[0], "");
    } else {
      SplitJoin(lines[1..]);
      SplitAfterLine(lines[0], Join(lines[1..]));
      assert lines == [lines[0]] + lines[1..];
    }
  }

  lemma SplitLinesPlain(s: string)
    ensures forall i | 0 <= i < |SplitLines(s)| :: OneLine(SplitLines(s)[i])
  {
  }

  // Stable sorting

  function InsertDescending<T>(x: T, xs: seq<T>, key: T -> int): (r: seq<T>)
    ensures multiset(r) == multiset(xs) + multiset{x}
  {
    if xs == [] || key(x) >= key(xs[0]) then [x] + xs
    else
      assert xs == [xs[0]] + xs[1..];
      [xs[0]] + InsertDescending(x, xs[1..], key)
  }

  /** `sorted(xs, key=key, reverse=True)`: descending, equal keys in their old order. */
  function SortDescending<T>(xs: seq<T>, key: T -> int): (r: seq<T>)
    ensures multiset(r) == multiset(xs)
  {
    if xs == [] then []
    else
      assert xs == [xs[0]] + xs[1..];
      InsertDescending(xs[0], SortDescending(xs[1..], key), key)
  }

  ghost predicate Descending<T>(xs: seq<T>, key: T -> int) {
    forall i, j | 0 <= i < j < |xs| :: key(xs[i]) >= key(xs[j])
  }

  lemma {:induction false} InsertKeepsOrder<T>(x: T, xs: seq<T>, key: T -> int)
    requires Descending(xs, key)
    ensures Descending(InsertDescending(x, xs, key), key)
  {
    if xs != [] && key(x) < key(xs[0]) {
      InsertKeepsOrder(x, xs[1..], key);
      var tail := InsertDescending(x, xs[1..], key);
      forall i | 0 <= i < |tail| ensures key(xs[0]) >= key(tail[i]) {
        assert tail[i] in multiset(tail);
        assert tail[i] in multiset(xs[1..]) + multiset{x};
      }
    }
  }

  lemma {:induction false} SortOrders<T>(xs: seq<T>, key: T -> int)
    ensures Descending(SortDescending(xs, key), key)
  {
    if xs != [] {
      SortOrders(xs[1..], key);
      InsertKeepsOrder(xs[0], SortDescending(xs[1..], key), key);
    }
  }

  /** The elements of one key, in their order. */
  function OfKey<T>(xs: seq<T>, key: T -> int, v: int): seq<T> {
    if xs == [] then [] else (if key(xs[0]) == v then [xs[0]] else []) + OfKey(xs[1..], key, v)
  }

  lemma OfKeyOn<T>(x: T, xs: seq<T>, key: T -> int, v: int)
    ensures OfKey([x] + xs, key, v) == (if key(x) == v then [x] else []) + OfKey(xs, key, v)
  {
    assert ([x] + xs)[1..] == xs;
  }

  lemma {:induction false} InsertIsStable<T>(x: T, xs: seq<T>, key: T -> int, v: int)
    ensures OfKey(InsertDescending(x, xs, key), key, v) == OfKey([x] + xs, key, v)
  {
    if xs != [] && key(x) < key(xs[0]) {
      var first, rest := xs[0], xs[1..];
      assert xs == [first] + rest;
      InsertIsStable(x, rest, key, v);
      OfKeyOn(first, InsertDescending(x, rest, key), key, v);
      OfKeyOn(x, rest, key, v);
      OfKeyOn(x, xs, key, v);
      OfKeyOn(first, rest, key, v);
    }
  }

  /** Equal keys keep their order. */
  lemma {:induction false} SortIsStable<T>(xs: seq<T>, key: T -> int, v: int)
    ensures OfKey(SortDescending(xs, key), key, v) == OfKey(xs, key, v)
  {
    if xs != [] {
      var sorted := SortDescending(xs[1..], key);
      SortIsStable(xs[1..], key, v);
      InsertIsStable(xs[0], sorted, key, v);
      OfKeyOn(xs[0], sorted, key, v);
      OfKeyOn(xs[0], xs[1..], key, v);
      assert xs == [xs[0]] + xs[1..];
    }
  }
}
