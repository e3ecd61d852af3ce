/**
  The string operations the services rely on: stripping, lower-casing, splitting
  and joining, over ASCII.
 */
module Text {
  predicate IsSpace(c: char) {
    c == ' ' || c == '\t' || c == '\n' || c == '\r'
  }

  function LStrip(s: string): string {
    if s != "" && IsSpace(s[0]) then LStrip(s[1..]) else s
  }

  function RStrip(s: string): string {
    if s != "" && IsSpace(s[|s| - 1]) then RStrip(s[..|s| - 1]) else s
  }

  function Strip(s: string): string {
    RStrip(LStrip(s))
  }

  /** No white space at either end. */
  predicate Stripped(s: string) {
    s == "" || (!IsSpace(s[0]) && !IsSpace(s[|s| - 1]))
  }

  predicate Prefixed(s: string, p: string) {
    |p| <= |s| && s[..|p|] == p
  }

  function LowerChar(c: char): char {
    if 'A' <= c <= 'Z' then (c as int + 32) as char else c
  }

  function Lower(s: string): (r: string)
    ensures |r| == |s| && forall i :: 0 <= i < |s| ==> r[i] == LowerChar(s[i])
  {
    seq(|s|, i requires 0 <= i < |s| => LowerChar(s[i]))
  }

  function UpperChar(c: char): char {
    if 'a' <= c <= 'z' then (c as int - 32) as char else c
  }

  function Upper(s: string): (r: string)
    ensures |r| == |s| && forall i :: 0 <= i < |s| ==> r[i] == UpperChar(s[i])
  {
    seq(|s|, i requires 0 <= i < |s| => UpperChar(s[i]))
  }

  /** The twenty-six letters of each case, in order, and nothing else. */
  lemma CaseMapsTheAlphabet(k: nat, c: char)
    requires k < 26
    ensures var upper, lower := ('A' as int + k) as char, ('a' as int + k) as char;
      && LowerChar(upper) == lower && UpperChar(lower) == upper
      && LowerChar(lower) == lower && UpperChar(upper) == upper
    ensures !('A' <= c <= 'Z') ==> LowerChar(c) == c
    ensures !('a' <= c <= 'z') ==> UpperChar(c) == c
  {
  }

  /** SQL trim(): blanks only. */
  function TrimBlanks(s: string): string
    decreases |s|
  {
    if s != "" && s[0] == ' ' then TrimBlanks(s[1..])
    else if s != "" && s[|s| - 1] == ' ' then TrimBlanks(s[..|s| - 1])
    else s
  }

  /** Blanks go from both ends, and nothing else does. */
  lemma {:induction false} OuterBlanksGo(before: string, s: string, after: string)
    requires forall k :: 0 <= k < |before| ==> before[k] == ' '
    requires forall k :: 0 <= k < |after| ==> after[k] == ' '
    requires if s == "" then after == "" else s[0] != ' ' && s[|s| - 1] != ' '
    ensures TrimBlanks(before + s + after) == s
    decreases |before| + |after|
  {
    var text := before + s + after;
    if before != "" {
      assert text[1..] == before[1..] + s + after;
      OuterBlanksGo(before[1..], s, after);
    } else if after != "" {
      assert text[..|text| - 1] == before + s + after[..|after| - 1] && text[0] == s[0];
      OuterBlanksGo(before, s, after[..|after| - 1]);
    } else {
      assert text == s;
    }
  }

  lemma {:induction false} LStripOfStripped(s: string)
    ensures LStrip(s) == "" || !IsSpace(LStrip(s)[0])
    ensures |LStrip(s)| <= |s| && LStrip(s) == s[|s| - |LStrip(s)|..]
  {
    if s == "" || !IsSpace(s[0]) {
    } else {
      LStripOfStripped(s[1..]);
    }
  }

  lemma {:induction false} RStripOfStripped(s: string)
    ensures RStrip(s) == "" || !IsSpace(RStrip(s)[|RStrip(s)| - 1])
    ensures |RStrip(s)| <= |s| && RStrip(s) == s[..|RStrip(s)|]
  {
    if s == "" || !IsSpace(s[|s| - 1]) {
    } else {
      RStripOfStripped(s[..|s| - 1]);
    }
  }

  lemma StripIsStripped(s: string)
    ensures Stripped(Strip(s))
    ensures Stripped(s) ==> Strip(s) == s
  {
    LStripOfStripped(s);
    RStripOfStripped(LStrip(s));
  }

  // ---------------------------------------------------------- split and join

  /** Python's str.split(sep): always at least one piece. */
  function Split(s: string, sep: char): (parts: seq<string>)
    ensures |parts| >= 1
  {
    if s == "" then [""]
    else
      var rest := Split(s[1..], sep);
      if s[0] == sep then [""] + rest else [[s[0]] + rest[0]] + rest[1..]
  }

  function Join(parts: seq<string>, sep: char): string {
    if parts == [] then ""
    else if |parts| == 1 then parts[0]
    else parts[0] + [sep] + Join(parts[1..], sep)
  }

  predicate Free(s: string, c: char) {
    c !in s
  }

  lemma StripKeepsFree(s: string, c: char)
    requires Free(s, c)
    ensures Free(Strip(s), c)
  {
    LStripOfStripped(s);
    RStripOfStripped(LStrip(s));
  }

  lemma {:induction false} SplitOfFree(s: string, sep: char)
    requires Free(s, sep)
    ensures Split(s, sep) == [s]
  {
    if s == "" {
    } else {
      assert Free(s[1..], sep);
      SplitOfFree(s[1..], sep);
      assert [s[0]] + s[1..] == s;
    }
  }

  lemma {:induction false} SplitAtFirst(head: string, sep: char, tail: string)
    requires Free(head, sep)
    ensures Split(head + [sep] + tail, sep) == [head] + Split(tail, sep)
  {
    var s := head + [sep] + tail;
    if head == "" {
      assert s[1..] == tail;
    } else {
      assert s[1..] == head[1..] + [sep] + tail;
      assert Free(head[1..], sep);
      SplitAtFirst(head[1..], sep, tail);
      assert [head[0]] + head[1..] == head;
    }
  }

  /** Joining pieces that do not contain the separator and splitting gives them back. */
  lemma {:induction false} SplitOfJoin(parts: seq<string>, sep: char)
    requires parts != [] && forall p :: p in parts ==> Free(p, sep)
    ensures Split(Join(parts, sep), sep) == parts
  {
    if |parts| == 1 {
      SplitOfFree(parts[0], sep);
    } else {
      SplitOfJoin(parts[1..], sep);
      SplitAtFirst(parts[0], sep, Join(parts[1..], sep));
    }
  }

  lemma {:induction false} SplitAfterFree(head: string, tail: string, sep: char)
    requires Free(head, sep)
    ensures Split(head + tail, sep) == [head + Split(tail, sep)[0]] + Split(tail, sep)[1..]
  {
    var s := head + tail;
    if head == "" {
      assert s == tail && head + Split(tail, sep)[0] == Split(tail, sep)[0];
    } else {
      assert s[1..] == head[1..] + tail && Free(head[1..], sep);
      SplitAfterFree(head[1..], tail, sep);
      assert [head[0]] + (head[1..] + Split(tail, sep)[0]) == head + Split(tail, sep)[0];
    }
  }

  lemma {:induction false} SplitPiecesAreFree(s: string, sep: char)
    ensures forall k :: 0 <= k < |Split(s, sep)| ==> Free(Split(s, sep)[k], sep)
  {
    if s == "" {
    } else {
      SplitPiecesAreFree(s[1..], sep);
    }
  }

  lemma {:induction false} JoinOfSplit(s: string, sep: char)
    ensures Join(Split(s, sep), sep) == s
  {
    if s == "" {
    } else {
      JoinOfSplit(s[1..], sep);
      JoinOfLonger(Split(s[1..], sep), s[0], sep);
    }
  }

  lemma JoinOfLonger(rest: seq<string>, c: char, sep: char)
    requires rest != []
    ensures Join([""] + rest, sep) == [sep] + Join(rest, sep)
    ensures Join([[c] + rest[0]] + rest[1..], sep) == [c] + Join(rest, sep)
  {
    assert ([""] + rest)[1..] == rest;
    assert ([[c] + rest[0]] + rest[1..])[1..] == rest[1..];
  }

  lemma SplitIsInjective(a: string, b: string, sep: char)
    requires Split(a, sep) == Split(b, sep)
    ensures a == b
  {
    JoinOfSplit(a, sep);
    JoinOfSplit(b, sep);
  }

  /** Where the separator stands first. */
  lemma FirstAt(s: string, sep: char) returns (at: nat)
    requires !Free(s, sep)
    ensures at < |s| && s[at] == sep && Free(s[..at], sep) && s == s[..at] + [sep] + s[at + 1..]
  {
    at := 0;
    while s[at] != sep
      invariant at < |s| && Free(s[..at], sep)
      decreases |s| - at
    {
      at := at + 1;
    }
  }

  /** Python's str.split(sep, n): at most n cuts, the rest stays whole. */
  function SplitAtMost(s: string, sep: char, n: nat): (parts: seq<string>)
    ensures 1 <= |parts| <= n + 1
  {
    if s == "" then [""]
    else if s[0] == sep && n > 0 then [""] + SplitAtMost(s[1..], sep, n - 1)
    else
      var rest := SplitAtMost(s[1..], sep, n);
      [[s[0]] + rest[0]] + rest[1..]
  }

  lemma {:induction false} SplitAtMostKeepsWhole(s: string, sep: char)
    ensures SplitAtMost(s, sep, 0) == [s]
  {
    if s == "" {
    } else {
      SplitAtMostKeepsWhole(s[1..], sep);
      assert [s[0]] + s[1..] == s;
    }
  }

  lemma {:induction false} SplitAtMostAtFirst(head: string, sep: char, tail: string, n: nat)
    requires Free(head, sep)
    ensures SplitAtMost(head + [sep] + tail, sep, n + 1) == [head] + SplitAtMost(tail, sep, n)
  {
    var s := head + [sep] + tail;
    if head == "" {
      assert s[1..] == tail;
    } else {
      assert s[1..] == head[1..] + [sep] + tail;
      assert Free(head[1..], sep);
      SplitAtMostAtFirst(head[1..], sep, tail, n);
      assert [head[0]] + head[1..] == head;
    }
  }

  lemma {:induction false} SplitAtMostOfFree(s: string, sep: char, n: nat)
    requires Free(s, sep)
    ensures SplitAtMost(s, sep, n) == [s]
  {
    if s == "" {
    } else {
      assert Free(s[1..], sep) && s[0] in s;
      SplitAtMostOfFree(s[1..], sep, n);
      assert [s[0]] + s[1..] == s;
    }
  }

  /** A cut that is made is made where the separator stands first. */
  lemma FirstCut(s: string, sep: char, n: nat) returns (head: string, tail: string)
    requires |SplitAtMost(s, sep, n + 1)| > 1
    ensures Free(head, sep) && s == head + [sep] + tail
    ensures SplitAtMost(s, sep, n + 1) == [head] + SplitAtMost(tail, sep, n)
  {
    if Free(s, sep) {
      SplitAtMostOfFree(s, sep, n + 1);
    }
    var at := FirstAt(s, sep);
    head, tail := s[..at], s[at + 1..];
    SplitAtMostAtFirst(head, sep, tail, n);
  }

  /** Two cuts leave three pieces, the first two without the separator. */
  lemma ThreePieces(s: string, sep: char) returns (a: string, b: string, c: string)
    requires |SplitAtMost(s, sep, 2)| == 3
    ensures Free(a, sep) && Free(b, sep) && s == a + [sep] + (b + [sep] + c) && SplitAtMost(s, sep, 2) == [a, b, c]
  {
    var rest;
    a, rest := FirstCut(s, sep, 1);
    b, c := FirstCut(rest, sep, 0);
    SplitAtMostKeepsWhole(c, sep);
  }

  // --------------------------------------------------------- order on strings

  /** Python's order on strings: by code point, a prefix first. */
  predicate AtMost(a: string, b: string) {
    a == "" || (b != "" && (a[0] < b[0] || (a[0] == b[0] && AtMost(a[1..], b[1..]))))
  }

  lemma {:induction false} AtMostIsTotal(a: string, b: string)
    ensures AtMost(a, b) || AtMost(b, a)
  {
    if a == "" || b == "" || a[0] != b[0] {
    } else {
      AtMostIsTotal(a[1..], b[1..]);
    }
  }

  lemma {:induction false} AtMostIsTransitive(a: string, b: string, c: string)
    requires AtMost(a, b) && AtMost(b, c)
    ensures AtMost(a, c)
  {
    if a == "" || !(a[0] == b[0] == c[0]) {
    } else {
      AtMostIsTransitive(a[1..], b[1..], c[1..]);
    }
  }

  /** sorted(s)[0]. */
  method Least(s: set<string>) returns (least: string)
    requires s != {}
    ensures least in s && forall x :: x in s ==> AtMost(least, x)
  {
    least :| least in s;
    AtMostIsTotal(least, least);
    var rest := s - {least};
    while rest != {}
      invariant least in s && rest <= s
      invariant forall x :: x in s - rest ==> AtMost(least, x)
      decreases rest
    {
      var y :| y in rest;
      rest := rest - {y};
      AtMostIsTotal(least, y);
      if !AtMost(least, y) {
        forall x | x in s - rest ensures AtMost(y, x) {
          if x != y {
            AtMostIsTransitive(y, least, x);
          } else {
            AtMostIsTotal(y, y);
          }
        }
        least := y;
      }
    }
  }

  /** The elements of the set, each once, in order. */
  ghost predicate SortedListOf(list: seq<string>, s: set<string>) {
    && (set x | x in list) == s
    && forall i, j :: 0 <= i < j < |list| ==> AtMost(list[i], list[j]) && list[i] != list[j]
  }

  /** sorted(s). */
  method Sorted(s: set<string>) returns (list: seq<string>)
    ensures SortedListOf(list, s)
  {
    list := [];
    var rest := s;
    while rest != {}
      invariant rest <= s && SortedListOf(list, s - rest)
      invariant forall x, k :: x in rest && 0 <= k < |list| ==> AtMost(list[k], x)
      decreases rest
    {
      var least := Least(rest);
      ghost var before, done := list, set x | x in list;
      forall k | 0 <= k < |list| ensures list[k] in done && list[k] != least {
      }
      list, rest := list + [least], rest - {least};
      assert (set x | x in list) == done + {least};
    }
  }

  // ---------------------------------------------------------------- numerals

  function Digit(n: nat): char
    requires n < 10
  {
    ('0' as int + n) as char
  }

  /** str(n) for a natural number. */
  function Decimal(n: nat): (s: string)
    ensures s != "" && forall c :: c in s ==> '0' <= c <= '9'
  {
    if n < 10 then [Digit(n)] else Decimal(n / 10) + [Digit(n % 10)]
  }

  lemma {:induction false} DecimalIsInjective(m: nat, n: nat)
    ensures Decimal(m) == Decimal(n) ==> m == n
  {
    if Decimal(m) == Decimal(n) {
      var a, b := Decimal(m), Decimal(n);
      assert a[|a| - 1] == Digit(m % 10) && b[|b| - 1] == Digit(n % 10);
      if m < 10 || n < 10 {
      } else {
        assert a[..|a| - 1] == Decimal(m / 10) && b[..|b| - 1] == Decimal(n / 10);
        DecimalIsInjective(m / 10, n / 10);
      }
    }
  }
}
