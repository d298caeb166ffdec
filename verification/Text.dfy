/** Text helpers: splitting into lines, first occurrences, trimming, decimal numbers.

    A text is a string of bytes, each written as the character with that code, so that places
    and lengths are those of the source. */
module Text {

  function Split(text: string): (lines: seq<string>)
    ensures |lines| >= 1
  {
    if text == "" then [""]
    else
      var rest := Split(text[1..]);
      if text[0] == '\n' then [""] + rest else [[text[0]] + rest[0]] + rest[1..]
  }

  function Join(lines: seq<string>): string {
    if lines == [] then ""
    else if |lines| == 1 then lines[0]
    else lines[0] + "\n" + Join(lines[1..])
  }

  ghost predicate OneLiners(lines: seq<string>) {
    forall k :: 0 <= k < |lines| ==> '\n' !in lines[k]
  }

  /** Lines are what lies between newlines, and joining them gives the text back. */
  lemma {:induction false} JoinSplit(text: string)
    ensures OneLiners(Split(text)) && Join(Split(text)) == text
  {
    if text != "" {
      var rest := Split(text[1..]);
      JoinSplit(text[1..]);
      assert text == [text[0]] + text[1..];
      if text[0] == '\n' {
        assert ([""] + rest)[1..] == rest;
      } else {
        assert Split(text)[1..] == rest[1..];
      }
    }
  }

  lemma {:induction false} SplitFirst(line: string, more: string)
    requires '\n' !in line
    ensures Split(line + "\n" + more) == [line] + Split(more)
    ensures Split(line) == [line]
  {
    if line == "" {
      assert line + "\n" + more == "\n" + more;
    } else {
      SplitFirst(line[1..], more);
      assert (line + "\n" + more)[1..] == line[1..] + "\n" + more;
      assert line == [line[0]] + line[1..];
    }
  }

  lemma {:induction false} SplitJoin(lines: seq<string>)
    requires lines != [] && OneLiners(lines)
    ensures Split(Join(lines)) == lines
  {
    if |lines| == 1 {
      SplitFirst(lines[0], "");
    } else {
      SplitJoin(lines[1..]);
      SplitFirst(lines[0], Join(lines[1..]));
    }
  }

  function Find(s: string, c: char, i: nat): (j: int)
    requires i <= |s|
    ensures j == -1 || i <= j < |s|
    ensures j == -1 ==> forall k :: i <= k < |s| ==> s[k] != c
    ensures j >= 0 ==> s[j] == c && forall k :: i <= k < j ==> s[k] != c
    decreases |s| - i
  {
    if i == |s| then -1 else if s[i] == c then i else Find(s, c, i + 1)
  }

  /** The first occurrence of `c`, or -1. */
  function IndexOf(s: string, c: char): (i: int)
    ensures i == -1 <==> c !in s
    ensures i >= 0 ==> i < |s| && s[i] == c && c !in s[..i]
    ensures i >= -1
  {
    Find(s, c, 0)
  }

  lemma {:induction false} IndexIs(s: string, c: char, i: nat)
    requires i < |s| && s[i] == c && c !in s[..i]
    ensures IndexOf(s, c) == i
  {
    assert forall k :: 0 <= k < i ==> s[k] == s[..i][k];
  }

  /** Where a text is cut at the first `c`, and its two sides. */
  lemma {:induction false} CutAt(a: string, c: char, b: string)
    requires c !in a
    ensures var s := a + [c] + b; IndexOf(s, c) == |a| && s[..|a|] == a && s[|a|..] == [c] + b
  {
    var s := a + [c] + b;
    assert s[..|a|] == a;
    IndexIs(s, c, |a|);
  }

  // ---------- white space ----------

  predicate IsAsciiSpace(c: char) {
    '\t' <= c <= '\r' || c == ' '
  }

  /** U+0085 and U+00A0 in UTF-8. */
  predicate IsTwoByteSpace(a: char, b: char) {
    a == '\U{C2}' && (b == '\U{85}' || b == '\U{A0}')
  }

  /** U+1680, U+2000 to U+200A, U+2028, U+2029, U+202F, U+205F and U+3000 in UTF-8. */
  predicate IsThreeByteSpace(a: char, b: char, c: char) {
    || (a == '\U{E1}' && b == '\U{9A}' && c == '\U{80}')
    || (a == '\U{E2}' && b == '\U{80}' && '\U{80}' <= c <= '\U{8A}')
    || (a == '\U{E2}' && b == '\U{80}' && (c == '\U{A8}' || c == '\U{A9}' || c == '\U{AF}'))
    || (a == '\U{E2}' && b == '\U{81}' && c == '\U{9F}')
    || (a == '\U{E3}' && b == '\U{80}' && c == '\U{80}')
  }

  /** The number of bytes of a white-space character at the front, or 0. */
  function Lead(s: string): (n: nat)
    ensures n <= |s|
  {
    if |s| >= 1 && IsAsciiSpace(s[0]) then 1
    else if |s| >= 2 && IsTwoByteSpace(s[0], s[1]) then 2
    else if |s| >= 3 && IsThreeByteSpace(s[0], s[1], s[2]) then 3
    else 0
  }

  /** The same at the back. */
  function Trail(s: string): (n: nat)
    ensures n <= |s|
  {
    var k := |s|;
    if k >= 1 && IsAsciiSpace(s[k - 1]) then 1
    else if k >= 2 && IsTwoByteSpace(s[k - 2], s[k - 1]) then 2
    else if k >= 3 && IsThreeByteSpace(s[k - 3], s[k - 2], s[k - 1]) then 3
    else 0
  }

  function TrimLeft(s: string): string {
    if Lead(s) > 0 then TrimLeft(s[Lead(s)..]) else s
  }

  function TrimRight(s: string): string {
    if Trail(s) > 0 then TrimRight(s[..|s| - Trail(s)]) else s
  }

  function TrimSpace(s: string): string {
    TrimRight(TrimLeft(s))
  }

  /** Nothing but white-space characters. */
  ghost predicate Blank(s: string) {
    s == "" || (Lead(s) > 0 && Blank(s[Lead(s)..]))
  }

  ghost predicate Tight(s: string) {
    Lead(s) == 0 && Trail(s) == 0
  }

  lemma {:induction false} LeadOfPrefix(s: string, k: nat)
    requires k <= |s|
    ensures Lead(s[..k]) > 0 ==> Lead(s) == Lead(s[..k])
    ensures Lead(s) <= k ==> Lead(s[..k]) == Lead(s)
  {
  }

  lemma {:induction false} BlankAppend(a: string, e: string)
    requires Blank(a) && e != "" && Lead(e) == |e|
    ensures Blank(a + e)
  {
    if a == "" {
      assert a + e == e && e[Lead(e)..] == "";
    } else {
      assert (a + e)[..|a|] == a;
      LeadOfPrefix(a + e, |a|);
      assert (a + e)[Lead(a)..] == a[Lead(a)..] + e;
      BlankAppend(a[Lead(a)..], e);
    }
  }

  /** White space holds no parenthesis. */
  lemma {:induction false} BlankHasNoParenthesis(s: string)
    requires Blank(s)
    ensures '(' !in s
  {
    if s != "" {
      var n := Lead(s);
      BlankHasNoParenthesis(s[n..]);
      assert s == s[..n] + s[n..];
      assert '(' !in s[..n];
    }
  }

  lemma {:induction false} TrimLeftDrops(s: string) returns (k: nat)
    ensures k <= |s| && TrimLeft(s) == s[k..] && Blank(s[..k]) && Lead(s[k..]) == 0
  {
    var n := Lead(s);
    if n > 0 {
      var j := TrimLeftDrops(s[n..]);
      k := n + j;
      LeadOfPrefix(s, k);
      assert s[..k][n..] == s[n..][..j];
      assert s[n..][j..] == s[k..];
    } else {
      k := 0;
      assert s[0..] == s;
    }
  }

  lemma {:induction false} TrailIsLead(s: string)
    ensures Trail(s) > 0 ==> Lead(s[|s| - Trail(s)..]) == Trail(s)
  {
  }

  /** White space before a last white-space character. */
  lemma {:induction false} BlankBefore(s: string, k: nat, m: nat)
    requires k <= m < |s| && Blank(s[..m][k..]) && Lead(s[m..]) == |s| - m
    ensures Blank(s[k..])
  {
    assert s[k..] == s[..m][k..] + s[m..];
    BlankAppend(s[..m][k..], s[m..]);
  }

  lemma {:induction false} TrimRightDrops(s: string) returns (k: nat)
    ensures k <= |s| && TrimRight(s) == s[..k] && Blank(s[k..]) && Trail(s[..k]) == 0
  {
    if Trail(s) > 0 {
      var m := |s| - Trail(s);
      k := TrimRightDrops(s[..m]);
      TrailIsLead(s);
      BlankBefore(s, k, m);
      assert s[..m][..k] == s[..k];
    } else {
      k := |s|;
      assert s[..k] == s;
    }
  }

  /** Trimming takes white space off both ends and nothing else, and leaves none there. */
  lemma {:induction false} TrimSpaceIsTight(s: string) returns (i: nat, j: nat)
    ensures i <= j <= |s| && TrimSpace(s) == s[i..j] && Tight(TrimSpace(s))
    ensures Blank(s[..i]) && Blank(s[j..])
  {
    i := TrimLeftDrops(s);
    var n := TrimRightDrops(s[i..]);
    j := i + n;
    LeadOfPrefix(s[i..], n);
    assert s[i..][..n] == s[i..j] && s[i..][n..] == s[j..];
  }

  // ---------- decimal numbers ----------

  const MAX_UINT64: nat := 0xFFFF_FFFF_FFFF_FFFF

  predicate IsDigit(c: char) {
    '0' <= c <= '9'
  }

  predicate Digits(s: string) {
    forall i :: 0 <= i < |s| ==> IsDigit(s[i])
  }

  function DigitOf(c: char): nat
    requires IsDigit(c)
  {
    c as int - '0' as int
  }

  /** The value `strconv.ParseUint(s, 10, 64)` returns beside its error: the first thing that goes
      wrong, a non-digit or an overflow, decides. */
  function ParseFrom(s: string, n: nat): nat {
    if s == "" then n
    else if !IsDigit(s[0]) then 0
    else
      var next := n * 10 + DigitOf(s[0]);
      if next > MAX_UINT64 then MAX_UINT64 else ParseFrom(s[1..], next)
  }

  function ParseUint(s: string): nat {
    ParseFrom(s, 0)
  }

  /** The number a string of digits denotes. */
  ghost function Value(s: string): nat
    requires Digits(s)
  {
    if s == "" then 0 else Value(s[..|s| - 1]) * 10 + DigitOf(s[|s| - 1])
  }

  lemma {:induction false} ValueMonotone(a: string, b: string)
    requires Digits(a + b)
    ensures Digits(a) && Value(a) <= Value(a + b)
  {
    assert forall i :: 0 <= i < |a| ==> (a + b)[i] == a[i];
    if b != "" {
      var c := b[..|b| - 1];
      assert (a + b)[..|a + b| - 1] == a + c;
      ValueMonotone(a, c);
    } else {
      assert a + b == a;
    }
  }

  lemma {:induction false} ParseFromValue(s: string, k: nat)
    requires Digits(s) && k <= |s| && Value(s[..k]) <= MAX_UINT64
    ensures ParseFrom(s[k..], Value(s[..k])) == if Value(s) <= MAX_UINT64 then Value(s) else MAX_UINT64
    decreases |s| - k
  {
    if k < |s| {
      assert s[..k + 1][..k] == s[..k] && s[k..][1..] == s[k + 1..];
      if Value(s[..k + 1]) > MAX_UINT64 {
        assert s == s[..k + 1] + s[k + 1..];
        ValueMonotone(s[..k + 1], s[k + 1..]);
      } else {
        ParseFromValue(s, k + 1);
      }
    } else {
      assert s[..k] == s;
    }
  }

  /** A string of digits is read exactly, up to the largest 64-bit number, where it stays. */
  lemma {:induction false} ParseUintIsExact(s: string)
    requires Digits(s)
    ensures ParseUint(s) == if Value(s) <= MAX_UINT64 then Value(s) else MAX_UINT64
  {
    ParseFromValue(s, 0);
    assert s[0..] == s;
  }

  lemma {:induction false} ParseStops(s: string, k: nat, m: nat)
    requires k <= m < |s| && Digits(s[..m]) && !IsDigit(s[m])
    requires Digits(s[..k]) && Value(s[..k]) <= MAX_UINT64
    ensures ParseFrom(s[k..], Value(s[..k])) == if Value(s[..m]) <= MAX_UINT64 then 0 else MAX_UINT64
    decreases m - k
  {
    if k < m {
      assert s[..m][k] == s[k] && s[..k + 1][..k] == s[..k] && s[k..][1..] == s[k + 1..];
      assert forall i :: 0 <= i < k + 1 ==> s[..k + 1][i] == s[..m][i];
      if Value(s[..k + 1]) > MAX_UINT64 {
        assert s[..m] == s[..k + 1] + s[k + 1..m];
        ValueMonotone(s[..k + 1], s[k + 1..m]);
      } else {
        ParseStops(s, k + 1, m);
      }
    }
  }

  /** A text with a first non-digit at `m` is no number and reads as 0, unless the digits before
      it have already overflowed. */
  lemma {:induction false} ParseUintOfOtherText(s: string, m: nat)
    requires m < |s| && Digits(s[..m]) && !IsDigit(s[m])
    ensures ParseUint(s) == if Value(s[..m]) <= MAX_UINT64 then 0 else MAX_UINT64
  {
    assert s[..0] == "" && s[0..] == s;
    ParseStops(s, 0, m);
  }

  function Decimal(n: nat): string {
    var c := ('0' as int + n % 10) as char;
    if n < 10 then [c] else Decimal(n / 10) + [c]
  }

  lemma {:induction false} DecimalValue(n: nat)
    ensures Decimal(n) != "" && Digits(Decimal(n)) && Value(Decimal(n)) == n
  {
    var s := Decimal(n);
    if n >= 10 {
      DecimalValue(n / 10);
      assert s[..|s| - 1] == Decimal(n / 10);
    }
  }

  lemma {:induction false} ParseDecimal(n: nat)
    requires n <= MAX_UINT64
    ensures ParseUint(Decimal(n)) == n
  {
    DecimalValue(n);
    ParseUintIsExact(Decimal(n));
  }
}
