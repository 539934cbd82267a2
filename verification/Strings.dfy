/** The string functions of the Go and JavaScript libraries that the hand-written parsers use. */
module Strings {
  import opened Wrappers

  /** White space as Unicode and Go's strings.TrimSpace define it. */
  predicate IsSpace(c: char) {
    || '\t' <= c <= '\r' || c == ' ' || c == '\U{85}' || c == '\U{A0}' || c == '\U{1680}'
    || '\U{2000}' <= c <= '\U{200A}' || c == '\U{2028}' || c == '\U{2029}' || c == '\U{202F}' || c == '\U{205F}'
    || c == '\U{3000}'
  }

  /** Blanks, tabs and line ends are white space, and nothing else in ASCII. */
  lemma SpacesInAscii(c: char)
    requires c <= '~'
    ensures IsSpace(c) <==> c == ' ' || c == '\t' || c == '\n' || c == '\r' || c as int == 11 || c as int == 12
  {
  }

  predicate IsQuote(c: char) {
    c == '"'
  }

  function TrimLeft(s: string, p: char -> bool): string {
    if s != "" && p(s[0]) then TrimLeft(s[1..], p) else s
  }

  function TrimRight(s: string, p: char -> bool): string {
    if s != "" && p(s[|s| - 1]) then TrimRight(s[..|s| - 1], p) else s
  }

  function TrimBy(s: string, p: char -> bool): string {
    TrimRight(TrimLeft(s, p), p)
  }

  function TrimSpace(s: string): string {
    TrimBy(s, IsSpace)
  }

  predicate All(s: string, p: char -> bool) {
    forall i :: 0 <= i < |s| ==> p(s[i])
  }

  /** Empty, or with edges that trimming leaves alone. */
  predicate HasCleanEdges(s: string, p: char -> bool) {
    s != "" ==> !p(s[0]) && !p(s[|s| - 1])
  }

  lemma {:induction false} TrimLeftPast(a: string, s: string, p: char -> bool)
    requires All(a, p)
    ensures TrimLeft(a + s, p) == TrimLeft(s, p)
  {
    if a == "" {
      assert a + s == s;
    } else {
      assert (a + s)[1..] == a[1..] + s;
      TrimLeftPast(a[1..], s, p);
    }
  }

  lemma {:induction false} TrimRightPast(s: string, b: string, p: char -> bool)
    requires All(b, p)
    ensures TrimRight(s + b, p) == TrimRight(s, p)
  {
    if b == "" {
      assert s + b == s;
    } else {
      assert (s + b)[..|s + b| - 1] == s + b[..|b| - 1];
      TrimRightPast(s, b[..|b| - 1], p);
    }
  }

  /** Trimming finds the core again. */
  lemma TrimFinds(a: string, s: string, b: string, p: char -> bool)
    requires All(a, p) && All(b, p) && HasCleanEdges(s, p)
    ensures TrimBy(a + (s + b), p) == s
  {
    TrimLeftPast(a, s + b, p);
    if s == "" {
      assert s + b == b == b + "";
      TrimLeftPast(b, "", p);
    } else {
      TrimRightPast(s, b, p);
    }
  }

  lemma TrimClean(s: string, p: char -> bool)
    requires HasCleanEdges(s, p)
    ensures TrimBy(s, p) == s
  {
    TrimFinds("", s, "", p);
    assert "" + (s + "") == s;
  }

  function TrimPrefix(s: string, c: char): string {
    if s != "" && s[0] == c then s[1..] else s
  }

  function TrimSuffix(s: string, c: char): string {
    if s != "" && s[|s| - 1] == c then s[..|s| - 1] else s
  }

  /** The first position of `c`, or -1. */
  function Index(s: string, c: char): (i: int)
    ensures -1 <= i < |s|
    ensures i == -1 <==> c !in s
    ensures i >= 0 ==> s[i] == c && c !in s[..i]
  {
    if s == "" then -1
    else if s[0] == c then 0
    else
      var rest := Index(s[1..], c);
      assert s == [s[0]] + s[1..];
      if rest == -1 then -1
      else
        assert s[..rest + 1] == [s[0]] + s[1..][..rest];
        rest + 1
  }

  lemma IndexAfter(a: string, c: char, b: string)
    requires c !in a
    ensures Index(a + ([c] + b), c) == |a|
  {
    var s := a + ([c] + b);
    assert s[|a|] == c && s[..|a|] == a;
  }

  function Split(s: string, sep: char): (parts: seq<string>)
    ensures parts != []
    decreases |s|
  {
    var i := Index(s, sep);
    if i == -1 then [s] else [s[..i]] + Split(s[i + 1..], sep)
  }

  lemma SplitAtFirst(a: string, sep: char, b: string)
    requires sep !in a
    ensures Split(a, sep) == [a] && Split(a + ([sep] + b), sep) == [a] + Split(b, sep)
  {
    IndexAfter(a, sep, b);
    var s := a + ([sep] + b);
    assert s[..|a|] == a && s[|a| + 1..] == b;
  }

  lemma {:induction false} TrimsToNothing(s: string, p: char -> bool)
    ensures TrimBy(s, p) == "" <==> All(s, p)
    decreases |s|
  {
    if s == "" {
    } else if p(s[0]) {
      TrimsToNothing(s[1..], p);
      assert s == [s[0]] + s[1..];
    } else {
      TrimRightKeepsFirst(s, p);
    }
  }

  lemma {:induction false} TrimLeftAddsNothing(s: string, p: char -> bool, c: char)
    requires c !in s
    ensures c !in TrimLeft(s, p)
  {
    if s != "" && p(s[0]) {
      TrimLeftAddsNothing(s[1..], p, c);
    }
  }

  lemma {:induction false} TrimRightAddsNothing(s: string, p: char -> bool, c: char)
    requires c !in s
    ensures c !in TrimRight(s, p)
  {
    if s != "" && p(s[|s| - 1]) {
      TrimRightAddsNothing(s[..|s| - 1], p, c);
    }
  }

  lemma TrimAddsNothing(s: string, p: char -> bool, c: char)
    requires c !in s
    ensures c !in TrimBy(s, p)
  {
    TrimLeftAddsNothing(s, p, c);
    TrimRightAddsNothing(TrimLeft(s, p), p, c);
  }

  lemma {:induction false} TrimRightKeepsFirst(s: string, p: char -> bool)
    requires s != "" && !p(s[0])
    ensures TrimRight(s, p) != "" && TrimRight(s, p)[0] == s[0]
  {
    if p(s[|s| - 1]) {
      TrimRightKeepsFirst(s[..|s| - 1], p);
    }
  }

  function Join(parts: seq<string>, sep: string): string {
    if parts == [] then ""
    else if |parts| == 1 then parts[0]
    else parts[0] + (sep + Join(parts[1..], sep))
  }

  lemma JoinHead(head: string, tail: seq<string>, sep: char)
    requires tail != []
    ensures Join([head] + tail, [sep]) == head + ([sep] + Join(tail, [sep]))
  {
    assert ([head] + tail)[1..] == tail;
  }

  lemma SplitHead(head: string, tail: seq<string>, sep: char)
    requires tail != [] && sep !in head && Split(Join(tail, [sep]), sep) == tail
    ensures Split(Join([head] + tail, [sep]), sep) == [head] + tail
  {
    JoinHead(head, tail, sep);
    SplitAtFirst(head, sep, Join(tail, [sep]));
  }

  /** Splitting undoes joining. */
  lemma {:induction false} SplitJoin(parts: seq<string>, sep: char)
    requires parts != [] && forall i :: 0 <= i < |parts| ==> sep !in parts[i]
    ensures Split(Join(parts, [sep]), sep) == parts
  {
    if |parts| > 1 {
      SplitJoin(parts[1..], sep);
      SplitHead(parts[0], parts[1..], sep);
      assert parts == [parts[0]] + parts[1..];
    } else {
      SplitAtFirst(parts[0], sep, "");
    }
  }

  const INT64_MAX := 0x7fff_ffff_ffff_ffff
  const INT64_MIN := -0x8000_0000_0000_0000

  predicate IsDigit(c: char) {
    '0' <= c <= '9'
  }

  function Digit(d: nat): (c: char)
    requires d < 10
    ensures IsDigit(c) && c as int - '0' as int == d
  {
    (d + '0' as int) as char
  }

  function DigitsOf(n: nat): (s: string)
    ensures s != "" && All(s, IsDigit)
  {
    if n < 10 then [Digit(n)] else DigitsOf(n / 10) + [Digit(n % 10)]
  }

  function ValueOf(s: string): nat
    requires All(s, IsDigit)
  {
    if s == "" then 0 else 10 * ValueOf(s[..|s| - 1]) + (s[|s| - 1] as int - '0' as int)
  }

  lemma {:induction false} ValueOfDigits(n: nat)
    ensures ValueOf(DigitsOf(n)) == n
  {
    if n < 10 {
      assert ValueOf([]) == 0;
      assert [Digit(n)][..0] == [];
    } else {
      ValueOfDigits(n / 10);
      var front := DigitsOf(n / 10);
      assert (front + [Digit(n % 10)])[..|front|] == front;
    }
  }

  /** strconv.Itoa */
  function Itoa(n: int): string {
    if n < 0 then "-" + DigitsOf(-n) else DigitsOf(n)
  }

  /** strconv.Atoi on a 64-bit platform: an optional sign, digits, and nothing else. */
  function Atoi(s: string): (r: Option<int>)
    ensures r.Some? ==> INT64_MIN <= r.value <= INT64_MAX
  {
    var signed := s != "" && (s[0] == '-' || s[0] == '+');
    var digits := if signed then s[1..] else s;
    if digits == "" || !All(digits, IsDigit) then None
    else
      var v: int := ValueOf(digits);
      var n := if signed && s[0] == '-' then -v else v;
      if INT64_MIN <= n <= INT64_MAX then Some(n) else None
  }

  lemma AtoiItoa(n: int)
    requires INT64_MIN <= n <= INT64_MAX
    ensures Atoi(Itoa(n)) == Some(n)
  {
    if n < 0 {
      ValueOfDigits(-n);
      assert Itoa(n)[1..] == DigitsOf(-n);
    } else {
      ValueOfDigits(n);
      assert IsDigit(DigitsOf(n)[0]);
    }
  }

  lemma {:induction false} LeadingZeros(s: string)
    requires All(s, IsDigit)
    ensures All("0" + s, IsDigit) && ValueOf("0" + s) == ValueOf(s)
  {
    if s == "" {
      assert "0" + s == "0" && "0"[..0] == "";
      assert ValueOf("0"[..0]) == 0;
    } else {
      var n := |s| - 1;
      LeadingZeros(s[..n]);
      assert ("0" + s)[..|s|] == "0" + s[..n];
    }
  }

  /** Which texts are read as an integer: decimal digits, at least one, with at most one sign before them, whose
      value fits 64 bits. Spaces, fractions and anything else are not. */
  lemma AtoiReads(sign: string, digits: string)
    requires sign == "" || sign == "+" || sign == "-"
    requires forall c :: c in digits ==> '0' <= c <= '9'
    ensures All(digits, IsDigit)
    ensures var n := (if sign == "-" then -1 else 1) * ValueOf(digits);
      Atoi(sign + digits)
        == if digits != "" && -0x8000_0000_0000_0000 <= n < 0x8000_0000_0000_0000 then Some(n) else None
  {
    forall i | 0 <= i < |digits| ensures IsDigit(digits[i]) {
      assert digits[i] in digits;
    }
    if sign == "" {
      assert sign + digits == digits;
    } else {
      assert (sign + digits)[1..] == digits;
    }
  }

  lemma AtoiRefuses(s: string)
    requires forall sign, digits :: s == sign + digits && (sign == "" || sign == "+" || sign == "-") ==>
      exists c :: c in digits && !('0' <= c <= '9')
    ensures Atoi(s) == None
  {
    assert s == "" + s;
    if s != "" && (s[0] == '+' || s[0] == '-') {
      assert s == [s[0]] + s[1..];
      assert [s[0]] == "+" || [s[0]] == "-";
    }
  }
}
