/** The weighted operation mix of the load runners. */
module OpMix {
  import opened Wrappers
  import opened Strings

  /** White space as JavaScript's String.trim removes it. */
  predicate IsJsSpace(c: char) {
    || '\t' <= c <= '\r' || c == ' ' || c == '\U{A0}' || c == '\U{1680}' || c == '\U{FEFF}'
    || '\U{2000}' <= c <= '\U{200A}' || c == '\U{2028}' || c == '\U{2029}' || c == '\U{202F}' || c == '\U{205F}'
    || c == '\U{3000}'
  }

  datatype Entry = Entry(name: string, weight: real)

  lemma JsSpacesInAscii(c: char)
    requires c <= '~'
    ensures IsJsSpace(c) <==> c == ' ' || c == '\t' || c == '\n' || c == '\r' || c as int == 11 || c as int == 12
  {
  }

  function TrimmedParts(parts: seq<string>): seq<string> {
    if parts == [] then []
    else
      var s := TrimBy(parts[0], IsJsSpace);
      (if s == "" then [] else [s]) + TrimmedParts(parts[1..])
  }

  /** One item: a name, and after the first colon a weight that defaults to 1. `number` is parseFloat. */
  function ParseItem(item: string, number: string -> real): Entry {
    var fields := Split(item, ':');
    Entry(TrimBy(fields[0], IsJsSpace), number(if |fields| > 1 && fields[1] != "" then fields[1] else "1"))
  }

  /** An item without a colon is a name of weight 1. */
  lemma BareItem(name: string, number: string -> real)
    requires ':' !in name
    ensures ParseItem(name, number) == Entry(TrimBy(name, IsJsSpace), number("1"))
  {
    SplitAtFirst(name, ':', "");
    ItemOfFields(name, number, [name]);
  }

  /** With a colon, the name is what comes before it, and the weight what follows up to the next colon; an empty
      weight is read as 1. */
  lemma WeighedItem(name: string, weight: string, rest: string, number: string -> real)
    requires ':' !in name && ':' !in weight && (rest == "" || rest[0] == ':')
    ensures ParseItem(name + ([':'] + (weight + rest)), number)
         == Entry(TrimBy(name, IsJsSpace), number(if weight == "" then "1" else weight))
  {
    SplitAtFirst(name, ':', weight + rest);
    WeightComesFirst(weight, rest);
    ItemOfFields(name + ([':'] + (weight + rest)), number, [name] + Split(weight + rest, ':'));
  }

  lemma WeightComesFirst(weight: string, rest: string)
    requires ':' !in weight && (rest == "" || rest[0] == ':')
    ensures Split(weight + rest, ':')[0] == weight
  {
    if rest == "" {
      assert weight + rest == weight;
      SplitAtFirst(weight, ':', "");
    } else {
      assert weight + rest == weight + ([':'] + rest[1..]);
      SplitAtFirst(weight, ':', rest[1..]);
    }
  }

  lemma ItemOfFields(item: string, number: string -> real, fields: seq<string>)
    requires fields != [] && Split(item, ':') == fields
    ensures ParseItem(item, number)
         == Entry(TrimBy(fields[0], IsJsSpace), number(if |fields| > 1 && fields[1] != "" then fields[1] else "1"))
  {
  }

  predicate IsBlank(s: string) {
    All(s, IsJsSpace)
  }

  predicate AreBlank(parts: seq<string>) {
    forall i :: 0 <= i < |parts| ==> IsBlank(parts[i])
  }

  /** Blank parts between the commas do not count, and a mix of nothing else is refused. */
  lemma {:induction false} BlanksDoNotCount(parts: seq<string>)
    ensures TrimmedParts(parts) == [] <==> AreBlank(parts)
    ensures forall s ::
              s in TrimmedParts(parts) <==> exists i :: 0 <= i < |parts| && s == TrimBy(parts[i], IsJsSpace) != ""
  {
    if parts != [] {
      BlanksDoNotCount(parts[1..]);
      TrimsToNothing(parts[0], IsJsSpace);
      assert parts == [parts[0]] + parts[1..];
      forall i | 0 <= i < |parts| - 1 ensures parts[1..][i] == parts[i + 1] {
      }
      forall i | 0 < i < |parts| ensures parts[i] == parts[1..][i - 1] {
      }
    }
  }

  lemma RefusedIff(spec: string, number: string -> real)
    ensures ParseOpMix(spec, number).Failure? <==> AreBlank(Split(spec, ','))
  {
    BlanksDoNotCount(Split(spec, ','));
  }

  function ParseItems(items: seq<string>, number: string -> real): seq<Entry> {
    seq(|items|, i requires 0 <= i < |items| => ParseItem(items[i], number))
  }

  function ParseOpMix(spec: string, number: string -> real): Result<seq<Entry>, string> {
    var items := TrimmedParts(Split(spec, ','));
    if items == [] then Failure("parseOpMix: empty spec") else Success(ParseItems(items, number))
  }

  /** The sum of the first `n` weights. */
  function Prefix(es: seq<Entry>, n: nat): real
    requires n <= |es|
  {
    if n == 0 then 0.0 else Prefix(es, n - 1) + es[n - 1].weight
  }

  /** `draw` is the random number scaled by the total weight. The last entry is also the fallback when the loop runs
      out. */
  method Pick(es: seq<Entry>, draw: real) returns (name: string)
    requires es != []
    ensures (exists k: nat :: IsChoice(es, draw, k) && name == es[k].name)
        || (HasNoChoice(es, draw) && name == es[|es| - 1].name)
  {
    var r := draw;
    for i := 0 to |es|
      invariant r == draw - Prefix(es, i)
      invariant forall j :: 0 < j <= i ==> Prefix(es, j) < draw
    {
      r := r - es[i].weight;
      if r <= 0.0 {
        assert IsChoice(es, draw, i);
        return es[i].name;
      }
    }
    return es[|es| - 1].name;
  }

  /** The draw is beyond every prefix sum. */
  ghost predicate HasNoChoice(es: seq<Entry>, draw: real) {
    forall j :: 0 < j <= |es| ==> Prefix(es, j) < draw
  }

  /** Every draw decides the pick: there is at most one choice, and there is none exactly when the loop runs out. */
  lemma {:induction false} PickIsDetermined(es: seq<Entry>, draw: real)
    ensures forall k: nat, m: nat :: IsChoice(es, draw, k) && IsChoice(es, draw, m) ==> k == m
    ensures HasNoChoice(es, draw) <==> !exists k: nat :: IsChoice(es, draw, k)
  {
    if j :| 0 < j <= |es| && draw <= Prefix(es, j) {
      var k := ChoiceExists(es, draw, j);
    }
  }

  ghost predicate IsWeighting(es: seq<Entry>) {
    forall i :: 0 <= i < |es| ==> es[i].weight >= 0.0
  }

  /** What `Pick` chooses. */
  ghost predicate IsChoice(es: seq<Entry>, draw: real, k: nat) {
    k < |es| && draw <= Prefix(es, k + 1) && forall j :: 0 < j <= k ==> Prefix(es, j) < draw
  }

  lemma {:induction false} PrefixGrows(es: seq<Entry>, i: nat, j: nat)
    requires IsWeighting(es) && i <= j <= |es|
    ensures Prefix(es, i) <= Prefix(es, j)
    decreases j - i
  {
    if i < j {
      PrefixGrows(es, i, j - 1);
    }
  }

  /** A positive draw chooses the entry whose interval of prefix sums contains it. */
  lemma ChoiceIsTheInterval(es: seq<Entry>, draw: real, k: nat)
    requires IsWeighting(es) && draw > 0.0 && k < |es|
    ensures IsChoice(es, draw, k) <==> Prefix(es, k) < draw <= Prefix(es, k + 1)
  {
    if Prefix(es, k) < draw {
      forall j | 0 < j <= k ensures Prefix(es, j) < draw {
        PrefixGrows(es, j, k);
      }
    }
  }

  /** No draw up to the total reaches the fallback. */
  lemma {:induction false} ChoiceExists(es: seq<Entry>, draw: real, n: nat) returns (k: nat)
    requires 0 < n <= |es| && draw <= Prefix(es, n)
    ensures k < n && IsChoice(es, draw, k)
  {
    if j :| 0 < j < n && draw <= Prefix(es, j) {
      k := ChoiceExists(es, draw, j);
    } else {
      k := n - 1;
    }
  }

  /** The one draw outside the intervals: zero chooses the first entry, even one of weight zero. */
  lemma ZeroDrawChoosesFirst(es: seq<Entry>, k: nat)
    requires IsWeighting(es) && es != [] && k < |es|
    ensures IsChoice(es, 0.0, k) <==> k == 0
  {
    assert Prefix(es, 1) == es[0].weight by { assert Prefix(es, 0) == 0.0; }
    if k > 0 {
      PrefixGrows(es, 0, 1);
    }
  }

  datatype Op = Op(name: string, weight: nat)

  function Weighed(ops: seq<Op>): seq<Entry> {
    seq(|ops|, i requires 0 <= i < |ops| => Entry(ops[i].name, ops[i].weight as real))
  }

  function Sum(ops: seq<Op>): nat {
    if ops == [] then 0 else Sum(ops[..|ops| - 1]) + ops[|ops| - 1].weight
  }

  /** The weight a name has in all its entries together. */
  function WeightOf(ops: seq<Op>, name: string): nat {
    if ops == [] then 0
    else WeightOf(ops[..|ops| - 1], name) + if ops[|ops| - 1].name == name then ops[|ops| - 1].weight else 0
  }

  /** The whole numbers above `lo` up to `hi`. */
  function Range(lo: int, hi: int): (s: set<int>)
    ensures forall r :: r in s <==> lo < r <= hi
    ensures |s| == if lo <= hi then hi - lo else 0
    decreases hi - lo
  {
    if lo >= hi then {} else Range(lo, hi - 1) + {hi}
  }

  /** The draws among 1..m that choose `name`. */
  ghost function DrawsFor(ops: seq<Op>, name: string, m: nat): set<int> {
    set r | r in Range(0, m) && Chooses(ops, r, name)
  }

  ghost predicate Chooses(ops: seq<Op>, r: int, name: string) {
    exists k: nat :: IsChoice(Weighed(ops), r as real, k) && ops[k].name == name
  }

  lemma {:induction false} PrefixOfFront(ops: seq<Op>, n: nat)
    requires n <= |ops|
    ensures Prefix(Weighed(ops), n) == Sum(ops[..n]) as real
  {
    if n > 0 {
      PrefixOfFront(ops, n - 1);
      assert ops[..n][..n - 1] == ops[..n - 1];
    }
  }

  /** Every draw up to the sum of the first operations is decided among them. */
  lemma {:induction false} ChoiceInFront(ops: seq<Op>, r: int, k: nat)
    requires ops != [] && 1 <= r <= Sum(ops)
    ensures var front := ops[..|ops| - 1];
      && (k < |front| ==> (IsChoice(Weighed(ops), r as real, k) <==> IsChoice(Weighed(front), r as real, k)))
      && (IsChoice(Weighed(ops), r as real, |front|) <==> Sum(front) < r)
  {
    var n := |ops| - 1;
    PrefixOfFront(ops, n);
    PrefixOfFront(ops, n + 1);
    assert ops[..n + 1] == ops;
    ChoiceIsTheInterval(Weighed(ops), r as real, n);
    if k < n {
      PrefixOfFront(ops, k);
      PrefixOfFront(ops, k + 1);
      PrefixOfFront(ops[..n], k);
      PrefixOfFront(ops[..n], k + 1);
      assert ops[..n][..k] == ops[..k] && ops[..n][..k + 1] == ops[..k + 1];
      ChoiceIsTheInterval(Weighed(ops), r as real, k);
      ChoiceIsTheInterval(Weighed(ops[..n]), r as real, k);
    }
  }

  lemma {:induction false} ChoosesInFront(ops: seq<Op>, r: int, name: string)
    requires ops != [] && 1 <= r <= Sum(ops) && Chooses(ops, r, name)
    ensures var n := |ops| - 1;
      (r <= Sum(ops[..n]) && Chooses(ops[..n], r, name)) || (r > Sum(ops[..n]) && ops[n].name == name)
  {
    var front := ops[..|ops| - 1];
    var k: nat :| IsChoice(Weighed(ops), r as real, k) && ops[k].name == name;
    ChoiceInFront(ops, r, k);
    if k < |front| {
      assert front[k].name == name;
      FrontChoiceIsSmall(front, r, k);
    }
  }

  lemma {:induction false} FrontChooses(ops: seq<Op>, r: int, name: string)
    requires ops != [] && 1 <= r <= Sum(ops)
    requires var n := |ops| - 1;
      (r <= Sum(ops[..n]) && Chooses(ops[..n], r, name)) || (r > Sum(ops[..n]) && ops[n].name == name)
    ensures Chooses(ops, r, name)
  {
    var front := ops[..|ops| - 1];
    if r > Sum(front) {
      ChoiceInFront(ops, r, |front|);
    } else {
      var k: nat :| IsChoice(Weighed(front), r as real, k) && front[k].name == name;
      ChoiceInFront(ops, r, k);
      assert ops[k].name == name;
    }
  }

  function LastRange(ops: seq<Op>, name: string): set<int>
    requires ops != []
  {
    if ops[|ops| - 1].name == name then Range(Sum(ops[..|ops| - 1]), Sum(ops)) else {}
  }

  lemma {:induction false} DrawStep(ops: seq<Op>, r: int, name: string)
    requires ops != []
    ensures var front := ops[..|ops| - 1];
      r in DrawsFor(ops, name, Sum(ops)) <==> r in DrawsFor(front, name, Sum(front)) || r in LastRange(ops, name)
  {
    if 1 <= r <= Sum(ops) {
      if Chooses(ops, r, name) {
        ChoosesInFront(ops, r, name);
      } else if r in DrawsFor(ops[..|ops| - 1], name, Sum(ops[..|ops| - 1])) || r in LastRange(ops, name) {
        FrontChooses(ops, r, name);
      }
    }
  }

  lemma {:induction false} LastTakesItsRange(ops: seq<Op>, name: string)
    requires ops != []
    ensures var front := ops[..|ops| - 1];
      DrawsFor(ops, name, Sum(ops)) == DrawsFor(front, name, Sum(front)) + LastRange(ops, name)
  {
    forall r
      ensures r in DrawsFor(ops, name, Sum(ops))
          <==> r in DrawsFor(ops[..|ops| - 1], name, Sum(ops[..|ops| - 1])) + LastRange(ops, name)
    {
      DrawStep(ops, r, name);
    }
  }

  lemma {:induction false} FrontChoiceIsSmall(ops: seq<Op>, r: int, k: nat)
    requires IsChoice(Weighed(ops), r as real, k)
    ensures r <= Sum(ops)
  {
    PrefixGrows(Weighed(ops), k + 1, |ops|);
    PrefixOfFront(ops, |ops|);
    assert ops[..|ops|] == ops;
  }

  /** Picks are proportional: among the draws 1..total, exactly as many choose a name as its weights add up to. */
  lemma {:induction false} PicksAreProportional(ops: seq<Op>, name: string)
    ensures |DrawsFor(ops, name, Sum(ops))| == WeightOf(ops, name)
  {
    if ops == [] {
      assert DrawsFor(ops, name, Sum(ops)) == {};
    } else {
      var front := ops[..|ops| - 1];
      PicksAreProportional(front, name);
      LastTakesItsRange(ops, name);
      assert DrawsFor(front, name, Sum(front)) !! LastRange(ops, name);
    }
  }

  predicate IsCleanName(name: string) {
    ',' !in name && ':' !in name && HasCleanEdges(name, IsJsSpace)
  }

  function PrintOp(op: Op): string {
    Join([op.name, DigitsOf(op.weight)], ":")
  }

  function PrintOps(ops: seq<Op>): seq<string> {
    seq(|ops|, i requires 0 <= i < |ops| => PrintOp(ops[i]))
  }

  lemma DigitsAvoid(n: nat, c: char)
    requires !IsDigit(c)
    ensures c !in DigitsOf(n)
  {
  }

  lemma OpReadsBack(op: Op, number: string -> real)
    requires IsCleanName(op.name) && number(DigitsOf(op.weight)) == op.weight as real
    ensures TrimBy(PrintOp(op), IsJsSpace) == PrintOp(op) != "" && ',' !in PrintOp(op)
    ensures ParseItem(PrintOp(op), number) == Entry(op.name, op.weight as real)
  {
    var digits := DigitsOf(op.weight);
    DigitsAvoid(op.weight, ':');
    DigitsAvoid(op.weight, ',');
    assert Join([digits], ":") == digits;
    assert [op.name, digits][1..] == [digits];
    var item := op.name + (":" + digits);
    assert PrintOp(op) == item;
    assert item[|item| - 1] == digits[|digits| - 1] && IsDigit(digits[|digits| - 1]);
    assert item[0] == if op.name == "" then ':' else op.name[0];
    TrimClean(item, IsJsSpace);
    SplitJoin([op.name, digits], ':');
    TrimClean(op.name, IsJsSpace);
  }

  lemma {:induction false} CleanPartsStay(parts: seq<string>)
    requires forall i :: 0 <= i < |parts| ==> TrimBy(parts[i], IsJsSpace) == parts[i] != ""
    ensures TrimmedParts(parts) == parts
  {
    if parts != [] {
      CleanPartsStay(parts[1..]);
      assert parts == [parts[0]] + parts[1..];
    }
  }

  /** Parsing undoes printing, for a number reader that reads decimal numerals. */
  lemma ParsingUndoesPrinting(ops: seq<Op>, number: string -> real)
    requires ops != [] && forall i :: 0 <= i < |ops| ==> IsCleanName(ops[i].name)
    requires forall n: nat :: number(DigitsOf(n)) == n as real
    ensures ParseOpMix(Join(PrintOps(ops), ","), number) == Success(Weighed(ops))
  {
    var items := PrintOps(ops);
    forall i | 0 <= i < |ops|
      ensures TrimBy(items[i], IsJsSpace) == items[i] != "" && ',' !in items[i]
      ensures ParseItem(items[i], number) == Weighed(ops)[i]
    {
      OpReadsBack(ops[i], number);
    }
    SplitJoin(items, ',');
    CleanPartsStay(items);
    assert ParseItems(items, number) == Weighed(ops);
  }
}
