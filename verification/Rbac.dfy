/** Role bindings: the hand-written parser of the bindings file, and the role of an identity. */
module Rbac {
  import opened Wrappers
  import opened Strings

  type Bindings = map<string, string>

  function Bind(out: Bindings, g: string, role: string): Bindings {
    if g == "" then out else out[g := role]
  }

  function BindAll(out: Bindings, groups: seq<string>, role: string): Bindings {
    if groups == [] then out else Bind(BindAll(out, groups[..|groups| - 1], role), groups[|groups| - 1], role)
  }

  /** The group an item between two commas stands for; nothing but spaces and quotes is none. */
  function GroupOf(item: string): string {
    TrimBy(TrimSpace(item), IsQuote)
  }

  function GroupsOf(items: seq<string>): seq<string> {
    seq(|items|, i requires 0 <= i < |items| => GroupOf(items[i]))
  }

  /** What stands after the colon, without its brackets. */
  function ListOf(rest: string): string {
    TrimSuffix(TrimPrefix(TrimSpace(rest), '['), ']')
  }

  function ReadLine(out: Bindings, raw: string): Bindings {
    ReadTrimmed(out, TrimSpace(raw))
  }

  function ReadTrimmed(out: Bindings, line: string): Bindings {
    if line == "" || line[0] == '#' then out
    else
      var colon := Index(line, ':');
      if colon == -1 then out else ReadAt(out, line, colon)
  }

  function ReadAt(out: Bindings, line: string, colon: nat): Bindings
    requires colon < |line|
  {
    BindAll(out, GroupsOf(Split(ListOf(line[colon + 1..]), ',')), TrimSpace(line[..colon]))
  }

  function ReadLines(lines: seq<string>): Bindings {
    if lines == [] then map[] else ReadLine(ReadLines(lines[..|lines| - 1]), lines[|lines| - 1])
  }

  function Read(text: string): Bindings {
    ReadLines(Split(text, '\n'))
  }

  /** The parser; it fails only when the config map lacks the key. */
  method ParseBindings(data: map<string, string>) returns (r: Result<Bindings, string>)
    ensures r == if "bindings.yaml" in data then Success(Read(data["bindings.yaml"]))
                 else Failure("configmap missing bindings.yaml key")
  {
    if "bindings.yaml" !in data {
      return Failure("configmap missing bindings.yaml key");
    }
    var out: Bindings := map[];
    var lines := Split(data["bindings.yaml"], '\n');
    for i := 0 to |lines|
      invariant out == ReadLines(lines[..i])
    {
      assert lines[..i + 1][..i] == lines[..i];
      out := BindLine(out, lines[i]);
    }
    assert lines[..|lines|] == lines;
    return Success(out);
  }

  /** The body of the loop over the lines. */
  method BindLine(start: Bindings, raw: string) returns (out: Bindings)
    ensures out == ReadLine(start, raw)
  {
    out := BindTrimmed(start, TrimSpace(raw));
  }

  method BindTrimmed(start: Bindings, line: string) returns (out: Bindings)
    ensures out == ReadTrimmed(start, line)
  {
    if line == "" || line[0] == '#' {
      return start;
    }
    var colon := Index(line, ':');
    if colon == -1 {
      return start;
    }
    out := BindAt(start, line, colon);
  }

  method BindAt(start: Bindings, line: string, colon: nat) returns (out: Bindings)
    requires colon < |line|
    ensures out == ReadAt(start, line, colon)
  {
    var role := TrimSpace(line[..colon]);
    var list := TakeList(line[colon + 1..]);
    out := BindItems(start, Split(list, ','), role);
  }

  method TakeList(tail: string) returns (rest: string)
    ensures rest == ListOf(tail)
  {
    rest := TrimSpace(tail);
    rest := TrimPrefix(rest, '[');
    rest := TrimSuffix(rest, ']');
  }

  method BindItems(start: Bindings, items: seq<string>, role: string) returns (out: Bindings)
    ensures out == BindAll(start, GroupsOf(items), role)
  {
    out := start;
    for i := 0 to |items|
      invariant out == BindAll(start, GroupsOf(items)[..i], role)
    {
      assert GroupsOf(items)[..i + 1] == GroupsOf(items)[..i] + [GroupOf(items[i])];
      BindAllSnoc(start, GroupsOf(items)[..i], GroupOf(items[i]), role);
      var g := GroupOf(items[i]);
      if g == "" {
        continue;
      }
      out := out[g := role];
    }
    assert GroupsOf(items)[..|items|] == GroupsOf(items);
  }

  lemma BindAllSnoc(out: Bindings, groups: seq<string>, g: string, role: string)
    ensures BindAll(out, groups + [g], role) == Bind(BindAll(out, groups, role), g, role)
  {
    assert (groups + [g])[..|groups|] == groups;
  }

  /** A bindings file as its author means it. */
  datatype Line =
    | Binding(role: string, groups: seq<string>)
    | Comment(text: string)
    | Blank(spaces: string)
    | Colonless(text: string)

  function Quoted(g: string): string {
    "\"" + (g + "\"")
  }

  function Quotes(groups: seq<string>): seq<string> {
    seq(|groups|, i requires 0 <= i < |groups| => Quoted(groups[i]))
  }

  function PrintLine(l: Line): string {
    match l
    case Binding(role, groups) => Row(role, Join(Quotes(groups), ", "))
    case Comment(text) => "#" + text
    case Blank(spaces) => spaces
    case Colonless(text) => text
  }

  function PrintLines(doc: seq<Line>): seq<string> {
    seq(|doc|, i requires 0 <= i < |doc| => PrintLine(doc[i]))
  }

  function Print(doc: seq<Line>): string {
    Join(PrintLines(doc), "\n")
  }

  predicate IsCleanGroup(g: string) {
    g != "" && ',' !in g && '\n' !in g && g[0] != '"' && g[|g| - 1] != '"'
  }

  predicate IsCleanRole(role: string) {
    ':' !in role && '\n' !in role && HasCleanEdges(role, IsSpace) && (role != "" ==> role[0] != '#')
  }

  predicate IsCleanLine(l: Line) {
    match l
    case Binding(role, groups) => IsCleanRole(role) && forall i :: 0 <= i < |groups| ==> IsCleanGroup(groups[i])
    case Comment(text) => '\n' !in text
    case Blank(spaces) => '\n' !in spaces && All(spaces, IsSpace)
    case Colonless(text) => '\n' !in text && ':' !in text
  }

  /** All of `groups` bound to one role. */
  function Roled(groups: seq<string>, role: string): Bindings {
    map g | g in groups :: role
  }

  lemma RoledSnoc(out: Bindings, groups: seq<string>, g: string, role: string)
    ensures (out + Roled(groups, role))[g := role] == out + Roled(groups + [g], role)
  {
  }

  /** The meaning of a file: each group has the role of the last line that lists it. */
  function Meaning(doc: seq<Line>): Bindings {
    if doc == [] then map[]
    else
      var l, before := doc[|doc| - 1], Meaning(doc[..|doc| - 1]);
      if l.Binding? then before + Roled(l.groups, l.role) else before
  }

  /** The items between the commas: all but the first start with a space. */
  function Items(groups: seq<string>): seq<string> {
    seq(|groups|, i requires 0 <= i < |groups| => if i == 0 then Quoted(groups[i]) else " " + Quoted(groups[i]))
  }

  function Spaced(groups: seq<string>): seq<string> {
    seq(|groups|, i requires 0 <= i < |groups| => " " + Quoted(groups[i]))
  }

  lemma QuotesTail(groups: seq<string>)
    requires groups != []
    ensures Quotes(groups)[1..] == Quotes(groups[1..]) && Spaced(groups)[1..] == Spaced(groups[1..])
    ensures Items(groups)[1..] == Spaced(groups[1..])
  {
  }

  /** A space before the first part and spaces after the commas. */
  lemma CommaSpace(q: string, j: string)
    ensures q + (", " + j) == q + ([','] + (" " + j))
    ensures " " + (q + (", " + j)) == (" " + q) + ([','] + (" " + j))
  {
    assert ", " == [','] + " ";
  }

  lemma {:induction false} SpacedJoin(groups: seq<string>)
    requires groups != []
    ensures " " + Join(Quotes(groups), ", ") == Join(Spaced(groups), [','])
  {
    if |groups| > 1 {
      SpacedJoin(groups[1..]);
      QuotesTail(groups);
      CommaSpace(Quoted(groups[0]), Join(Quotes(groups[1..]), ", "));
    }
  }

  lemma ItemsJoin(groups: seq<string>)
    requires groups != []
    ensures Join(Quotes(groups), ", ") == Join(Items(groups), [','])
  {
    if |groups| > 1 {
      SpacedJoin(groups[1..]);
      QuotesTail(groups);
      CommaSpace(Quoted(groups[0]), Join(Quotes(groups[1..]), ", "));
    }
  }

  lemma GroupReadsBack(g: string, item: string)
    requires IsCleanGroup(g) && (item == Quoted(g) || item == " " + Quoted(g))
    ensures GroupOf(item) == g
  {
    var q := Quoted(g);
    assert HasCleanEdges(q, IsSpace);
    if item == q {
      TrimClean(q, IsSpace);
    } else {
      TrimFinds(" ", q, "", IsSpace);
      assert q + "" == q;
    }
    TrimFinds("\"", g, "\"", IsQuote);
  }

  lemma GroupsReadBack(groups: seq<string>)
    requires forall i :: 0 <= i < |groups| ==> IsCleanGroup(groups[i])
    ensures GroupsOf(Items(groups)) == groups
  {
    forall i | 0 <= i < |groups| ensures GroupOf(Items(groups)[i]) == groups[i] {
      GroupReadsBack(groups[i], Items(groups)[i]);
    }
  }

  lemma {:induction false} GroupsBind(out: Bindings, groups: seq<string>, role: string)
    requires forall i :: 0 <= i < |groups| ==> groups[i] != ""
    ensures BindAll(out, groups, role) == out + Roled(groups, role)
  {
    if groups == [] {
      assert out + Roled(groups, role) == out;
    } else {
      var front, g := groups[..|groups| - 1], groups[|groups| - 1];
      GroupsBind(out, front, role);
      RoledSnoc(out, front, g, role);
      assert groups == front + [g];
    }
  }

  lemma ListBinds(out: Bindings, groups: seq<string>, role: string)
    requires forall i :: 0 <= i < |groups| ==> IsCleanGroup(groups[i])
    ensures BindAll(out, GroupsOf(Split(Join(Quotes(groups), ", "), ',')), role) == out + Roled(groups, role)
  {
    if groups == [] {
      EmptyListBinds(out, role);
      assert out + Roled(groups, role) == out;
    } else {
      ItemsJoin(groups);
      forall i | 0 <= i < |groups| ensures ',' !in Items(groups)[i] {
        assert IsCleanGroup(groups[i]);
      }
      SplitJoin(Items(groups), ',');
      GroupsReadBack(groups);
      GroupsBind(out, groups, role);
    }
  }

  lemma EmptyListBinds(out: Bindings, role: string)
    ensures BindAll(out, GroupsOf(Split("", ',')), role) == out
  {
    var groups := GroupsOf(Split("", ','));
    assert groups == [""];
    assert groups[..0] == [];
  }

  function Row(role: string, list: string): string {
    role + ([':'] + (" " + ("[" + (list + "]"))))
  }

  lemma RowIsTrimmed(role: string, list: string)
    requires IsCleanRole(role)
    ensures var line := Row(role, list); line != "" && line[0] != '#' && TrimSpace(line) == line
  {
    var line := Row(role, list);
    assert line[|line| - 1] == ']';
    assert line[0] == if role == "" then ':' else role[0];
    TrimClean(line, IsSpace);
  }

  lemma RowSplitsAtColon(role: string, list: string)
    requires IsCleanRole(role)
    ensures var line := Row(role, list);
      && Index(line, ':') == |role| && TrimSpace(line[..|role|]) == role
      && line[|role| + 1..] == " " + ("[" + (list + "]"))
  {
    IndexAfter(role, ':', " " + ("[" + (list + "]")));
    assert Row(role, list)[..|role|] == role;
    TrimClean(role, IsSpace);
  }

  lemma BracketsComeOff(list: string)
    ensures ListOf(" " + ("[" + (list + "]"))) == list
  {
    var boxed := "[" + (list + "]");
    TrimFinds(" ", boxed, "", IsSpace);
    assert boxed + "" == boxed;
    assert TrimPrefix(boxed, '[') == list + "]";
    assert TrimSuffix(list + "]", ']') == list;
  }

  lemma ReadLineParts(out: Bindings, line: string, colon: nat, role: string, tail: string, list: string)
    requires TrimSpace(line) == line && line != "" && line[0] != '#'
    requires colon < |line| && Index(line, ':') == colon
    requires TrimSpace(line[..colon]) == role && line[colon + 1..] == tail
    requires ListOf(tail) == list
    ensures ReadLine(out, line) == BindAll(out, GroupsOf(Split(list, ',')), role)
  {
  }

  /** A printed binding line is read back as it was meant. */
  lemma BindingReadsBack(out: Bindings, role: string, groups: seq<string>)
    requires IsCleanLine(Binding(role, groups))
    ensures ReadLine(out, PrintLine(Binding(role, groups))) == out + Roled(groups, role)
  {
    var list := Join(Quotes(groups), ", ");
    RowIsTrimmed(role, list);
    RowSplitsAtColon(role, list);
    BracketsComeOff(list);
    ReadLineParts(out, Row(role, list), |role|, role, " " + ("[" + (list + "]")), list);
    ListBinds(out, groups, role);
  }

  lemma BlankReadsAsNothing(out: Bindings, spaces: string)
    requires All(spaces, IsSpace)
    ensures ReadLine(out, spaces) == out
  {
    TrimsToNothing(spaces, IsSpace);
  }

  lemma CommentReadsAsNothing(out: Bindings, text: string)
    ensures ReadLine(out, "#" + text) == out
  {
    var line := "#" + text;
    assert TrimLeft(line, IsSpace) == line;
    TrimRightKeepsFirst(line, IsSpace);
  }

  lemma ColonlessReadsAsNothing(out: Bindings, text: string)
    requires ':' !in text
    ensures ReadLine(out, text) == out
  {
    TrimAddsNothing(text, IsSpace, ':');
  }

  lemma NoiseReadsAsNothing(out: Bindings, l: Line)
    requires IsCleanLine(l) && !l.Binding?
    ensures ReadLine(out, PrintLine(l)) == out
  {
    match l {
      case Comment(text) => CommentReadsAsNothing(out, text);
      case Blank(spaces) => BlankReadsAsNothing(out, spaces);
      case Colonless(text) => ColonlessReadsAsNothing(out, text);
    }
  }

  lemma {:induction false} LinesReadBack(doc: seq<Line>)
    requires forall i :: 0 <= i < |doc| ==> IsCleanLine(doc[i])
    ensures ReadLines(PrintLines(doc)) == Meaning(doc)
  {
    if doc != [] {
      var n := |doc| - 1;
      LinesReadBack(doc[..n]);
      assert PrintLines(doc)[..n] == PrintLines(doc[..n]);
      if doc[n].Binding? {
        BindingReadsBack(Meaning(doc[..n]), doc[n].role, doc[n].groups);
      } else {
        NoiseReadsAsNothing(Meaning(doc[..n]), doc[n]);
      }
    }
  }

  lemma {:induction false} JoinAvoids(parts: seq<string>, sep: string, c: char)
    requires c !in sep && forall i :: 0 <= i < |parts| ==> c !in parts[i]
    ensures c !in Join(parts, sep)
  {
    if |parts| > 1 {
      JoinAvoids(parts[1..], sep, c);
    }
  }

  lemma LineStaysOnLine(l: Line)
    requires IsCleanLine(l)
    ensures '\n' !in PrintLine(l)
  {
    if l.Binding? {
      forall i | 0 <= i < |l.groups| ensures '\n' !in Quotes(l.groups)[i] {
        assert IsCleanGroup(l.groups[i]);
      }
      JoinAvoids(Quotes(l.groups), ", ", '\n');
    }
  }

  /** Parsing undoes printing, with comments and blank lines anywhere between. */
  lemma ParsingUndoesPrinting(doc: seq<Line>)
    requires forall i :: 0 <= i < |doc| ==> IsCleanLine(doc[i])
    ensures Read(Print(doc)) == Meaning(doc)
  {
    if doc == [] {
      var lines := Split("", '\n');
      assert lines == [""] && lines[..0] == [];
      assert PrintLines(doc) == [];
      assert ReadLine(map[], "") == map[];
    } else {
      forall i | 0 <= i < |doc| ensures '\n' !in PrintLines(doc)[i] {
        LineStaysOnLine(doc[i]);
      }
      SplitJoin(PrintLines(doc), '\n');
      LinesReadBack(doc);
    }
  }

  const VIEWER := "viewer"
  const RUNNER := "runner"
  const ADMIN := "admin"

  function Rank(role: string): nat {
    if role == VIEWER then 1 else if role == RUNNER then 2 else if role == ADMIN then 3 else 0
  }

  predicate IsAtLeast(role: string, want: string) {
    Rank(role) >= Rank(want)
  }

  /** The greatest of viewer and the known roles bound to the groups. */
  ghost predicate IsHighest(best: string, groups: seq<string>, bindings: Bindings) {
    && Rank(best) > 0
    && (best == VIEWER || exists g :: g in groups && g in bindings && bindings[g] == best)
    && (forall g :: g in groups && g in bindings ==> Rank(bindings[g]) <= Rank(best))
  }

  /** Some of the groups is bound to this role. */
  predicate IsBoundTo(role: string, groups: seq<string>, bindings: Bindings) {
    exists g :: g in groups && g in bindings && bindings[g] == role
  }

  /** Admin if any group is bound to it, else runner if any is, else viewer; unknown roles give nothing. */
  lemma HighestIsExact(best: string, groups: seq<string>, bindings: Bindings)
    requires IsHighest(best, groups, bindings)
    ensures best == if IsBoundTo("admin", groups, bindings) then "admin"
                    else if IsBoundTo("runner", groups, bindings) then "runner"
                    else "viewer"
  {
    assert "viewer"[0] != "runner"[0] && "viewer"[0] != "admin"[0] && "runner"[0] != "admin"[0];
  }

  method Resolve(groups: seq<string>, bindings: Bindings) returns (best: string)
    ensures IsHighest(best, groups, bindings)
    ensures best == if IsBoundTo("admin", groups, bindings) then "admin"
                    else if IsBoundTo("runner", groups, bindings) then "runner"
                    else "viewer"
  {
    best := VIEWER;
    for i := 0 to |groups|
      invariant IsHighest(best, groups[..i], bindings)
    {
      var g := groups[i];
      assert groups[..i + 1] == groups[..i] + [g];
      if g in bindings && IsAtLeast(bindings[g], best) {
        best := bindings[g];
      }
    }
    assert groups[..|groups|] == groups;
    HighestIsExact(best, groups, bindings);
  }

  /** The resolved role depends on the set of groups alone: neither their order nor repetitions matter. */
  lemma HighestIsUnique(a: string, b: string, gs: seq<string>, hs: seq<string>, bindings: Bindings)
    requires IsHighest(a, gs, bindings) && IsHighest(b, hs, bindings)
    requires forall g :: g in gs <==> g in hs
    ensures a == b
  {
    assert Rank(a) <= Rank(b) && Rank(b) <= Rank(a) by {
      assert |VIEWER| == 6 && |RUNNER| == 6 && |ADMIN| == 5;
    }
  }
}
