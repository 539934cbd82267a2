/** Verdict reports and the score cache in front of them. */
module Reports {
  import opened Wrappers

  /** The decoded report; `overall` is None when the field is missing or not a boolean. */
  datatype Report = Report(overall: Option<bool>)

  /** One read of the report store: it fails, finds nothing, or finds the report. */
  datatype Answer = ReadFailed | NoReport | Found(report: Report)

  function ScoreOf(r: Report): Option<real> {
    match r.overall
    case None => None
    case Some(pass) => Some(if pass then 1.0 else 0.0)
  }

  function ReadScore(a: Answer): Option<real> {
    if a.Found? then ScoreOf(a.report) else None
  }

  type Scores = map<string, real>

  /** A call of `Score` in two halves: the lookup, and on a miss the read with what follows from it. */
  function Lookup(scores: Scores, workflow: string, terminal: bool): Option<real> {
    if terminal && workflow in scores then Some(scores[workflow]) else None
  }

  function Settle(scores: Scores, workflow: string, a: Answer): Scores {
    match ReadScore(a)
    case None => scores
    case Some(s) => scores[workflow := s]
  }

  class VerdictCache {
    var scores: Scores

    constructor ()
      ensures scores == map[]
    {
      scores := map[];
    }

    /** `asked` tells whether the reader was asked; `a` is what it answers then. */
    method Score(workflow: string, terminal: bool, a: Answer) returns (score: Option<real>, asked: bool)
      modifies this
      ensures asked <==> terminal && workflow !in old(scores)
      ensures score == if asked then ReadScore(a) else Lookup(old(scores), workflow, terminal)
      ensures scores == AfterCall(old(scores), Call(workflow, terminal, a))
      ensures !terminal ==> score == None && scores == old(scores)
      ensures terminal && workflow in old(scores) ==> score == Some(old(scores)[workflow]) && scores == old(scores)
      ensures asked && a == Found(Report(Some(true))) ==> score == Some(1.0)
      ensures asked && a == Found(Report(Some(false))) ==> score == Some(0.0)
      ensures asked && (!a.Found? || a.report.overall.None?) ==> score == None
      ensures asked ==> scores == if score.Some? then old(scores)[workflow := score.value] else old(scores)
    {
      if !terminal {
        return None, false;
      }
      if workflow in scores {
        return Some(scores[workflow]), false;
      }
      asked := true;
      if !a.Found? {
        return None, true;
      }
      if a.report.overall.None? {
        return None, true;
      }
      var s := 0.0;
      if a.report.overall.value {
        s := 1.0;
      }
      scores := scores[workflow := s];
      score := Some(s);
    }
  }

  /** One half-call of some concurrent caller: a lookup, or the second half of a call whose lookup missed. */
  datatype Half =
    | Ask(workflow: string, terminal: bool)
    | Finish(workflow: string, a: Answer)

  function Next(scores: Scores, h: Half): Scores {
    match h
    case Ask(_, _) => scores
    case Finish(w, a) => Settle(scores, w, a)
  }

  function Reply(scores: Scores, h: Half): Option<real> {
    match h
    case Ask(w, t) => Lookup(scores, w, t)
    case Finish(_, a) => ReadScore(a)
  }

  function After(hs: seq<Half>): Scores {
    if hs == [] then map[] else Next(After(hs[..|hs| - 1]), hs[|hs| - 1])
  }

  /** Reads may fail or come too early, but a report that is found is always the one of its workflow. */
  ghost predicate AreImmutable(hs: seq<Half>, truth: map<string, Report>) {
    forall i :: 0 <= i < |hs| && hs[i].Finish? && hs[i].a.Found? ==>
      hs[i].workflow in truth && hs[i].a.report == truth[hs[i].workflow]
  }

  lemma {:induction false} CacheHoldsTruth(hs: seq<Half>, truth: map<string, Report>)
    requires AreImmutable(hs, truth)
    ensures forall w :: w in After(hs) ==> w in truth && ScoreOf(truth[w]) == Some(After(hs)[w])
  {
    if hs != [] {
      var before := hs[..|hs| - 1];
      CacheHoldsTruth(before, truth);
    }
  }

  /** Under every interleaving of callers, a score that is given out is the score of the report. */
  lemma EveryAnswerIsTheReports(hs: seq<Half>, truth: map<string, Report>, i: nat)
    requires AreImmutable(hs, truth) && i < |hs| && Reply(After(hs[..i]), hs[i]).Some?
    ensures hs[i].workflow in truth && truth[hs[i].workflow].overall.Some?
    ensures Reply(After(hs[..i]), hs[i]) == Some(if truth[hs[i].workflow].overall.value then 1.0 else 0.0)
  {
    CacheHoldsTruth(hs[..i], truth);
  }

  lemma {:induction false} CachedStays(hs: seq<Half>, truth: map<string, Report>, i: nat, w: string)
    requires AreImmutable(hs, truth) && i <= |hs| && w in After(hs[..i])
    ensures w in After(hs) && After(hs)[w] == After(hs[..i])[w]
  {
    if i < |hs| {
      var before := hs[..|hs| - 1];
      assert before[..i] == hs[..i];
      CachedStays(before, truth, i, w);
      CacheHoldsTruth(before, truth);
      CacheHoldsTruth(hs, truth);
    } else {
      assert hs[..i] == hs;
    }
  }

  /** Once a score was given for a workflow, every later terminal lookup hits and gives it again, whatever the
      reader does. */
  lemma AnsweredForGood(hs: seq<Half>, truth: map<string, Report>, i: nat, j: nat)
    requires AreImmutable(hs, truth) && i < j < |hs|
    requires Reply(After(hs[..i]), hs[i]).Some?
    requires hs[j].Ask? && hs[j].terminal && hs[j].workflow == hs[i].workflow
    ensures Reply(After(hs[..j]), hs[j]) == Reply(After(hs[..i]), hs[i])
  {
    var w := hs[i].workflow;
    assert hs[..i + 1][..i] == hs[..i];
    assert w in After(hs[..i + 1]) && Some(After(hs[..i + 1])[w]) == Reply(After(hs[..i]), hs[i]);
    assert hs[..j][..i + 1] == hs[..i + 1];
    CachedStays(hs[..j], truth, i + 1, w);
  }

  /** A sequential run: the read of a call follows its missed lookup at once. */
  datatype Call = Call(workflow: string, terminal: bool, a: Answer)

  function AfterCall(scores: Scores, c: Call): Scores {
    if c.terminal && c.workflow !in scores then Settle(scores, c.workflow, c.a) else scores
  }

  function AfterCalls(cs: seq<Call>): Scores {
    if cs == [] then map[] else AfterCall(AfterCalls(cs[..|cs| - 1]), cs[|cs| - 1])
  }

  /** How many reads for `w` brought a usable score. */
  function UsefulReads(cs: seq<Call>, w: string): nat {
    if cs == [] then 0
    else
      var c, before := cs[|cs| - 1], cs[..|cs| - 1];
      UsefulReads(before, w)
        + if c.workflow == w && c.terminal && w !in AfterCalls(before) && ReadScore(c.a).Some? then 1 else 0
  }

  lemma {:induction false} OneUsefulReadEach(cs: seq<Call>, w: string)
    ensures UsefulReads(cs, w) == if w in AfterCalls(cs) then 1 else 0
  {
    if cs != [] {
      OneUsefulReadEach(cs[..|cs| - 1], w);
    }
  }
}
