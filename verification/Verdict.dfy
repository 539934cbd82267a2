/** The verdict of a run: service level objectives checked over the windows of the run. */
module Verdict {
  import opened Wrappers

  type Error = string

  const MAX_DURATION := 0x7fff_ffff_ffff_ffff

  /** Nanoseconds in a signed 64-bit word. */
  type Duration = n: int | -0x8000_0000_0000_0000 <= n <= MAX_DURATION

  function Wrap64(n: int): (r: Duration)
    ensures r == n <==> -0x8000_0000_0000_0000 <= n <= MAX_DURATION
  {
    (n + 0x8000_0000_0000_0000) % 0x1_0000_0000_0000_0000 - 0x8000_0000_0000_0000
  }

  datatype Params = Params(loadStart: int, chaosStartAfter: Duration, chaosDuration: Duration, loadDuration: Duration)

  datatype Window = Window(start: int, end: int)

  /** The validation of the parameters; the sum of two durations wraps around. */
  predicate IsAccepted(p: Params) {
    && !(p.chaosStartAfter < 0 || p.chaosDuration <= 0 || p.loadDuration <= 0)
    && !(Wrap64(p.chaosStartAfter + p.chaosDuration) > p.loadDuration)
  }

  const BASELINE := "baseline"
  const CHAOS := "chaos"
  const RECOVERY := "recovery"
  const FULL := "full"

  predicate IsWindowName(w: string) {
    w == BASELINE || w == CHAOS || w == RECOVERY || w == FULL
  }

  function Compute(p: Params, w: string): Result<Window, Error> {
    if !IsAccepted(p) then Failure("window: bad durations")
    else
      var chaosStart := p.loadStart + p.chaosStartAfter;
      var chaosEnd := chaosStart + p.chaosDuration;
      var loadEnd := p.loadStart + p.loadDuration;
      if w == BASELINE then Success(Window(p.loadStart, chaosStart))
      else if w == CHAOS then Success(Window(chaosStart, chaosEnd))
      else if w == RECOVERY then Success(Window(chaosEnd, loadEnd))
      else if w == FULL then Success(Window(p.loadStart, loadEnd))
      else Failure("window: unknown window")
  }

  lemma NamesDiffer()
    ensures BASELINE != CHAOS && BASELINE != RECOVERY && BASELINE != FULL && CHAOS != RECOVERY && CHAOS != FULL
        && RECOVERY != FULL
  {
    assert |BASELINE| == 8 && |CHAOS| == 5 && |FULL| == 4;
    assert BASELINE[0] != RECOVERY[0];
  }

  predicate Within(w: Window, full: Window) {
    full.start <= w.start <= w.end <= full.end
  }

  /** Which parameters are accepted: those whose durations make sense and whose chaos ends within the load, and those
      whose sum of durations overflows. */
  lemma AcceptedIff(p: Params)
    ensures IsAccepted(p) <==>
      && 0 <= p.chaosStartAfter && 0 < p.chaosDuration && 0 < p.loadDuration
      && (p.chaosStartAfter + p.chaosDuration <= p.loadDuration ||
          p.chaosStartAfter + p.chaosDuration >= 0x8000_0000_0000_0000)
  {
  }

  /** The window of this name: up to the start of chaos, during chaos, from then to the end of the load, or all of
      it. */
  predicate IsWindowOf(w: Window, name: string, p: Params) {
    || (name == "baseline" && w == Window(p.loadStart, p.loadStart + p.chaosStartAfter))
    || (name == "chaos" && w.start == p.loadStart + p.chaosStartAfter && w.end == w.start + p.chaosDuration)
    || (name == "recovery" && w.start == p.loadStart + p.chaosStartAfter + p.chaosDuration
          && w.end == p.loadStart + p.loadDuration)
    || (name == "full" && w == Window(p.loadStart, p.loadStart + p.loadDuration))
  }

  /** Every window is where its name says; for another name there is none. */
  lemma WindowsAreExact(p: Params, name: string, w: Window)
    requires IsAccepted(p)
    ensures Compute(p, name) == Success(w) <==> IsWindowOf(w, name, p)
    ensures Compute(p, name).Success? <==> name == "baseline" || name == "chaos" || name == "recovery" || name == "full"
  {
    NamesDiffer();
  }

  /** For accepted parameters, baseline, chaos and recovery follow each other without gap or overlap from the start to
      the end of the load; they all stay inside it if and only if the two durations did not overflow. */
  lemma WindowsTile(p: Params, b: Window, c: Window, r: Window, f: Window)
    requires IsAccepted(p)
    requires Compute(p, "baseline") == Success(b) && Compute(p, "chaos") == Success(c)
    requires Compute(p, "recovery") == Success(r) && Compute(p, "full") == Success(f)
    ensures b.start == f.start == p.loadStart && b.end == c.start && c.end == r.start
    ensures r.end == f.end == p.loadStart + p.loadDuration
    ensures p.chaosStartAfter + p.chaosDuration <= MAX_DURATION <==> Within(b, f) && Within(c, f) && Within(r, f)
  {
    WindowsAreExact(p, "baseline", b);
    WindowsAreExact(p, "chaos", c);
    WindowsAreExact(p, "recovery", r);
    WindowsAreExact(p, "full", f);
    NamesDiffer();
  }

  /** Parameters that pass the validation although chaos ends long after the load. */
  lemma OverflowIsAccepted() returns (p: Params)
    ensures IsAccepted(p) && p.loadDuration == 1
    ensures Compute(p, CHAOS).Success? && Compute(p, CHAOS).value.end == p.loadStart + MAX_DURATION + 1
  {
    p := Params(0, MAX_DURATION, 1, 1);
    assert Wrap64(MAX_DURATION + 1) == -0x8000_0000_0000_0000;
    NamesDiffer();
  }

  datatype Threshold = Threshold(metric: string, query: string, lt: Option<real>, gt: Option<real>, window: string)

  datatype Slo = Slo(thresholds: seq<Threshold>, rawPromQl: string, rawWindow: string)

  predicate IsValidThreshold(t: Threshold) {
    t.metric != "" && t.query != "" && (t.lt.None? <==> t.gt.Some?) && IsWindowName(t.window)
  }

  predicate IsValidSlo(s: Slo) {
    && (s.thresholds != [] || s.rawPromQl != "")
    && (forall i :: 0 <= i < |s.thresholds| ==> IsValidThreshold(s.thresholds[i]))
    && (s.rawPromQl != "" ==> IsWindowName(s.rawWindow))
  }

  /** What a threshold needs to be accepted: a metric, a query, exactly one bound and a window by its name. */
  lemma ValidThresholdIff(t: Threshold)
    ensures IsValidThreshold(t) <==>
      && t.metric != "" && t.query != ""
      && ((t.lt.Some? && t.gt.None?) || (t.lt.None? && t.gt.Some?))
      && (t.window == "baseline" || t.window == "chaos" || t.window == "recovery" || t.window == "full")
  {
  }

  lemma ValidSloIff(s: Slo)
    ensures IsValidSlo(s) <==>
      && (s.thresholds == [] ==> s.rawPromQl != "")
      && (forall t :: t in s.thresholds ==> IsValidThreshold(t))
      && (s.rawPromQl == "" || s.rawWindow == "baseline" || s.rawWindow == "chaos" || s.rawWindow == "recovery" ||
          s.rawWindow == "full")
  {
  }

  method ValidateSlo(s: Slo) returns (err: Option<Error>)
    ensures err.None? <==> IsValidSlo(s)
  {
    if |s.thresholds| == 0 && s.rawPromQl == "" {
      return Some("slo: at least one threshold or raw_promql required");
    }
    for i := 0 to |s.thresholds|
      invariant forall j :: 0 <= j < i ==> IsValidThreshold(s.thresholds[j])
    {
      var t := s.thresholds[i];
      if t.metric == "" {
        return Some("slo: metric empty");
      }
      if t.query == "" {
        return Some("slo: query empty");
      }
      if t.lt.None? == t.gt.None? {
        return Some("slo: exactly one of lt/gt required");
      }
      if !IsWindowName(t.window) {
        return Some("slo: invalid window");
      }
    }
    if s.rawPromQl != "" && !IsWindowName(s.rawWindow) {
      return Some("slo: raw_window required");
    }
    return None;
  }

  /** The metrics server: the answer to the n-th query of an evaluation, for an expression and an instant. */
  type Api = (nat, string, int) -> Result<real, Error>

  datatype ThresholdResult = ThresholdResult(threshold: Threshold, window: Window, value: real, passed: bool)

  datatype Raw = Raw(query: string, value: real, passed: bool)

  datatype Report = Report(
    overall: bool, thresholds: seq<ThresholdResult>, raw: Option<Raw>, chaosStart: int, chaosEnd: int)

  /** The strict bound of a threshold. */
  predicate Meets(t: Threshold, v: real) {
    if t.lt.Some? then v < t.lt.value else t.gt.Some? && v > t.gt.value
  }

  /** The value of query `n`, taken at the end of its window. */
  function Measured(n: nat, query: string, window: string, p: Params, api: Api): Result<(Window, real), Error> {
    match Compute(p, window)
    case Failure(e) => Failure(e)
    case Success(w) =>
      match api(n, query, w.end)
      case Failure(e) => Failure(e)
      case Success(v) => Success((w, v))
  }

  function MeasuredFor(i: nat, s: Slo, p: Params, api: Api): Result<(Window, real), Error>
    requires i < |s.thresholds|
  {
    Measured(i, s.thresholds[i].query, s.thresholds[i].window, p, api)
  }

  function MeasuredRaw(s: Slo, p: Params, api: Api): Result<(Window, real), Error> {
    Measured(|s.thresholds|, s.rawPromQl, s.rawWindow, p, api)
  }

  ghost predicate IsResultFor(t: ThresholdResult, i: nat, s: Slo, p: Params, api: Api)
    requires i < |s.thresholds|
  {
    && MeasuredFor(i, s, p, api) == Success((t.window, t.value))
    && t.threshold == s.thresholds[i]
    && (t.passed <==> Meets(t.threshold, t.value))
  }

  predicate IsRawFor(raw: Raw, s: Slo, p: Params, api: Api) {
    && raw.query == s.rawPromQl
    && MeasuredRaw(s, p, api).Success? && raw.value == MeasuredRaw(s, p, api).value.1
    && (raw.passed <==> raw.value == 1.0)
  }

  predicate AllPassed(ts: seq<ThresholdResult>) {
    forall i :: 0 <= i < |ts| ==> ts[i].passed
  }

  lemma AllPassedSnoc(ts: seq<ThresholdResult>, t: ThresholdResult)
    ensures AllPassed(ts + [t]) <==> AllPassed(ts) && t.passed
  {
    assert (ts + [t])[|ts|] == t;
    assert forall i :: 0 <= i < |ts| ==> (ts + [t])[i] == ts[i];
  }

  /** Everything was measured, one result stands for each threshold in order, and the whole passes when every part
      does. */
  ghost predicate IsReport(r: Report, s: Slo, p: Params, api: Api) {
    && |r.thresholds| == |s.thresholds|
    && (forall i :: 0 <= i < |s.thresholds| ==> IsResultFor(r.thresholds[i], i, s, p, api))
    && (r.raw.Some? <==> s.rawPromQl != "")
    && (r.raw.Some? ==> IsRawFor(r.raw.value, s, p, api))
    && (r.overall <==> AllPassed(r.thresholds) && (r.raw.Some? ==> r.raw.value.passed))
    && r.chaosStart == p.loadStart + p.chaosStartAfter && r.chaosEnd == r.chaosStart + p.chaosDuration
  }

  /** The error of the first measurement that failed. */
  ghost predicate IsFirstFailure(e: Error, s: Slo, p: Params, api: Api) {
    || (exists i :: 0 <= i < |s.thresholds| && MeasuredFor(i, s, p, api) == Failure(e)
          && forall j :: 0 <= j < i ==> MeasuredFor(j, s, p, api).Success?)
    || ((forall j :: 0 <= j < |s.thresholds| ==> MeasuredFor(j, s, p, api).Success?)
          && s.rawPromQl != "" && MeasuredRaw(s, p, api) == Failure(e))
  }

  /** The body of the loop over the thresholds. */
  method Check(i: nat, s: Slo, api: Api, p: Params) returns (r: Result<ThresholdResult, Error>)
    requires i < |s.thresholds|
    ensures r.Failure? ==> MeasuredFor(i, s, p, api) == Failure(r.error)
    ensures r.Success? ==> IsResultFor(r.value, i, s, p, api)
  {
    var t := s.thresholds[i];
    var w := Compute(p, t.window);
    if w.Failure? {
      return Failure(w.error);
    }
    var v := api(i, t.query, w.value.end);
    if v.Failure? {
      return Failure(v.error);
    }
    var passed := false;
    if t.lt.Some? {
      passed := v.value < t.lt.value;
    } else if t.gt.Some? {
      passed := v.value > t.gt.value;
    }
    return Success(ThresholdResult(t, w.value, v.value, passed));
  }

  method Evaluate(s: Slo, api: Api, p: Params) returns (r: Result<Report, Error>)
    ensures r.Success? ==> IsReport(r.value, s, p, api)
    ensures r.Failure? ==> IsFirstFailure(r.error, s, p, api)
  {
    var chaosStart := p.loadStart + p.chaosStartAfter;
    var out := Report(true, [], None, chaosStart, chaosStart + p.chaosDuration);
    for i := 0 to |s.thresholds|
      invariant |out.thresholds| == i && out.raw.None?
      invariant forall j :: 0 <= j < i ==> IsResultFor(out.thresholds[j], j, s, p, api)
      invariant forall j :: 0 <= j < i ==> MeasuredFor(j, s, p, api).Success?
      invariant out.overall <==> AllPassed(out.thresholds)
      invariant out.chaosStart == chaosStart && out.chaosEnd == chaosStart + p.chaosDuration
    {
      var got := Check(i, s, api, p);
      if got.Failure? {
        return Failure(got.error);
      }
      AllPassedSnoc(out.thresholds, got.value);
      out := out.(thresholds := out.thresholds + [got.value]);
      if !got.value.passed {
        out := out.(overall := false);
      }
    }
    if s.rawPromQl != "" {
      var w := Compute(p, s.rawWindow);
      if w.Failure? {
        return Failure(w.error);
      }
      var v := api(|s.thresholds|, s.rawPromQl, w.value.end);
      if v.Failure? {
        return Failure(v.error);
      }
      out := out.(raw := Some(Raw(s.rawPromQl, v.value, v.value == 1.0)));
      if !out.raw.value.passed {
        out := out.(overall := false);
      }
    }
    return Success(out);
  }

  ghost predicate NeverFails(api: Api) {
    forall n, q, t :: api(n, q, t).Success?
  }

  /** For an accepted objective and accepted parameters, with a server that answers, nothing can fail. */
  lemma NothingFails(s: Slo, p: Params, api: Api, e: Error)
    requires IsValidSlo(s) && IsAccepted(p) && NeverFails(api)
    ensures !IsFirstFailure(e, s, p, api)
  {
    NamesDiffer();
    forall i | 0 <= i < |s.thresholds| ensures MeasuredFor(i, s, p, api).Success? {
      var t := s.thresholds[i];
      assert IsValidThreshold(t);
      assert api(i, t.query, Compute(p, t.window).value.end).Success?;
    }
    if s.rawPromQl != "" {
      assert api(|s.thresholds|, s.rawPromQl, Compute(p, s.rawWindow).value.end).Success?;
    }
  }

  predicate IsDuringLoad(t: int, p: Params) {
    p.loadStart <= t <= p.loadStart + p.loadDuration
  }

  /** Verdict soundness: one result stands for each threshold in order, with the value at the end of the window its
      name says; the report passes exactly when every value meets the one strict bound of its threshold and a raw
      query yields 1 at the end of its window; without overflow all these instants lie inside the load run. A chaos
      result is about the chaos window the report names. */
  lemma VerdictIsSound(r: Report, s: Slo, p: Params, api: Api)
    requires IsValidSlo(s) && IsAccepted(p) && NeverFails(api) && IsReport(r, s, p, api)
    ensures |r.thresholds| == |s.thresholds|
    ensures forall i :: 0 <= i < |s.thresholds| ==>
      var t, got := s.thresholds[i], r.thresholds[i];
      && got.threshold == t && IsWindowOf(got.window, t.window, p) && got.value == api(i, t.query, got.window.end).value
      && (got.passed <==> (t.lt.Some? ==> got.value < t.lt.value) && (t.gt.Some? ==> got.value > t.gt.value))
      && (t.window == "chaos" ==> got.window == Window(r.chaosStart, r.chaosEnd))
    ensures r.raw.Some? <==> s.rawPromQl != ""
    ensures forall w | r.raw.Some? && IsWindowOf(w, s.rawWindow, p) ::
      && r.raw.value.value == api(|s.thresholds|, s.rawPromQl, w.end).value
      && (r.raw.value.passed <==> r.raw.value.value == 1.0)
    ensures r.overall <==>
      && (forall i :: 0 <= i < |r.thresholds| ==> r.thresholds[i].passed)
      && (r.raw.Some? ==> r.raw.value.passed)
    ensures p.chaosStartAfter + p.chaosDuration <= MAX_DURATION ==>
      && (forall i :: 0 <= i < |r.thresholds| ==> IsDuringLoad(r.thresholds[i].window.end, p))
      && (forall w :: r.raw.Some? && IsWindowOf(w, s.rawWindow, p) ==> IsDuringLoad(w.end, p))
  {
    forall i | 0 <= i < |s.thresholds|
      ensures var t, got := s.thresholds[i], r.thresholds[i];
        && got.threshold == t && IsWindowOf(got.window, t.window, p)
        && got.value == api(i, t.query, got.window.end).value
        && (got.passed <==> (t.lt.Some? ==> got.value < t.lt.value) && (t.gt.Some? ==> got.value > t.gt.value))
    {
      var t, got := s.thresholds[i], r.thresholds[i];
      assert IsValidThreshold(t) && IsResultFor(got, i, s, p, api);
      WindowsAreExact(p, t.window, got.window);
    }
    if r.raw.Some? {
      forall w | IsWindowOf(w, s.rawWindow, p) ensures Compute(p, s.rawWindow) == Success(w) {
        WindowsAreExact(p, s.rawWindow, w);
      }
    }
  }
}
