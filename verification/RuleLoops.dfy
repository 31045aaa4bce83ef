/** The loops behind the rules (internal/rca/rules/helpers.go, internal/domain/timeline.go,
    internal/rca/engine.go), each proved against the function the theorems are about. */
module RuleLoops {
  import opened Text
  import opened Domain
  import opened LatencyStages
  import opened Verdicts
  import opened Rules
  import opened Engine
  import opened Readings

  // ------------------------------------------------------------- timelines

  method FindFirst(obs: seq<Observation>, kind: Kind) returns (r: Option<Observation>)
    ensures r == FirstOf(obs, kind)
  {
    for i := 0 to |obs|
      invariant FirstOf(obs, kind) == FirstOf(obs[i..], kind)
    {
      if obs[i].kind == kind { return Some(obs[i]); }
      assert obs[i..][1..] == obs[i + 1..];
    }
    r := None;
  }

  /** Scans backwards. */
  method FindLast(obs: seq<Observation>, kind: Kind) returns (r: Option<Observation>)
    ensures r == LastOf(obs, kind)
  {
    var i := |obs|;
    assert obs[..i] == obs;
    while i > 0
      invariant 0 <= i <= |obs| && LastOf(obs, kind) == LastOf(obs[..i], kind)
    {
      i := i - 1;
      assert obs[..i + 1][..i] == obs[..i];
      if obs[i].kind == kind { return Some(obs[i]); }
    }
    r := None;
  }

  /** The freshest sample of a metric; the first one listed among equally fresh ones. */
  method FindSampleValue(samples: seq<Sample>, component: Component, name: string) returns (r: Option<Sample>)
    ensures r == SampleValue(samples, component, name)
    ensures r.None? <==> forall i | 0 <= i < |samples| :: !Measures(samples[i], component, name)
    ensures r.Some? ==> Measures(r.value, component, name) &&
                        forall i | 0 <= i < |samples| && Measures(samples[i], component, name) ::
                            samples[i].at <= r.value.at
  {
    r := None;
    for i := 0 to |samples|
      invariant r == SampleValue(samples[..i], component, name)
      invariant r.None? <==> forall j | 0 <= j < i :: !Measures(samples[j], component, name)
      invariant r.Some? ==> Measures(r.value, component, name) &&
                            forall j | 0 <= j < i && Measures(samples[j], component, name) ::
                                samples[j].at <= r.value.at
    {
      var m := samples[i];
      assert samples[..i + 1][..i] == samples[..i];
      if !Measures(m, component, name) { continue; }
      if r.None? || m.at > r.value.at { r := Some(m); }
    }
    assert samples[..|samples|] == samples;
  }

  // --------------------------------------------------------------- helpers

  method FindTimedBlock(obs: seq<Observation>) returns (r: Option<Observation>)
    ensures r == TimedBlockSeen(obs)
  {
    for i := 0 to |obs|
      invariant TimedBlockSeen(obs) == TimedBlockSeen(obs[i..])
    {
      if obs[i].kind == BlockSeen && obs[i].source == PromScrape { return Some(obs[i]); }
      assert obs[i..][1..] == obs[i + 1..];
    }
    r := None;
  }

  method CollectEngineCalls(obs: seq<Observation>, pf: FloatParser) returns (calls: seq<CallWindow>)
    ensures calls == EngineCalls(obs, pf)
  {
    calls := [];
    for i := 0 to |obs|
      invariant calls == EngineCalls(obs[..i], pf)
    {
      assert obs[..i + 1][..i] == obs[..i];
      var call := ParseCall(obs[i], pf);
      if call.None? { continue; }
      calls := calls + [call.value];
    }
    assert obs[..|obs|] == obs;
  }

  /** Counting methods one by one accepts exactly one call window of each. */
  method CheckComplete(calls: seq<CallWindow>) returns (complete: bool)
    ensures complete == CompleteCalls(calls)
  {
    if |calls| != 2 { return false; }
    var newPayload, forkchoice := 0, 0;
    for i := 0 to 2
      invariant newPayload == Tally(calls[..i], NEW_PAYLOAD) && forkchoice == Tally(calls[..i], FORKCHOICE_UPDATED)
    {
      assert calls[..i + 1][..i] == calls[..i];
      if calls[i].method_ == NEW_PAYLOAD { newPayload := newPayload + 1; }
      else if calls[i].method_ == FORKCHOICE_UPDATED { forkchoice := forkchoice + 1; }
    }
    assert calls[..2] == calls;
    TallyOfTwo(calls, NEW_PAYLOAD);
    TallyOfTwo(calls, FORKCHOICE_UPDATED);
    complete := newPayload == 1 && forkchoice == 1;
  }

  function Tally(calls: seq<CallWindow>, name: string): nat {
    if calls == [] then 0
    else Tally(calls[..|calls| - 1], name) + (if calls[|calls| - 1].method_ == name then 1 else 0)
  }

  lemma TallyOfTwo(calls: seq<CallWindow>, name: string)
    requires |calls| == 2
    ensures Tally(calls, name) ==
            (if calls[0].method_ == name then 1 else 0) + (if calls[1].method_ == name then 1 else 0)
  {
    var one := calls[..1];
    assert calls[..|calls| - 1] == one && one[..0] == [] && Tally(one[..0], name) == 0;
    assert Tally(one, name) == if calls[0].method_ == name then 1 else 0;
  }

  method SumEngineCalls(calls: seq<CallWindow>) returns (total: Duration)
    requires forall c | c in calls :: c.durationMS >= 0.0
    ensures total == EngineTotal(calls)
  {
    var totalMS := 0.0;
    for i := 0 to |calls|
      invariant forall c | c in calls[..i] :: c in calls
      invariant totalMS == TotalMS(calls[..i])
    {
      assert calls[..i + 1][..i] == calls[..i];
      totalMS := totalMS + calls[i].durationMS;
    }
    assert calls[..|calls|] == calls;
    total := if totalMS * 1000000.0 >= MAX_INT64 as real then MAX_INT64 else (totalMS * 1000000.0).Floor;
  }

  method FindNewestSample(samples: seq<Sample>, component: Component, name: string) returns (r: Option<MetricFact>)
    ensures r == NewestSample(samples, component, name)
  {
    var i := |samples|;
    assert samples[..i] == samples;
    while i > 0
      invariant 0 <= i <= |samples| &&
                NewestSample(samples, component, name) == NewestSample(samples[..i], component, name)
    {
      i := i - 1;
      var m := samples[i];
      assert samples[..i + 1][..i] == samples[..i];
      if m.component == component && m.name == name { return Some(MetricFact(m.value, m.at, m.source)); }
    }
    r := None;
  }

  /** Last readable corpus observation first, last live sample as the fallback. */
  method FindHostFact(tl: Timeline, obsMetric: string, sampleMetric: string, pf: FloatParser)
    returns (r: Option<MetricFact>)
    ensures r == HostFact(tl, obsMetric, sampleMetric, pf)
    ensures r.None? <==> NoReading(tl, HostGauge(obsMetric, sampleMetric), pf)
    ensures r.Some? ==> IsReading(tl, HostGauge(obsMetric, sampleMetric), pf, r.value)
  {
    GaugeFactIs(tl, HostGauge(obsMetric, sampleMetric), pf);
    var obs := tl.observations;
    var i := |obs|;
    assert obs[..i] == obs;
    while i > 0
      invariant 0 <= i <= |obs| && HostObs(obs, obsMetric, pf) == HostObs(obs[..i], obsMetric, pf)
    {
      i := i - 1;
      var o := obs[i];
      assert obs[..i + 1][..i] == obs[..i];
      if o.kind != HostSampled || o.Attr(ATTR_METRIC) != Some(obsMetric) { continue; }
      var text := o.Attr(ATTR_VALUE);
      if text.None? || pf(text.value).None? { continue; }
      return Some(MetricFact(pf(text.value).value, o.at, o.source));
    }
    r := FindNewestSample(tl.samples, Host, sampleMetric);
  }

  method FindPeerCount(tl: Timeline, pf: FloatParser) returns (r: Option<MetricFact>)
    ensures r == PeerCountFact(tl, pf)
    ensures r.None? <==> NoReading(tl, PeerGauge, pf)
    ensures r.Some? ==> IsReading(tl, PeerGauge, pf, r.value)
  {
    GaugeFactIs(tl, PeerGauge, pf);
    var obs := tl.observations;
    var i := |obs|;
    assert obs[..i] == obs;
    while i > 0
      invariant 0 <= i <= |obs| && PeerObs(obs, pf) == PeerObs(obs[..i], pf)
    {
      i := i - 1;
      var o := obs[i];
      assert obs[..i + 1][..i] == obs[..i];
      if o.kind != PeerCountSampled { continue; }
      var text := o.Attr(ATTR_PEER_COUNT);
      if text.None? || pf(text.value).None? { continue; }
      return Some(MetricFact(pf(text.value).value, o.at, o.source));
    }
    r := FindNewestSample(tl.samples, CL, "cl_peer_count");
  }

  // -------------------------------------------------------------- evidence

  method AppendCallEvidence(calls: seq<CallWindow>) returns (evidence: seq<Evidence>)
    ensures evidence == CallEvidence(calls)
  {
    evidence := [];
    for i := 0 to |calls|
      invariant evidence == CallEvidence(calls[..i])
    {
      assert calls[..i + 1][..i] == calls[..i];
      evidence := evidence + [Measured(calls[i].at, "engine call", PromScrape, "duration", calls[i].durationMS, 0.0,
                                       Milliseconds)];
    }
    assert calls[..|calls|] == calls;
  }

  method AppendReorgEvidence(before: seq<Evidence>, obs: seq<Observation>, all: bool) returns (evidence: seq<Evidence>)
    ensures evidence == before + ReorgEvidence(obs, all)
  {
    evidence := before;
    for i := 0 to |obs|
      invariant evidence == before + ReorgEvidence(obs[..i], all)
    {
      assert obs[..i + 1][..i] == obs[..i];
      if all || obs[i].kind == Reorg { evidence := evidence + [Fact(obs[i].at, "reorg", obs[i].source)]; }
    }
    assert obs[..|obs|] == obs;
  }

  // ----------------------------------------------------------- the engine

  /** The rule loop of analyze. */
  method RunRules(rules: seq<RuleId>, tl: Timeline, cfg: Config, pf: FloatParser) returns (draft: Option<Draft>)
    ensures draft == FirstMatch(rules, tl, cfg, pf)
  {
    for i := 0 to |rules|
      invariant FirstMatch(rules, tl, cfg, pf) == FirstMatch(rules[i..], tl, cfg, pf)
    {
      draft := Evaluate(rules[i], tl, cfg, pf);
      if draft.Some? { return; }
      assert rules[i..][1..] == rules[i + 1..];
    }
    draft := None;
  }

  /** validateFlags. */
  method ValidateFlags(outcome: Outcome, flags: Option<RewardFlags>) returns (ok: bool)
    ensures ok <==> FlagsFit(outcome, flags)
  {
    if flags.None? { return outcome != Degraded; }
    var earned := flags.value;
    var all := earned.timelySource && earned.timelyTarget && earned.timelyHead;
    var any := earned.timelySource || earned.timelyTarget || earned.timelyHead;
    match outcome {
      case NoDuty => return false;
      case OK => return all;
      case Degraded => return !all && any;
      case Missed => return !any;
    }
  }

  /** Verdict.Validate: the checks in order, then a pass over the evidence. */
  method ValidateVerdict(v: Verdict) returns (ok: bool)
    ensures ok <==> VerdictValid(v)
  {
    if v.outcome == NoDuty {
      if v.cause.Some? || v.subCause.Some? { return false; }
    } else if v.outcome == OK && v.cause.None? {
      if v.subCause.Some? { return false; }
    } else {
      if v.cause.None? { return false; }
      if v.subCause.Some? && !v.subCause.value.IsSubCauseOf(v.cause.value) { return false; }
    }
    var flagsFit := ValidateFlags(v.outcome, v.flags);
    if !flagsFit || v.evidence == [] { return false; }
    for i := 0 to |v.evidence|
      invariant forall j | 0 <= j < i :: EvidenceValid(v.evidence[j])
    {
      var e := v.evidence[i];
      if !NonBlank(e.statement) || e.at == 0 { return false; }
      if e.comparison.Some? && !NonBlank(e.comparison.value.name) { return false; }
    }
    ok := v.engineVersion != "" && v.taxonomyVersion != "";
  }
}
