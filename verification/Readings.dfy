/** Which readings the rules go by, said without the rules' own lookups: the newest readable host and
    peer readings, the two Engine windows, the freshest baseline. */
module Readings {
  import opened Text
  import opened Domain
  import opened Rules

  // ---------------------------------------------------------------- gauges

  /** A quantity that corpus observations and live samples both report. */
  datatype Gauge = HostGauge(metric: string, sampleName: string) | PeerGauge

  /** The value an observation reports for the gauge, if it can be read. */
  function ReadGauge(o: Observation, g: Gauge, pf: FloatParser): Option<real> {
    match g
    case HostGauge(metric, _) =>
      if o.kind == HostSampled && o.Attr(ATTR_METRIC) == Some(metric) && o.Attr(ATTR_VALUE).Some?
      then pf(o.Attr(ATTR_VALUE).value) else None
    case PeerGauge =>
      if o.kind == PeerCountSampled && o.Attr(ATTR_PEER_COUNT).Some? then pf(o.Attr(ATTR_PEER_COUNT).value) else None
  }

  predicate Measures(m: Sample, component: Component, name: string) {
    m.component == component && m.name == name
  }

  predicate SamplesGauge(m: Sample, g: Gauge) {
    if g.PeerGauge? then Measures(m, CL, "cl_peer_count") else Measures(m, Host, g.sampleName)
  }

  function FactOf(o: Observation, v: real): MetricFact {
    MetricFact(v, o.at, o.source)
  }

  function FactOfSample(m: Sample): MetricFact {
    MetricFact(m.value, m.at, m.source)
  }

  /** Observation i reports f, and none listed after it can be read. */
  predicate LastObserved(obs: seq<Observation>, g: Gauge, pf: FloatParser, i: nat, f: MetricFact) {
    && i < |obs| && ReadGauge(obs[i], g, pf).Some? && f == FactOf(obs[i], ReadGauge(obs[i], g, pf).value)
    && forall j | i < j < |obs| :: ReadGauge(obs[j], g, pf).None?
  }

  predicate NeverObserved(obs: seq<Observation>, g: Gauge, pf: FloatParser) {
    forall j | 0 <= j < |obs| :: ReadGauge(obs[j], g, pf).None?
  }

  /** Sample i is f, and none listed after it is of the gauge. */
  predicate LastSampled(samples: seq<Sample>, g: Gauge, i: nat, f: MetricFact) {
    && i < |samples| && SamplesGauge(samples[i], g) && f == FactOfSample(samples[i])
    && forall j | i < j < |samples| :: !SamplesGauge(samples[j], g)
  }

  /** The reading the rules go by on any timeline: the last readable observation listed, or, where no
      observation can be read, the last sample listed. */
  ghost predicate IsReading(tl: Timeline, g: Gauge, pf: FloatParser, f: MetricFact) {
    || (exists i: nat :: LastObserved(tl.observations, g, pf, i, f))
    || (NeverObserved(tl.observations, g, pf) && exists i: nat :: LastSampled(tl.samples, g, i, f))
  }

  /** No readable observation is later; or none can be read and no sample of the gauge is later. */
  ghost predicate IsNewestReading(tl: Timeline, g: Gauge, pf: FloatParser, f: MetricFact) {
    || (&& (exists i: nat :: LastObserved(tl.observations, g, pf, i, f))
        && forall j | 0 <= j < |tl.observations| && ReadGauge(tl.observations[j], g, pf).Some? ::
           tl.observations[j].at <= f.at)
    || (&& NeverObserved(tl.observations, g, pf) && (exists i: nat :: LastSampled(tl.samples, g, i, f))
        && forall j | 0 <= j < |tl.samples| && SamplesGauge(tl.samples[j], g) :: tl.samples[j].at <= f.at)
  }

  predicate SamplesAscend(samples: seq<Sample>) {
    forall i, j | 0 <= i < j < |samples| :: samples[i].at <= samples[j].at
  }

  lemma LastObservedIsLatest(tl: Timeline, g: Gauge, pf: FloatParser, i: nat, f: MetricFact)
    requires Ascending(tl.observations) && LastObserved(tl.observations, g, pf, i, f)
    ensures IsNewestReading(tl, g, pf, f)
  {
  }

  lemma LastSampledIsLatest(tl: Timeline, g: Gauge, pf: FloatParser, i: nat, f: MetricFact)
    requires SamplesAscend(tl.samples) && LastSampled(tl.samples, g, i, f) && NeverObserved(tl.observations, g, pf)
    ensures IsNewestReading(tl, g, pf, f)
  {
  }

  /** On a timeline whose lists ascend, last listed means newest. */
  lemma ReadingIsNewest(tl: Timeline, g: Gauge, pf: FloatParser, f: MetricFact)
    requires Ascending(tl.observations) && SamplesAscend(tl.samples) && IsReading(tl, g, pf, f)
    ensures IsNewestReading(tl, g, pf, f)
  {
    if exists i: nat :: LastObserved(tl.observations, g, pf, i, f) {
      var i: nat :| LastObserved(tl.observations, g, pf, i, f);
      LastObservedIsLatest(tl, g, pf, i, f);
    } else {
      var i: nat :| LastSampled(tl.samples, g, i, f);
      LastSampledIsLatest(tl, g, pf, i, f);
    }
  }

  // ------------------------------------------- the lookups find that reading

  function GaugeObs(obs: seq<Observation>, g: Gauge, pf: FloatParser): Option<MetricFact> {
    match g
    case HostGauge(metric, _) => HostObs(obs, metric, pf)
    case PeerGauge => PeerObs(obs, pf)
  }

  function GaugeFact(tl: Timeline, g: Gauge, pf: FloatParser): Option<MetricFact> {
    match g
    case HostGauge(metric, sampleName) => HostFact(tl, metric, sampleName, pf)
    case PeerGauge => PeerCountFact(tl, pf)
  }

  lemma GaugeObsStep(obs: seq<Observation>, g: Gauge, pf: FloatParser)
    requires obs != []
    ensures var o := obs[|obs| - 1];
            GaugeObs(obs, g, pf) ==
              if ReadGauge(o, g, pf).Some? then Some(FactOf(o, ReadGauge(o, g, pf).value))
              else GaugeObs(obs[..|obs| - 1], g, pf)
  {
  }

  lemma {:induction false} GaugeObsIs(obs: seq<Observation>, g: Gauge, pf: FloatParser)
    ensures GaugeObs(obs, g, pf).None? <==> NeverObserved(obs, g, pf)
    ensures GaugeObs(obs, g, pf).Some? ==> exists i: nat :: LastObserved(obs, g, pf, i, GaugeObs(obs, g, pf).value)
    decreases |obs|
  {
    if obs != [] {
      var n := |obs| - 1;
      GaugeObsStep(obs, g, pf);
      GaugeObsIs(obs[..n], g, pf);
      assert forall j | 0 <= j < n :: obs[..n][j] == obs[j];
      if ReadGauge(obs[n], g, pf).Some? {
        assert LastObserved(obs, g, pf, n, GaugeObs(obs, g, pf).value);
      } else if GaugeObs(obs, g, pf).Some? {
        var f := GaugeObs(obs, g, pf).value;
        var i: nat :| LastObserved(obs[..n], g, pf, i, f);
        assert LastObserved(obs, g, pf, i, f);
      }
    }
  }

  function GaugeSample(samples: seq<Sample>, g: Gauge): Option<MetricFact> {
    if g.PeerGauge? then NewestSample(samples, CL, "cl_peer_count") else NewestSample(samples, Host, g.sampleName)
  }

  lemma {:induction false} GaugeSampleIs(samples: seq<Sample>, g: Gauge)
    ensures GaugeSample(samples, g).None? <==> forall j | 0 <= j < |samples| :: !SamplesGauge(samples[j], g)
    ensures GaugeSample(samples, g).Some? ==> exists i: nat :: LastSampled(samples, g, i, GaugeSample(samples, g).value)
    decreases |samples|
  {
    if samples != [] {
      var n := |samples| - 1;
      GaugeSampleIs(samples[..n], g);
      assert forall j | 0 <= j < n :: samples[..n][j] == samples[j];
      if SamplesGauge(samples[n], g) {
        assert LastSampled(samples, g, n, GaugeSample(samples, g).value);
      } else if GaugeSample(samples, g).Some? {
        var f := GaugeSample(samples, g).value;
        var i: nat :| LastSampled(samples[..n], g, i, f);
        assert LastSampled(samples, g, i, f);
      }
    }
  }

  predicate NoReading(tl: Timeline, g: Gauge, pf: FloatParser) {
    NeverObserved(tl.observations, g, pf) && forall j | 0 <= j < |tl.samples| :: !SamplesGauge(tl.samples[j], g)
  }

  lemma GaugeFactParts(tl: Timeline, g: Gauge, pf: FloatParser)
    ensures GaugeFact(tl, g, pf) ==
            if GaugeObs(tl.observations, g, pf).Some? then GaugeObs(tl.observations, g, pf)
            else GaugeSample(tl.samples, g)
  {
  }

  /** hostSampleFact and peerCountFact return that reading, and nothing exactly when there is none. */
  lemma GaugeFactIs(tl: Timeline, g: Gauge, pf: FloatParser)
    ensures GaugeFact(tl, g, pf).None? <==> NoReading(tl, g, pf)
    ensures GaugeFact(tl, g, pf).Some? ==> IsReading(tl, g, pf, GaugeFact(tl, g, pf).value)
  {
    GaugeFactParts(tl, g, pf);
    GaugeObsIs(tl.observations, g, pf);
    GaugeSampleIs(tl.samples, g);
  }

  /** The reading is unique: GaugeFact is it. */
  lemma ReadingIsGaugeFact(tl: Timeline, g: Gauge, pf: FloatParser, f: MetricFact)
    requires IsReading(tl, g, pf, f)
    ensures GaugeFact(tl, g, pf) == Some(f)
  {
    GaugeFactIs(tl, g, pf);
    var v := GaugeFact(tl, g, pf);
    if exists i: nat :: LastObserved(tl.observations, g, pf, i, f) {
      var i: nat :| LastObserved(tl.observations, g, pf, i, f);
      assert v.Some?;
      var j: nat :| LastObserved(tl.observations, g, pf, j, v.value);
      assert i == j;
    } else {
      var i: nat :| LastSampled(tl.samples, g, i, f);
      assert v.Some?;
      var j: nat :| LastSampled(tl.samples, g, j, v.value);
      assert i == j;
    }
  }

  // -------------------------------------------------------- Engine windows

  /** A readable Engine window: method, duration and count as the scraper wrote them. */
  predicate EngineWindow(o: Observation, name: string, ms: real, pf: FloatParser) {
    && o.kind == EngineCall && o.source == PromScrape
    && o.Attr(ATTR_ENGINE_METHOD) == Some(name) && (name == NEW_PAYLOAD || name == FORKCHOICE_UPDATED)
    && o.Attr(ATTR_DURATION_MS).Some? && pf(o.Attr(ATTR_DURATION_MS).value) == Some(ms) && ms >= 0.0
    && o.Attr(ATTR_SAMPLE_COUNT).Some? && ParseUint(o.Attr(ATTR_SAMPLE_COUNT).value).Some?
    && ParseUint(o.Attr(ATTR_SAMPLE_COUNT).value).value > 0
  }

  ghost predicate SomeWindow(o: Observation, pf: FloatParser) {
    exists name, ms :: EngineWindow(o, name, ms, pf)
  }

  /** Observations i and k are the slot's newPayload and forkchoiceUpdated windows, and its only ones. */
  ghost predicate TwoWindows(obs: seq<Observation>, pf: FloatParser, i: nat, k: nat, payloadMs: real,
                             forkchoiceMs: real) {
    && i < |obs| && k < |obs| && i != k
    && EngineWindow(obs[i], NEW_PAYLOAD, payloadMs, pf) && EngineWindow(obs[k], FORKCHOICE_UPDATED, forkchoiceMs, pf)
    && forall j | 0 <= j < |obs| && j != i && j != k :: !SomeWindow(obs[j], pf)
  }

  lemma ParsedIsWindow(o: Observation, pf: FloatParser)
    ensures ParseCall(o, pf).Some? <==> SomeWindow(o, pf)
    ensures ParseCall(o, pf).Some? ==>
            EngineWindow(o, ParseCall(o, pf).value.method_, ParseCall(o, pf).value.durationMS, pf)
  {
    if ParseCall(o, pf).Some? {
      assert EngineWindow(o, ParseCall(o, pf).value.method_, ParseCall(o, pf).value.durationMS, pf);
    }
    if SomeWindow(o, pf) { var name, ms :| EngineWindow(o, name, ms, pf); }
  }

  /** Where each collected item comes from. */
  predicate Origins(parsed: seq<Option<CallWindow>>, calls: seq<CallWindow>, at: seq<nat>) {
    && |at| == |calls|
    && (forall m | 0 <= m < |at| :: at[m] < |parsed| && parsed[at[m]] == Some(calls[m]))
    && (forall m, n | 0 <= m < n < |at| :: at[m] < at[n])
    && (forall j: nat | j < |parsed| && parsed[j].Some? :: j in at)
  }

  lemma OriginsSkip(parsed: seq<Option<CallWindow>>, calls: seq<CallWindow>, at: seq<nat>)
    requires Origins(parsed, calls, at)
    ensures Origins(parsed + [None], calls, at)
  {
  }

  lemma OriginsAdd(parsed: seq<Option<CallWindow>>, calls: seq<CallWindow>, at: seq<nat>, c: CallWindow)
    requires Origins(parsed, calls, at)
    ensures Origins(parsed + [Some(c)], calls + [c], at + [|parsed|])
  {
    var more, longer := parsed + [Some(c)], at + [|parsed|];
    forall j: nat | j < |more| && more[j].Some? ensures j in longer {
      if j < |parsed| { assert j in at; } else { assert longer[|at|] == j; }
    }
  }

  function Parsed(obs: seq<Observation>, pf: FloatParser): (r: seq<Option<CallWindow>>)
    ensures |r| == |obs| && forall j | 0 <= j < |obs| :: r[j] == ParseCall(obs[j], pf)
  {
    if obs == [] then [] else Parsed(obs[..|obs| - 1], pf) + [ParseCall(obs[|obs| - 1], pf)]
  }

  lemma {:induction false} CallsHaveOrigins(obs: seq<Observation>, pf: FloatParser) returns (at: seq<nat>)
    ensures Origins(Parsed(obs, pf), EngineCalls(obs, pf), at)
    decreases |obs|
  {
    at := [];
    if obs != [] {
      var n := |obs| - 1;
      at := CallsHaveOrigins(obs[..n], pf);
      var parsed, calls := Parsed(obs[..n], pf), EngineCalls(obs[..n], pf);
      match ParseCall(obs[n], pf) {
        case None => OriginsSkip(parsed, calls, at);
        case Some(c) =>
          OriginsAdd(parsed, calls, at, c);
          at := at + [|parsed|];
      }
    }
  }

  /** What was collected: the two windows, in the order listed. */
  predicate CollectedAs(calls: seq<CallWindow>, obs: seq<Observation>, i: nat, k: nat, payloadMs: real,
                        forkchoiceMs: real)
    requires i < |obs| && k < |obs|
  {
    && |calls| == 2 && i != k
    && var payload, forkchoice := calls[if i < k then 0 else 1], calls[if i < k then 1 else 0];
    && payload.at == obs[i].at && payload.durationMS == payloadMs
    && forkchoice.at == obs[k].at && forkchoice.durationMS == forkchoiceMs
  }

  lemma CompleteIsTwoWindows(obs: seq<Observation>, pf: FloatParser)
    returns (i: nat, k: nat, payloadMs: real, forkchoiceMs: real)
    requires CompleteCalls(EngineCalls(obs, pf))
    ensures TwoWindows(obs, pf, i, k, payloadMs, forkchoiceMs)
    ensures CollectedAs(EngineCalls(obs, pf), obs, i, k, payloadMs, forkchoiceMs)
    ensures EngineTotal(EngineCalls(obs, pf)) == Nanoseconds(payloadMs + forkchoiceMs)
  {
    var calls := EngineCalls(obs, pf);
    var at := CallsHaveOrigins(obs, pf);
    var first, second := at[0], at[1];
    ParsedIsWindow(obs[first], pf);
    ParsedIsWindow(obs[second], pf);
    forall j | 0 <= j < |obs| && j != first && j != second ensures !SomeWindow(obs[j], pf) {
      ParsedIsWindow(obs[j], pf);
    }
    TotalOfTwo(calls);
    if calls[0].method_ == NEW_PAYLOAD {
      i, k, payloadMs, forkchoiceMs := first, second, calls[0].durationMS, calls[1].durationMS;
    } else {
      i, k, payloadMs, forkchoiceMs := second, first, calls[1].durationMS, calls[0].durationMS;
    }
  }

  lemma ThirdOrigin(at: seq<nat>, i: nat, k: nat)
    requires |at| > 2 && forall m, n | 0 <= m < n < |at| :: at[m] < at[n]
    ensures exists j :: j in at && j != i && j != k
  {
    var a, b, c := at[0], at[1], at[2];
    assert a in at && b in at && c in at && a < b < c;
  }

  lemma TwoOrigins(at: seq<nat>, i: nat, k: nat)
    requires i in at && k in at && i != k && (forall j | j in at :: j == i || j == k)
    requires forall m, n | 0 <= m < n < |at| :: at[m] < at[n]
    ensures |at| == 2 && ((at[0] == i && at[1] == k) || (at[0] == k && at[1] == i))
  {
    var m :| 0 <= m < |at| && at[m] == i;
    var n :| 0 <= n < |at| && at[n] == k;
    if |at| > 2 { ThirdOrigin(at, i, k); }
  }

  /** Conversely, two such windows and no other make the calls complete. */
  lemma TwoWindowsAreComplete(obs: seq<Observation>, pf: FloatParser, i: nat, k: nat, payloadMs: real,
                              forkchoiceMs: real)
    requires TwoWindows(obs, pf, i, k, payloadMs, forkchoiceMs)
    ensures CompleteCalls(EngineCalls(obs, pf))
    ensures EngineTotal(EngineCalls(obs, pf)) == Nanoseconds(payloadMs + forkchoiceMs)
  {
    var calls := EngineCalls(obs, pf);
    var at := CallsHaveOrigins(obs, pf);
    ParsedIsWindow(obs[i], pf);
    ParsedIsWindow(obs[k], pf);
    assert SomeWindow(obs[i], pf) && SomeWindow(obs[k], pf);
    forall j | j in at ensures j == i || j == k {
      ParsedIsWindow(obs[j], pf);
    }
    TwoOrigins(at, i, k);
    assert |NEW_PAYLOAD| != |FORKCHOICE_UPDATED|;
    TotalOfTwo(calls);
  }

  lemma TotalOfTwo(calls: seq<CallWindow>)
    requires |calls| == 2 && calls[0].durationMS >= 0.0 && calls[1].durationMS >= 0.0
    ensures forall c | c in calls :: c.durationMS >= 0.0
    ensures TotalMS(calls) == calls[0].durationMS + calls[1].durationMS
  {
    var one := calls[..1];
    assert one[..0] == [] && calls[..|calls| - 1] == one;
    assert TotalMS(one) == calls[0].durationMS;
  }

  // ------------------------------------------------------ freshest sample

  /** Sample i is of the metric, no sample of it is fresher, and none listed earlier is as fresh. */
  predicate Freshest(samples: seq<Sample>, component: Component, name: string, i: nat) {
    && i < |samples| && Measures(samples[i], component, name)
    && forall j | 0 <= j < |samples| && Measures(samples[j], component, name) ::
         samples[j].at <= samples[i].at && (j < i ==> samples[j].at < samples[i].at)
  }

  lemma FreshestGrows(samples: seq<Sample>, component: Component, name: string, i: nat)
    requires samples != [] && Freshest(samples[..|samples| - 1], component, name, i)
    ensures var n := |samples| - 1;
            Freshest(samples, component, name,
                     if Measures(samples[n], component, name) && samples[n].at > samples[i].at then n else i)
  {
    assert forall j | 0 <= j < |samples| - 1 :: samples[..|samples| - 1][j] == samples[j];
  }

  /** SampleValue gives exactly that sample, and nothing exactly when there is none of the metric. */
  lemma {:induction false} SampleValueIsFreshest(samples: seq<Sample>, component: Component, name: string)
    ensures var v := SampleValue(samples, component, name);
            && (v.None? <==> forall i | 0 <= i < |samples| :: !Measures(samples[i], component, name))
            && (v.Some? ==> exists i: nat :: Freshest(samples, component, name, i) && v == Some(samples[i]))
    decreases |samples|
  {
    if samples != [] {
      var n := |samples| - 1;
      var before := samples[..n];
      SampleValueIsFreshest(before, component, name);
      var was, now := SampleValue(before, component, name), SampleValue(samples, component, name);
      if was.Some? {
        var i: nat :| Freshest(before, component, name, i) && was == Some(before[i]);
        FreshestGrows(samples, component, name, i);
      } else {
        assert forall j | 0 <= j < n :: before[j] == samples[j];
        assert now.Some? ==> Freshest(samples, component, name, n);
      }
    }
  }

  lemma FreshestIsSampleValue(samples: seq<Sample>, component: Component, name: string, i: nat)
    requires Freshest(samples, component, name, i)
    ensures SampleValue(samples, component, name) == Some(samples[i])
  {
    SampleValueIsFreshest(samples, component, name);
    var j: nat :| Freshest(samples, component, name, j) && SampleValue(samples, component, name) == Some(samples[j]);
    assert i == j;
  }
}
