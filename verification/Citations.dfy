/** What a verdict's evidence shows: the instants, sources and figures each cause is cited with are
    those of the records it rests on (the evidence of internal/rca/rules, stamped by internal/rca). */
module Citations {
  import opened Text
  import opened Domain
  import opened LatencyStages
  import opened Verdicts
  import opened Rules
  import opened Engine
  import opened ClockTrustTheorems
  import opened AnalyzeTheorems
  import opened Facts
  import opened Readings
  import opened Blame

  datatype Figures = Figures(observed: real, expected: real)

  /** A piece of evidence without its wording and its offset. */
  datatype Citation = Citation(at: int, source: Source, figures: Option<Figures>)

  function Stated(at: int, source: Source): Citation {
    Citation(at, source, None)
  }

  function Figure(at: int, source: Source, observed: real, expected: real): Citation {
    Citation(at, source, Some(Figures(observed, expected)))
  }

  function Cited(e: Evidence): Citation {
    Citation(e.at, e.source,
             if e.comparison.Some? then Some(Figures(e.comparison.value.observed, e.comparison.value.expected))
             else None)
  }

  function AllCited(evidence: seq<Evidence>): (r: seq<Citation>)
    ensures |r| == |evidence| && forall i | 0 <= i < |r| :: r[i] == Cited(evidence[i])
  {
    seq(|evidence|, i requires 0 <= i < |evidence| => Cited(evidence[i]))
  }

  function Millis(ns: int): real {
    ns as real / 1000000.0
  }

  // ---------------------------------------------------- what each rule cites

  ghost predicate NetworkCites(cited: seq<Citation>, tl: Timeline, cfg: Config) {
    exists p: Duration :: SpentBudget(tl, cfg, p) && tl.network.Some? &&
      cited == [Figure(tl.slotStart + p, Derived, Millis(p), Millis(tl.schedule.attestationDeadline)),
                Figure(tl.slotStart, tl.network.value.source, Millis(p), Millis(tl.network.value.p50))]
  }

  ghost predicate PeerCites(cited: seq<Citation>, tl: Timeline, cfg: Config, pf: FloatParser) {
    exists p: Duration, f: MetricFact ::
      SpentBudget(tl, cfg, p) && IsReading(tl, PeerGauge, pf, f) && tl.network.Some? &&
      cited == [Figure(tl.slotStart + p, PromScrape, Millis(p), Millis(tl.schedule.attestationDeadline)),
                Figure(tl.slotStart, tl.network.value.source, Millis(tl.network.value.p50),
                       Millis(tl.schedule.attestationDeadline)),
                Figure(f.at, f.source, f.value, cfg.peerCountMin)]
  }

  ghost predicate PayloadCites(cited: seq<Citation>, tl: Timeline) {
    exists i: nat :: LastOfKind(tl.observations, PayloadAttested, i) &&
      cited == [Stated(tl.observations[i].at, BeaconAPI),
                Figure(tl.slotStart, Derived, 0.0, Millis(tl.schedule.payloadRevealDeadline))]
  }

  ghost predicate SkippedCites(cited: seq<Citation>, tl: Timeline) {
    exists i: nat, j: nat ::
      && FirstOfKind(tl.observations, BlockSkipped, i) && LastOfKind(tl.observations, AttestationIncluded, j)
      && cited == [Stated(tl.observations[i].at, BeaconAPI), Stated(tl.observations[j].at, BeaconAPI)]
  }

  ghost predicate DisconnectedCites(cited: seq<Citation>, tl: Timeline) {
    exists i: nat :: FirstOfKind(tl.observations, CollectionCompleted, i) &&
      cited == [Stated(tl.observations[i].at, Derived)]
  }

  ghost predicate SigningCites(cited: seq<Citation>, tl: Timeline) {
    exists i: nat :: FirstOfKind(tl.observations, AttestationPublished, i) &&
      cited == [Stated(tl.observations[i].at, BeaconAPI)]
  }

  /** The two Engine windows in the order listed. */
  function WindowsCited(obs: seq<Observation>, i: nat, k: nat, p: real, f: real): seq<Citation>
    requires i < |obs| && k < |obs|
  {
    var payload, forkchoice := Figure(obs[i].at, PromScrape, p, 0.0), Figure(obs[k].at, PromScrape, f, 0.0);
    if i < k then [payload, forkchoice] else [forkchoice, payload]
  }

  ghost predicate ExecutionCites(cited: seq<Citation>, tl: Timeline, cfg: Config, pf: FloatParser) {
    exists i: nat, k: nat, p: real, f: real ::
      TwoWindows(tl.observations, pf, i, k, p, f) && ExecutionFigures(cited, tl, cfg, i, k, p, f)
  }

  ghost predicate ExecutionFigures(cited: seq<Citation>, tl: Timeline, cfg: Config, i: nat, k: nat, p: real, f: real)
    requires i < |tl.observations| && k < |tl.observations|
  {
    exists ns: int, m: nat :: ExecutionAt(cited, tl, cfg, i, k, p, f, ns, m)
  }

  /** The windows, and their total against the multiple of the freshest baseline. */
  predicate ExecutionAt(cited: seq<Citation>, tl: Timeline, cfg: Config, i: nat, k: nat, p: real, f: real, ns: int,
                        m: nat)
    requires i < |tl.observations| && k < |tl.observations|
  {
    && RoundsDown(p + f, ns) && Freshest(tl.samples, EL, "el_engine_calls_p99_ms", m)
    && cited == WindowsCited(tl.observations, i, k, p, f) +
                [Figure(tl.observations[if i < k then k else i].at, Derived, Millis(ns),
                        cfg.engineSpikeMultiplier * tl.samples[m].value)]
  }

  ghost predicate ConsensusCites(cited: seq<Citation>, tl: Timeline, cfg: Config, pf: FloatParser) {
    exists i: nat, k: nat, p: real, f: real ::
      TwoWindows(tl.observations, pf, i, k, p, f) && ConsensusFigures(cited, tl, cfg, i, k, p, f)
  }

  ghost predicate ConsensusFigures(cited: seq<Citation>, tl: Timeline, cfg: Config, i: nat, k: nat, p: real, f: real)
    requires i < |tl.observations| && k < |tl.observations|
  {
    exists ns: int, v: Duration, t: int ::
      && StageIs(tl, Validation, v) && TotalIs(tl, t) && t > 0
      && ConsensusAt(cited, tl, cfg, i, k, p, f, ns, v, t)
  }

  /** Validation's share against the bar, the windows, and their total against half of validation. */
  predicate ConsensusAt(cited: seq<Citation>, tl: Timeline, cfg: Config, i: nat, k: nat, p: real, f: real, ns: int,
                        v: Duration, t: int)
    requires i < |tl.observations| && k < |tl.observations| && t > 0
  {
    && RoundsDown(p + f, ns)
    && cited == [Figure(tl.slotStart, Derived, v as real / t as real, cfg.dominance)] +
                WindowsCited(tl.observations, i, k, p, f) +
                [Figure(tl.observations[if i < k then k else i].at, Derived, Millis(ns), Millis(v / 2))]
  }

  ghost predicate HostCites(cited: seq<Citation>, tl: Timeline, g: Gauge, threshold: real, pf: FloatParser) {
    exists f: MetricFact :: IsReading(tl, g, pf, f) && cited == [Figure(f.at, f.source, f.value, threshold)]
  }

  predicate Reorged(tl: Timeline, c: Citation) {
    || (exists o | o in tl.observations :: o.kind == Reorg && c == Stated(o.at, o.source))
    || (exists o | o in tl.reorgs :: c == Stated(o.at, o.source))
  }

  ghost predicate InclusionCites(cited: seq<Citation>, tl: Timeline) {
    exists i: nat, m: nat, h: nat :: InclusionAt(cited, tl, i, m, h) && ReorgsFollow(cited, tl)
  }

  /** Publication, marker and head update, each the first listed. */
  predicate InclusionAt(cited: seq<Citation>, tl: Timeline, i: nat, m: nat, h: nat) {
    && FirstOfKind(tl.observations, AttestationPublished, i) && FirstOfKind(tl.observations, CollectionCompleted, m)
    && FirstOfKind(tl.observations, HeadUpdated, h) && |cited| >= 3
    && cited[..3] == [Stated(tl.observations[i].at, BeaconAPI), Stated(tl.observations[m].at, Derived),
                      Stated(tl.observations[h].at, BeaconAPI)]
  }

  /** Then exactly the reorgs. */
  ghost predicate ReorgsFollow(cited: seq<Citation>, tl: Timeline) {
    |cited| >= 3 && forall c :: c in cited[3..] <==> Reorged(tl, c)
  }

  function Magnitude(d: Duration): int {
    if d == MIN_INT64 then MAX_INT64 else if d < 0 then 0 - d else d
  }

  /** A reading R-011 looks at, taken at this instant and this far off: on a clock-bearing observation, or
      on the newest sample of some metric. */
  predicate ClockReading(tl: Timeline, at: Instant, offset: int) {
    ObsReading(tl.observations, at, offset) || SampleReading(tl.samples, at, offset)
  }

  predicate ObsReading(obs: seq<Observation>, at: Instant, offset: int) {
    exists o | o in obs :: ClockBearing(o.kind) && o.clockSampleAt == at && Magnitude(o.clockOffset) == offset
  }

  predicate SampleReading(samples: seq<Sample>, at: Instant, offset: int) {
    exists i | 0 <= i < |samples| ::
      IsNewest(samples, i) && samples[i].clockSampleAt == at && Magnitude(samples[i].clockOffset) == offset
  }

  /** The largest offset of all readings, at the instant of its own clock sample. */
  ghost predicate DriftCites(cited: seq<Citation>, tl: Timeline, cfg: Config) {
    exists at: Instant, offset: int ::
      && ClockReading(tl, at, offset) && cited == [Figure(at, Clock, Millis(offset), Millis(cfg.clockOffsetMax))]
      && (forall at': Instant, other: int :: ClockReading(tl, at', other) ==> other <= offset)
  }

  /** What an attribution is cited with. */
  ghost predicate Cites(c: Cause, cited: seq<Citation>, tl: Timeline, cfg: Config, pf: FloatParser) {
    match c
    case LateBlock => NetworkCites(cited, tl, cfg)
    case P2PDegraded => PeerCites(cited, tl, cfg, pf)
    case PayloadLate => PayloadCites(cited, tl)
    case ProposerMissed => SkippedCites(cited, tl)
    case ELSlow => ExecutionCites(cited, tl, cfg, pf)
    case CLSlow => ConsensusCites(cited, tl, cfg, pf)
    case VCDisconnected => DisconnectedCites(cited, tl)
    case VCSlow => SigningCites(cited, tl)
    case InclusionFailure => InclusionCites(cited, tl)
    case HostDiskIO => HostCites(cited, tl, IO_WAIT, cfg.ioWaitPct, pf)
    case HostCPUSteal => HostCites(cited, tl, CPU_STEAL, cfg.cpuStealPct, pf)
    case HostMemoryPressure => HostCites(cited, tl, MEMORY_PRESSURE, cfg.psiMemAvg10, pf)
    case HostClockDrift => DriftCites(cited, tl, cfg)
    case _ => true
  }

  // ------------------------------------------------------------ rule by rule

  lemma NetworkCited(tl: Timeline, cfg: Config)
    requires Usable(tl) && NetworkLateBlock(tl, cfg).Some? && tl.network.Some?
    ensures NetworkCites(AllCited(NetworkLateBlock(tl, cfg).value.evidence), tl, cfg)
  {
    var p := ComputeStages(tl).propagation.value;
    SpentBudgetIff(tl, cfg, p);
    assert tl.Budget() == tl.schedule.attestationDeadline;
    assert AllCited(NetworkLateBlock(tl, cfg).value.evidence) ==
           [Figure(tl.slotStart + p, Derived, Millis(p), Millis(tl.schedule.attestationDeadline)),
            Figure(tl.slotStart, tl.network.value.source, Millis(p), Millis(tl.network.value.p50))];
  }

  lemma PeerFigures(tl: Timeline, cfg: Config, pf: FloatParser)
    requires Rules.P2PDegraded(tl, cfg, pf).Some? && tl.Budget() == tl.schedule.attestationDeadline
    ensures var p, f := ComputeStages(tl).propagation.value, PeerCountFact(tl, pf).value;
            AllCited(Rules.P2PDegraded(tl, cfg, pf).value.evidence) ==
            [Figure(tl.slotStart + p, PromScrape, Millis(p), Millis(tl.schedule.attestationDeadline)),
             Figure(tl.slotStart, tl.network.value.source, Millis(tl.network.value.p50),
                    Millis(tl.schedule.attestationDeadline)),
             Figure(f.at, f.source, f.value, cfg.peerCountMin)]
  {
  }

  lemma PeerCited(tl: Timeline, cfg: Config, pf: FloatParser)
    requires Usable(tl) && Rules.P2PDegraded(tl, cfg, pf).Some?
    ensures PeerCites(AllCited(Rules.P2PDegraded(tl, cfg, pf).value.evidence), tl, cfg, pf)
  {
    var p, f := ComputeStages(tl).propagation.value, PeerCountFact(tl, pf).value;
    SpentBudgetIff(tl, cfg, p);
    assert tl.Budget() == tl.schedule.attestationDeadline;
    PeerFigures(tl, cfg, pf);
    GaugeFactIs(tl, PeerGauge, pf);
    assert GaugeFact(tl, PeerGauge, pf) == Some(f);
    assert SpentBudget(tl, cfg, p) && IsReading(tl, PeerGauge, pf, f);
  }

  lemma PayloadCited(tl: Timeline)
    requires Rules.PayloadLate(tl).Some?
    ensures PayloadCites(AllCited(Rules.PayloadLate(tl).value.evidence), tl)
  {
    var i := LastIsLastListed(tl.observations, PayloadAttested);
    assert AllCited(Rules.PayloadLate(tl).value.evidence) ==
           [Stated(tl.observations[i].at, BeaconAPI),
            Figure(tl.slotStart, Derived, 0.0, Millis(tl.schedule.payloadRevealDeadline))];
  }

  lemma SkippedCited(tl: Timeline)
    requires Says(Rules.ProposerMissed(tl), Cause.ProposerMissed, High)
    ensures SkippedCites(AllCited(Rules.ProposerMissed(tl).value.evidence), tl)
  {
    var i := FirstIsFirstListed(tl.observations, BlockSkipped);
    var j := LastIsLastListed(tl.observations, AttestationIncluded);
    assert AllCited(Rules.ProposerMissed(tl).value.evidence) ==
           [Stated(tl.observations[i].at, BeaconAPI), Stated(tl.observations[j].at, BeaconAPI)];
  }

  lemma ClientCited(tl: Timeline, cfg: Config)
    ensures Rules.VCDisconnected(tl).Some? ==>
              DisconnectedCites(AllCited(Rules.VCDisconnected(tl).value.evidence), tl)
    ensures Rules.VCSlow(tl, cfg).Some? ==> SigningCites(AllCited(Rules.VCSlow(tl, cfg).value.evidence), tl)
  {
    if Rules.VCDisconnected(tl).Some? {
      var i := FirstIsFirstListed(tl.observations, CollectionCompleted);
      assert AllCited(Rules.VCDisconnected(tl).value.evidence) == [Stated(tl.observations[i].at, Derived)];
    }
    if Rules.VCSlow(tl, cfg).Some? {
      var i := FirstIsFirstListed(tl.observations, AttestationPublished);
      assert AllCited(Rules.VCSlow(tl, cfg).value.evidence) == [Stated(tl.observations[i].at, BeaconAPI)];
    }
  }

  lemma HostVerdictCited(tl: Timeline, c: Cause, g: Gauge, threshold: real, pf: FloatParser)
    requires GaugeFact(tl, g, pf).Some?
    ensures HostCites(AllCited(HostVerdict(c, GaugeFact(tl, g, pf).value, threshold).evidence), tl, g, threshold, pf)
  {
    var f := GaugeFact(tl, g, pf).value;
    GaugeFactIs(tl, g, pf);
    assert AllCited(HostVerdict(c, f, threshold).evidence) == [Figure(f.at, f.source, f.value, threshold)];
  }

  lemma HostCited(tl: Timeline, cfg: Config, pf: FloatParser)
    requires HostFallback(tl, cfg, pf).Some?
    ensures var d := HostFallback(tl, cfg, pf).value; Cites(d.cause.value, AllCited(d.evidence), tl, cfg, pf)
  {
    match HostFallback(tl, cfg, pf).value.cause.value
    case HostDiskIO => HostVerdictCited(tl, Cause.HostDiskIO, IO_WAIT, cfg.ioWaitPct, pf);
    case HostCPUSteal => HostVerdictCited(tl, Cause.HostCPUSteal, CPU_STEAL, cfg.cpuStealPct, pf);
    case HostMemoryPressure => HostVerdictCited(tl, Cause.HostMemoryPressure, MEMORY_PRESSURE, cfg.psiMemAvg10, pf);
  }

  // ------------------------------------------------------ the Engine rules

  lemma CallsCited(calls: seq<CallWindow>, obs: seq<Observation>, i: nat, k: nat, p: real, f: real)
    requires i < |obs| && k < |obs| && CollectedAs(calls, obs, i, k, p, f)
    ensures AllCited(CallEvidence(calls)) == WindowsCited(obs, i, k, p, f)
    ensures calls[1].at == obs[if i < k then k else i].at
  {
    var one := calls[..1];
    assert one[..0] == [] && CallEvidence([]) == [] && calls[..|calls| - 1] == one;
    assert AllCited(CallEvidence(one)) == [Figure(one[0].at, PromScrape, one[0].durationMS, 0.0)];
    assert CallEvidence(calls) == CallEvidence(one) + [CallEvidence(calls)[1]];
  }

  lemma CitedConcat(a: seq<Evidence>, b: seq<Evidence>)
    ensures AllCited(a + b) == AllCited(a) + AllCited(b)
  {
  }

  lemma CitedOne(e: Evidence)
    ensures AllCited([e]) == [Cited(e)]
  {
  }

  /** A measured piece of evidence at the end, or at the start. */
  lemma CitedLast(before: seq<Evidence>, e: Evidence, at: int, source: Source, observed: real, expected: real)
    requires Cited(e) == Figure(at, source, observed, expected)
    ensures AllCited(before + [e]) == AllCited(before) + [Figure(at, source, observed, expected)]
  {
    CitedConcat(before, [e]);
    CitedOne(e);
  }

  lemma CitedFirst(e: Evidence, rest: seq<Evidence>, at: int, source: Source, observed: real, expected: real)
    requires Cited(e) == Figure(at, source, observed, expected)
    ensures AllCited([e] + rest) == [Figure(at, source, observed, expected)] + AllCited(rest)
  {
    CitedConcat([e], rest);
    CitedOne(e);
  }

  lemma ExecutionCited(tl: Timeline, cfg: Config, pf: FloatParser)
    requires Rules.ELSlow(tl, cfg, pf).Some?
    ensures ExecutionCites(AllCited(Rules.ELSlow(tl, cfg, pf).value.evidence), tl, cfg, pf)
  {
    ExecutionIs(tl, cfg, pf);
    ExecutionWindows(tl, cfg, pf);
    var calls := EngineCalls(tl.observations, pf);
    var i, k, p, f := CompleteIsTwoWindows(tl.observations, pf);
    var name := "el_engine_calls_p99_ms";
    SampleValueIsFreshest(tl.samples, EL, name);
    var baseline := SampleValue(tl.samples, EL, name);
    var m: nat :| Freshest(tl.samples, EL, name, m) && baseline == Some(tl.samples[m]);
    ExecutionFiguresAre(tl, cfg, calls, i, k, p, f, m);
  }

  lemma ExecutionWindows(tl: Timeline, cfg: Config, pf: FloatParser)
    requires Rules.ELSlow(tl, cfg, pf).Some?
    ensures CompleteCalls(EngineCalls(tl.observations, pf))
  {
  }

  lemma ExecutionEvidence(calls: seq<CallWindow>, total: Duration, threshold: real)
    requires |calls| == 2
    ensures AllCited(ExecutionVerdict(calls, total, threshold).evidence) ==
            AllCited(CallEvidence(calls)) + [Figure(calls[1].at, Derived, Millis(total), threshold)]
  {
    var e := ExecutionVerdict(calls, total, threshold).evidence;
    CitedLast(CallEvidence(calls), e[2], calls[1].at, Derived, Millis(total), threshold);
    assert e == CallEvidence(calls) + [e[2]];
  }

  lemma ExecutionFiguresAre(tl: Timeline, cfg: Config, calls: seq<CallWindow>, i: nat, k: nat, p: real, f: real, m: nat)
    requires i < |tl.observations| && k < |tl.observations| && CollectedAs(calls, tl.observations, i, k, p, f)
    requires p >= 0.0 && f >= 0.0 && forall c | c in calls :: c.durationMS >= 0.0
    requires Freshest(tl.samples, EL, "el_engine_calls_p99_ms", m) && EngineTotal(calls) == Nanoseconds(p + f)
    ensures ExecutionFigures(AllCited(ExecutionVerdict(calls, EngineTotal(calls),
                                                       SpikeThreshold(tl.samples[m], cfg)).evidence),
                             tl, cfg, i, k, p, f)
  {
    var ns, threshold := EngineTotal(calls), SpikeThreshold(tl.samples[m], cfg);
    NanosecondsAre(p + f, ns);
    CallsCited(calls, tl.observations, i, k, p, f);
    ExecutionEvidence(calls, ns, threshold);
    assert threshold == cfg.engineSpikeMultiplier * tl.samples[m].value;
    assert ExecutionAt(AllCited(ExecutionVerdict(calls, ns, threshold).evidence), tl, cfg, i, k, p, f, ns, m);
  }

  lemma ConsensusCited(tl: Timeline, cfg: Config, pf: FloatParser)
    requires Usable(tl) && Rules.CLSlow(tl, cfg, pf).Some?
    ensures ConsensusCites(AllCited(Rules.CLSlow(tl, cfg, pf).value.evidence), tl, cfg, pf)
  {
    ConsensusIs(tl, cfg, pf);
    var calls := EngineCalls(tl.observations, pf);
    var i, k, p, f := CompleteIsTwoWindows(tl.observations, pf);
    ConsensusFiguresAre(tl, cfg, calls, i, k, p, f);
  }

  lemma ConsensusIs(tl: Timeline, cfg: Config, pf: FloatParser)
    requires Rules.CLSlow(tl, cfg, pf).Some?
    ensures var s, calls := ComputeStages(tl), EngineCalls(tl.observations, pf);
            && CompleteCalls(calls) && s.validation.Some? && Dominant(s, cfg.dominance) == Some(Validation)
            && Rules.CLSlow(tl, cfg, pf) == Some(ConsensusVerdict(tl, cfg, s, calls, EngineTotal(calls)))
  {
  }

  /** A dominant validation has a share: its time over a positive total. */
  lemma ValidationShare(tl: Timeline, cfg: Config) returns (v: Duration, t: int)
    requires Usable(tl) && ComputeStages(tl).validation.Some? &&
             Dominant(ComputeStages(tl), cfg.dominance) == Some(Validation)
    ensures StageIs(tl, Validation, v) && TotalIs(tl, t) && t > 0 && v >= 0
    ensures ComputeStages(tl).validation == Some(v)
    ensures ShareOr0(ComputeStages(tl), Validation) == v as real / t as real
  {
    var s := ComputeStages(tl);
    v, t := s.validation.value, Total(s);
    assert s.Of(Validation) == s.validation;
    StagesTelescope(tl);
    DominantMeaning(s, cfg.dominance);
    StagesAre(tl, Validation, v);
    TotalIsExactly(tl, t);
  }

  lemma ConsensusEvidence(tl: Timeline, cfg: Config, s: Stages, calls: seq<CallWindow>, total: Duration)
    requires s.validation.Some? && |calls| == 2
    ensures AllCited(ConsensusVerdict(tl, cfg, s, calls, total).evidence) ==
            [Figure(tl.slotStart, Derived, ShareOr0(s, Validation), cfg.dominance)] + AllCited(CallEvidence(calls)) +
            [Figure(calls[1].at, Derived, Millis(total), Millis(Half(s)))]
  {
    var e := ConsensusVerdict(tl, cfg, s, calls, total).evidence;
    assert |CallEvidence(calls)| == 2;
    CitedFirst(e[0], CallEvidence(calls), tl.slotStart, Derived, ShareOr0(s, Validation), cfg.dominance);
    CitedLast([e[0]] + CallEvidence(calls), e[3], calls[1].at, Derived, Millis(total), Millis(Half(s)));
    assert e == [e[0]] + CallEvidence(calls) + [e[3]];
  }

  lemma ConsensusFiguresAre(tl: Timeline, cfg: Config, calls: seq<CallWindow>, i: nat, k: nat, p: real, f: real)
    requires Usable(tl) && ComputeStages(tl).validation.Some? &&
             Dominant(ComputeStages(tl), cfg.dominance) == Some(Validation)
    requires i < |tl.observations| && k < |tl.observations| && CollectedAs(calls, tl.observations, i, k, p, f)
    requires p >= 0.0 && f >= 0.0 && forall c | c in calls :: c.durationMS >= 0.0
    requires EngineTotal(calls) == Nanoseconds(p + f)
    ensures ConsensusFigures(AllCited(ConsensusVerdict(tl, cfg, ComputeStages(tl), calls, EngineTotal(calls)).evidence),
                             tl, cfg, i, k, p, f)
  {
    var ns, s := EngineTotal(calls), ComputeStages(tl);
    var v, t := ValidationShare(tl, cfg);
    NanosecondsAre(p + f, ns);
    CallsCited(calls, tl.observations, i, k, p, f);
    ConsensusEvidence(tl, cfg, s, calls, ns);
    HalfIs(s);
    assert ConsensusAt(AllCited(ConsensusVerdict(tl, cfg, s, calls, ns).evidence), tl, cfg, i, k, p, f, ns, v, t);
  }

  lemma HalfIs(s: Stages)
    requires s.validation.Some?
    ensures s.validation.value >= 0 ==> Half(s) == s.validation.value / 2
  {
  }

  // ------------------------------------------------------------- inclusion

  lemma {:induction false} ReorgsCited(obs: seq<Observation>, all: bool, c: Citation)
    ensures c in AllCited(ReorgEvidence(obs, all)) <==>
            exists o | o in obs :: (all || o.kind == Reorg) && c == Stated(o.at, o.source)
    decreases |obs|
  {
    if obs != [] {
      var n := |obs| - 1;
      var o, rest := obs[n], ReorgEvidence(obs[..n], all);
      assert obs == obs[..n] + [o];
      ReorgsCited(obs[..n], all, c);
      CitedConcat(rest, [Fact(o.at, "reorg", o.source)]);
      CitedOne(Fact(o.at, "reorg", o.source));
      assert rest + [] == rest;
    } else {
      assert ReorgEvidence(obs, all) == [];
    }
  }

  lemma ReorgsFollowThree(three: seq<Citation>, own: seq<Citation>, window: seq<Citation>, tl: Timeline)
    requires |three| == 3
    requires own == AllCited(ReorgEvidence(tl.observations, false))
    requires window == AllCited(ReorgEvidence(tl.reorgs, true))
    ensures ReorgsFollow(three + own + window, tl)
  {
    var cited := three + own + window;
    assert cited[3..] == own + window;
    forall c ensures c in cited[3..] <==> Reorged(tl, c) {
      ReorgsCited(tl.observations, false, c);
      ReorgsCited(tl.reorgs, true, c);
    }
  }

  lemma InclusionEvidence(published: Observation, completed: Observation, head: Observation, tl: Timeline)
    ensures AllCited(InclusionVerdict(published, completed, head, tl).evidence) ==
            [Stated(published.at, BeaconAPI), Stated(completed.at, Derived), Stated(head.at, BeaconAPI)] +
            AllCited(ReorgEvidence(tl.observations, false)) + AllCited(ReorgEvidence(tl.reorgs, true))
  {
    var three := [Fact(published.at, "published", BeaconAPI), Fact(completed.at, "window closed", Derived),
                  Fact(head.at, "canonical head", BeaconAPI)];
    CitedConcat(three, ReorgEvidence(tl.observations, false));
    CitedConcat(three + ReorgEvidence(tl.observations, false), ReorgEvidence(tl.reorgs, true));
    assert AllCited(three) ==
           [Stated(published.at, BeaconAPI), Stated(completed.at, Derived), Stated(head.at, BeaconAPI)];
  }

  lemma InclusionCited(tl: Timeline)
    requires Says(Rules.InclusionFailure(tl), Cause.InclusionFailure, Medium)
    ensures InclusionCites(AllCited(Rules.InclusionFailure(tl).value.evidence), tl)
  {
    var i := FirstIsFirstListed(tl.observations, AttestationPublished);
    var m := FirstIsFirstListed(tl.observations, CollectionCompleted);
    var h := FirstIsFirstListed(tl.observations, HeadUpdated);
    var published, completed, head := tl.observations[i], tl.observations[m], tl.observations[h];
    InclusionEvidence(published, completed, head, tl);
    var three := [Stated(published.at, BeaconAPI), Stated(completed.at, Derived), Stated(head.at, BeaconAPI)];
    var own, window := AllCited(ReorgEvidence(tl.observations, false)), AllCited(ReorgEvidence(tl.reorgs, true));
    ReorgsFollowThree(three, own, window, tl);
    assert (three + own + window)[..3] == three;
    assert InclusionAt(three + own + window, tl, i, m, h);
  }

  // ------------------------------------------------------------- the clock

  /** What a scan that did not stop leaves: never smaller than before, and set once anything was read. */
  predicate Grown(before: Worst, after: Worst) {
    before.at != 0 ==> after.at != 0 && before.offset <= after.offset
  }

  predicate CoversObs(obs: seq<Observation>, w: Worst) {
    forall o | o in obs && ClockBearing(o.kind) :: w.at != 0 && Magnitude(o.clockOffset) <= w.offset
  }

  lemma {:induction false} ScanObsWorst(tl: Timeline, cfg: Config, obs: seq<Observation>, w: Worst)
    requires ScanObs(tl, cfg, obs, w).Go? && forall o | o in obs && o.clockMeasured :: o.clockSampleAt != 0
    ensures var r := ScanObs(tl, cfg, obs, w).worst;
            Grown(w, r) && CoversObs(obs, r) && (r == w || ObsReading(obs, r.at, r.offset))
  {
    if obs != [] {
      var o := obs[0];
      var next := if RequiresClockTrust(o.kind)
                  then Reading(tl, cfg, o.clockMeasured, o.at, o.clockSampleAt, o.clockOffset, w).worst else w;
      ScanObsWorst(tl, cfg, obs[1..], next);
      assert forall x :: x in obs <==> x == o || x in obs[1..];
    }
  }

  predicate KeysReading(keys: seq<string>, latest: map<string, Sample>, at: Instant, offset: int) {
    exists k | k in keys :: k in latest && latest[k].clockSampleAt == at && Magnitude(latest[k].clockOffset) == offset
  }

  predicate CoversKeys(keys: seq<string>, latest: map<string, Sample>, w: Worst) {
    forall k | k in keys && k in latest :: w.at != 0 && Magnitude(latest[k].clockOffset) <= w.offset
  }

  lemma {:induction false} ScanKeysWorst(tl: Timeline, cfg: Config, keys: seq<string>, latest: map<string, Sample>,
                                         w: Worst)
    requires forall k | k in keys :: k in latest && (latest[k].clockMeasured ==> latest[k].clockSampleAt != 0)
    requires ScanKeys(tl, cfg, keys, latest, w).Go?
    ensures var r := ScanKeys(tl, cfg, keys, latest, w).worst;
            Grown(w, r) && CoversKeys(keys, latest, r) && (r == w || KeysReading(keys, latest, r.at, r.offset))
  {
    if keys != [] {
      var m := latest[keys[0]];
      var next := Reading(tl, cfg, m.clockMeasured, m.at, m.clockSampleAt, m.clockOffset, w).worst;
      ScanKeysWorst(tl, cfg, keys[1..], latest, next);
      assert forall x :: x in keys <==> x == keys[0] || x in keys[1..];
    }
  }

  /** A reading under a key is one on a newest sample, and conversely. */
  lemma KeysAreSamples(samples: seq<Sample>, at: Instant, offset: int)
    ensures KeysReading(SortedKeys(Latest(samples).Keys), Latest(samples), at, offset) <==>
            SampleReading(samples, at, offset)
  {
    var latest := Latest(samples);
    forall k | k in latest ensures exists i | 0 <= i < |samples| :: IsNewest(samples, i) && latest[k] == samples[i] {
      var i := LatestEntry(samples, k);
    }
    forall i | 0 <= i < |samples| && IsNewest(samples, i)
      ensures exists k | k in SortedKeys(latest.Keys) :: k in latest && latest[k] == samples[i]
    {
      NewestListed(samples, i);
      assert SampleKey(samples[i]) in SortedKeys(latest.Keys);
    }
  }

  lemma ScanWorst(tl: Timeline, cfg: Config)
    requires Provenance(tl) && ClockScanAll(tl, cfg).Go? && ClockScanAll(tl, cfg).worst.at != 0
    ensures var w := ClockScanAll(tl, cfg).worst;
            ClockReading(tl, w.at, w.offset) &&
            forall at: Instant, offset: int | ClockReading(tl, at, offset) :: offset <= w.offset
  {
    var first := ScanObs(tl, cfg, tl.observations, Worst(0, 0));
    var latest := Latest(tl.samples);
    var keys := SortedKeys(latest.Keys);
    LatestListed(tl.samples);
    ScanObsWorst(tl, cfg, tl.observations, Worst(0, 0));
    ScanKeysWorst(tl, cfg, keys, latest, first.worst);
    var w := ClockScanAll(tl, cfg).worst;
    forall at: Instant, offset: int
      ensures KeysReading(keys, latest, at, offset) <==> SampleReading(tl.samples, at, offset)
    {
      KeysAreSamples(tl.samples, at, offset);
    }
    forall at: Instant, offset: int | ClockReading(tl, at, offset) ensures offset <= w.offset {
      if SampleReading(tl.samples, at, offset) { assert KeysReading(keys, latest, at, offset); }
    }
  }

  lemma DriftFigures(cfg: Config, scan: ClockScan)
    requires scan.Go? && ClockVerdict(cfg, scan).Some?
    ensures scan.worst.at != 0
    ensures AllCited(ClockVerdict(cfg, scan).value.evidence) ==
            [Figure(scan.worst.at, Clock, Millis(scan.worst.offset), Millis(cfg.clockOffsetMax))]
  {
  }

  lemma DriftCited(tl: Timeline, cfg: Config)
    requires Provenance(tl) && tl.slotStart != 0 && Says(ClockTrust(tl, cfg), Cause.HostClockDrift, High)
    ensures DriftCites(AllCited(ClockTrust(tl, cfg).value.evidence), tl, cfg)
  {
    var scan := ClockScanAll(tl, cfg);
    if scan.Stop? { StopIsNotDrift(tl, cfg); }
    DriftFigures(cfg, scan);
    ScanWorst(tl, cfg);
  }

  // --------------------------------------------------------------- theorem

  ghost predicate DraftCites(d: Option<Draft>, tl: Timeline, cfg: Config, pf: FloatParser) {
    d.Some? && d.value.cause.Some? ==> Cites(d.value.cause.value, AllCited(d.value.evidence), tl, cfg, pf)
  }

  lemma GateRuleCites(r: RuleId, tl: Timeline, cfg: Config, pf: FloatParser)
    requires Checked(tl) && Rank(r) < 4 && Evaluate(r, tl, cfg, pf).Some?
    ensures DraftCites(Evaluate(r, tl, cfg, pf), tl, cfg, pf)
  {
    match r
    case R010 =>
    case R011 =>
      ClockTrustSpeaks(tl, cfg);
      if ClockTrust(tl, cfg).value.cause == Some(Cause.HostClockDrift) { DriftCited(tl, cfg); }
    case R100 =>
      if Rules.ProposerMissed(tl).value.cause == Some(Cause.ProposerMissed) { SkippedCited(tl); }
    case R120 => PayloadCited(tl);
    case _ => assert false;
  }

  lemma NetworkRuleCites(tl: Timeline, cfg: Config, pf: FloatParser)
    requires Checked(tl)
    ensures DraftCites(NetworkLateBlock(tl, cfg), tl, cfg, pf)
    ensures DraftCites(Rules.P2PDegraded(tl, cfg, pf), tl, cfg, pf)
  {
    if NetworkLateBlock(tl, cfg).Some? && tl.network.Some? { NetworkCited(tl, cfg); }
    if Rules.P2PDegraded(tl, cfg, pf).Some? { PeerCited(tl, cfg, pf); }
  }

  lemma EngineRuleCites(tl: Timeline, cfg: Config, pf: FloatParser)
    requires Checked(tl)
    ensures DraftCites(Rules.ELSlow(tl, cfg, pf), tl, cfg, pf) && DraftCites(Rules.CLSlow(tl, cfg, pf), tl, cfg, pf)
  {
    if Rules.ELSlow(tl, cfg, pf).Some? { ExecutionCited(tl, cfg, pf); }
    if Rules.CLSlow(tl, cfg, pf).Some? { ConsensusCited(tl, cfg, pf); }
  }

  lemma LastRuleCites(r: RuleId, tl: Timeline, cfg: Config, pf: FloatParser)
    requires Checked(tl) && Rank(r) >= 8 && Evaluate(r, tl, cfg, pf).Some?
    ensures DraftCites(Evaluate(r, tl, cfg, pf), tl, cfg, pf)
  {
    match r
    case R400 => ClientCited(tl, cfg);
    case R410 => ClientCited(tl, cfg);
    case R500 =>
      if Rules.InclusionFailure(tl).value.cause == Some(Cause.InclusionFailure) { InclusionCited(tl); }
    case R600 => HostCited(tl, cfg, pf);
    case R999 =>
    case _ => assert false;
  }

  lemma RuleCites(r: RuleId, tl: Timeline, cfg: Config, pf: FloatParser)
    requires Checked(tl) && Evaluate(r, tl, cfg, pf).Some?
    ensures DraftCites(Evaluate(r, tl, cfg, pf), tl, cfg, pf)
  {
    if Rank(r) < 4 {
      GateRuleCites(r, tl, cfg, pf);
    } else if Rank(r) < 8 {
      NetworkRuleCites(tl, cfg, pf);
      EngineRuleCites(tl, cfg, pf);
    } else {
      LastRuleCites(r, tl, cfg, pf);
    }
  }

  /** Stamping the offsets leaves what is cited alone. */
  lemma StampingKeepsCitations(evidence: seq<Evidence>, slotStart: Instant)
    ensures AllCited(StampOffsets(evidence, slotStart)) == AllCited(evidence)
  {
  }

  lemma SettledCites(tl: Timeline, cfg: Config, pf: FloatParser)
    requires Checked(tl)
    ensures DraftCites(Some(Settle(ORDERED, tl, cfg, pf)), tl, cfg, pf)
  {
    SomethingMatches(tl, cfg, pf);
    var i := FirstMatchHas(ORDERED, tl, cfg, pf);
    RuleCites(ORDERED[i], tl, cfg, pf);
  }

  /** Every attribution on a valid timeline is cited with the instants, sources and figures of the very
      records it rests on. */
  lemma VerdictCites(tl: Timeline, cfg: Config, pf: FloatParser)
    requires TimelineValid(tl, pf) && Analyze(tl, cfg, pf).cause.Some?
    ensures var v := Analyze(tl, cfg, pf); Cites(v.cause.value, AllCited(v.evidence), tl, cfg, pf)
  {
    AnalyzeValidIff(tl, cfg, pf);
    if !NoFlagEarned(tl) {
      ValidIsChecked(tl, pf);
      SettledCites(tl, cfg, pf);
      StampingKeepsCitations(Settle(ORDERED, tl, cfg, pf).evidence, tl.slotStart);
    }
  }
}
