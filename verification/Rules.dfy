/** The thirteen attribution rules (internal/rca/rules).  Statement and label wording is reduced to
    a tag; everything a rule reads or decides on is kept. */
module Rules {
  import opened Text
  import opened Domain
  import opened LatencyStages
  import opened Verdicts

  datatype Config = Config(
    dominance: real, clockOffsetMax: Duration, clockSampleMaxAge: Duration, networkDeviation: Duration,
    engineSpikeMultiplier: real, peerCountMin: real, ioWaitPct: real, cpuStealPct: real, psiMemAvg10: real)

  datatype RuleId = R010 | R011 | R100 | R120 | R110 | R200 | R300 | R310 | R400 | R410 | R500 | R600 | R999

  const ORDERED: seq<RuleId> := [R010, R011, R100, R120, R110, R200, R300, R310, R400, R410, R500, R600, R999]

  function Ms(d: Duration): real { d as real / 1000000.0 }

  function Insufficient(evidence: seq<Evidence>): Draft { Draft(Some(Cause.InsufficientData), Low, evidence) }

  // ------------------------------------------------------------------ R-010

  function DataCompleteness(tl: Timeline): Option<Draft> {
    if tl.duty.Some? && (!tl.collectionComplete || !tl.Has(CollectionCompleted)) then
      Some(Insufficient([Fact(tl.slotStart, "window not complete", Derived)]))
    else
      var included := tl.Last(AttestationIncluded);
      if included.Some? &&
         (included.value.Attr(ATTR_HEAD_CORRECT).None? || included.value.Attr(ATTR_TARGET_CORRECT).None?) then
        Some(Insufficient([Fact(included.value.at, "no canonical roots", Derived)]))
      else None
  }

  // ------------------------------------------------------------------ R-011

  predicate RequiresClockTrust(kind: Kind) {
    kind != SlotStart && kind != DutyAssigned && kind != BlockSkipped && kind != ClockSampled
    && kind != CollectionCompleted && kind != NetworkBaselineSampled
  }

  /** The largest offset seen and its sample instant; at == 0 while none was seen. */
  datatype Worst = Worst(at: Instant, offset: Duration)
  datatype ClockScan = Stop(draft: Draft) | Go(worst: Worst)

  function InsufficientClock(tl: Timeline, at: Instant, statement: string): Draft {
    Insufficient([Fact(if at == 0 then tl.slotStart else at, statement, Derived)])
  }

  function Reading(tl: Timeline, cfg: Config, measured: bool, at: Instant, sampleAt: Instant, offset: Duration,
                   w: Worst): ClockScan {
    if !measured then Stop(InsufficientClock(tl, at, "no offset"))
    else if cfg.clockSampleMaxAge <= 0 || Abs(Sub(at, sampleAt)) > cfg.clockSampleMaxAge then
      Stop(InsufficientClock(tl, at, "stale offset"))
    else Go(if w.at == 0 || Abs(offset) > w.offset then Worst(sampleAt, Abs(offset)) else w)
  }

  function ScanObs(tl: Timeline, cfg: Config, obs: seq<Observation>, w: Worst): ClockScan {
    if obs == [] then Go(w)
    else
      var o := obs[0];
      if !RequiresClockTrust(o.kind) then ScanObs(tl, cfg, obs[1..], w)
      else match Reading(tl, cfg, o.clockMeasured, o.at, o.clockSampleAt, o.clockOffset, w)
        case Stop(d) => Stop(d)
        case Go(w') => ScanObs(tl, cfg, obs[1..], w')
  }

  function SampleKey(m: Sample): string { ComponentName(m.component) + "\0" + m.name }

  /** The newest non-derived sample under each key; the first among equals. */
  function LatestBy(samples: seq<Sample>, key: Sample -> string): map<string, Sample> {
    if samples == [] then map[]
    else
      var m := samples[|samples| - 1];
      var before := LatestBy(samples[..|samples| - 1], key);
      if m.source == Derived || (key(m) in before && m.at <= before[key(m)].at) then before
      else before[key(m) := m]
  }

  function Latest(samples: seq<Sample>): map<string, Sample> {
    LatestBy(samples, SampleKey)
  }

  function ScanKeys(tl: Timeline, cfg: Config, keys: seq<string>, latest: map<string, Sample>, w: Worst): ClockScan
    requires forall k | k in keys :: k in latest
  {
    if keys == [] then Go(w)
    else
      var m := latest[keys[0]];
      match Reading(tl, cfg, m.clockMeasured, m.at, m.clockSampleAt, m.clockOffset, w)
      case Stop(d) => Stop(d)
      case Go(w') => ScanKeys(tl, cfg, keys[1..], latest, w')
  }

  function ClockScanAll(tl: Timeline, cfg: Config): ClockScan {
    match ScanObs(tl, cfg, tl.observations, Worst(0, 0))
    case Stop(d) => Stop(d)
    case Go(w) =>
      var latest := Latest(tl.samples);
      ScanKeys(tl, cfg, SortedKeys(latest.Keys), latest, w)
  }

  function ClockVerdict(cfg: Config, scan: ClockScan): Option<Draft> {
    match scan
    case Stop(d) => Some(d)
    case Go(w) =>
      if w.at == 0 || w.offset <= cfg.clockOffsetMax then None
      else Some(Draft(Some(Cause.HostClockDrift), High,
                      [Measured(w.at, "clock offset", Clock, "clock offset", Ms(w.offset), Ms(cfg.clockOffsetMax),
                                Milliseconds)]))
  }

  function ClockTrust(tl: Timeline, cfg: Config): Option<Draft> {
    ClockVerdict(cfg, ClockScanAll(tl, cfg))
  }

  // ------------------------------------------------------------------ R-100

  function ProposerMissed(tl: Timeline): Option<Draft> {
    if tl.duty.None? || tl.duty.value.kind != Attester then None
    else
      var skipped := tl.First(BlockSkipped);
      if skipped.None? || tl.Has(BlockSeen) || tl.Has(HeadUpdated) || tl.Has(BlockProposed) then None
      else
        var skip := Fact(skipped.value.at, "slot skipped", BeaconAPI);
        var included := tl.Last(AttestationIncluded);
        if included.Some? then
          Some(Draft(Some(Cause.ProposerMissed), High, [skip, Fact(included.value.at, "included", BeaconAPI)]))
        else if tl.Has(AttestationPublished) then None
        else
          Some(Insufficient([skip, Fact(tl.slotStart, "no attestation", Derived),
                             Fact(tl.slotStart, "no local path", Derived)]))
  }

  // ------------------------------------------------------------------ R-120

  /** dutyHasObservableLoss. */
  predicate ObservableLoss(tl: Timeline) {
    if tl.duty.None? then false
    else if tl.duty.value.kind == Proposer then !tl.Has(BlockProposed)
    else
      var included := tl.Last(AttestationIncluded);
      included.None? || LossOf(included.value)
  }

  predicate LossOf(included: Observation) {
    var delay := included.Attr(ATTR_INCLUSION_DELAY);
    if delay.None? then true
    else if ParseUint(delay.value) != Some(1) then true
    else included.Attr(ATTR_HEAD_CORRECT) != Some("true") || included.Attr(ATTR_TARGET_CORRECT) != Some("true")
  }

  function AttrOrEmpty(o: Observation, key: string): string {
    if key in o.attrs then o.attrs[key] else ""
  }

  function PayloadLate(tl: Timeline): Option<Draft> {
    if tl.schedule.payloadRevealDeadline <= 0 || tl.Has(BlockSkipped) || !ObservableLoss(tl) then None
    else
      var attested := tl.Last(PayloadAttested);
      if attested.None? || AttrOrEmpty(attested.value, ATTR_PAYLOAD_PRESENT) != "false" then None
      else
        var votes := Atoi(AttrOrEmpty(attested.value, ATTR_PTC_VOTES));
        if votes.None? || votes.value < 1 then None
        else
          Some(Draft(Some(Cause.PayloadLate), if votes.value >= 2 then High else Medium,
                     [Fact(attested.value.at, "committee vote", BeaconAPI),
                      Measured(tl.slotStart, "payload deadline", Derived, "payload deadline",
                               0.0, Ms(Sub(tl.slotStart + tl.schedule.payloadRevealDeadline, tl.slotStart)),
                               Milliseconds)]))
  }

  // ---------------------------------------------------------- R-110 and R-200

  /** propagationOverspent: block arrival used up the attestation budget, and dominated if any other
      stage is known. */
  predicate Overspent(tl: Timeline, cfg: Config) {
    var s := ComputeStages(tl);
    && s.propagation.Some? && s.propagation.value > tl.Budget()
    && (s.validation.Some? || s.signing.Some? ==> Dominant(s, cfg.dominance) == Some(Propagation))
  }

  function NetworkLateBlock(tl: Timeline, cfg: Config): Option<Draft> {
    if !Overspent(tl, cfg) then None
    else if tl.network.None? then
      Some(Insufficient([Fact(tl.slotStart, "no baseline", PromScrape)]))
    else
      var local := ComputeStages(tl).propagation.value;
      var p50 := tl.network.value.p50;
      if local <= tl.Budget() || p50 <= tl.Budget() then None
      else
        var difference: int := WrapInt(local - p50);
        var deviation := if difference < 0 then WrapInt(-difference) else difference;
        if deviation >= cfg.networkDeviation then None
        else Some(LateBlockVerdict(tl, local, tl.network.value))
  }

  function LateBlockVerdict(tl: Timeline, local: Duration, baseline: Baseline): Draft {
    Draft(Some(Cause.LateBlock), if baseline.sampleCount < 10 then Medium else High,
          [Measured(tl.slotStart + local, "local arrival", Derived, "vs deadline", Ms(local), Ms(tl.Budget()),
                    Milliseconds),
           Measured(tl.slotStart, "network p50", baseline.source, "vs p50", Ms(local), Ms(baseline.p50), Milliseconds)])
  }

  datatype MetricFact = MetricFact(value: real, at: Instant, source: Source)

  function PeerObs(obs: seq<Observation>, pf: FloatParser): (r: Option<MetricFact>)
    ensures (forall o | o in obs :: o.at != 0) ==> (r.Some? ==> r.value.at != 0)
  {
    if obs == [] then None
    else
      var o := obs[|obs| - 1];
      var text := o.Attr(ATTR_PEER_COUNT);
      if o.kind == PeerCountSampled && text.Some? && pf(text.value).Some?
      then Some(MetricFact(pf(text.value).value, o.at, o.source))
      else PeerObs(obs[..|obs| - 1], pf)
  }

  function NewestSample(samples: seq<Sample>, component: Component, name: string): (r: Option<MetricFact>)
    ensures (forall m | m in samples :: m.at != 0) ==> (r.Some? ==> r.value.at != 0)
  {
    if samples == [] then None
    else
      var m := samples[|samples| - 1];
      if m.component == component && m.name == name then Some(MetricFact(m.value, m.at, m.source))
      else NewestSample(samples[..|samples| - 1], component, name)
  }

  function PeerCountFact(tl: Timeline, pf: FloatParser): Option<MetricFact> {
    var o := PeerObs(tl.observations, pf);
    if o.Some? then o else NewestSample(tl.samples, CL, "cl_peer_count")
  }

  function P2PDegraded(tl: Timeline, cfg: Config, pf: FloatParser): Option<Draft> {
    if !Overspent(tl, cfg) || tl.network.None? || tl.network.value.p50 > tl.Budget() then None
    else
      var peers := PeerCountFact(tl, pf);
      if peers.None? || peers.value.value >= cfg.peerCountMin then None
      else
        var propagation := ComputeStages(tl).propagation.value;
        Some(Draft(Some(Cause.P2PDegraded), if tl.network.value.sampleCount < 10 then Medium else High,
                   [Measured(tl.slotStart + propagation, "local arrival", PromScrape, "vs deadline", Ms(propagation),
                             Ms(tl.Budget()), Milliseconds),
                    Measured(tl.slotStart, "network p50", tl.network.value.source, "vs deadline",
                             Ms(tl.network.value.p50), Ms(tl.Budget()), Milliseconds),
                    Measured(peers.value.at, "peer count", peers.value.source, "peers", peers.value.value,
                             cfg.peerCountMin, Number)]))
  }

  // ---------------------------------------------------------- R-300 and R-310

  datatype CallWindow = CallWindow(at: Instant, method_: string, count: nat, durationMS: real)

  function ParseCall(o: Observation, pf: FloatParser): Option<CallWindow> {
    if o.kind != EngineCall || o.source != PromScrape then None
    else
      var method_, duration, count := o.Attr(ATTR_ENGINE_METHOD), o.Attr(ATTR_DURATION_MS), o.Attr(ATTR_SAMPLE_COUNT);
      if method_.None? || duration.None? || pf(duration.value).None? || pf(duration.value).value < 0.0 then None
      else if method_.value != NEW_PAYLOAD && method_.value != FORKCHOICE_UPDATED then None
      else if count.None? || ParseUint(count.value).None? || ParseUint(count.value).value == 0 then None
      else Some(CallWindow(o.at, method_.value, ParseUint(count.value).value, pf(duration.value).value))
  }

  function EngineCalls(obs: seq<Observation>, pf: FloatParser): (calls: seq<CallWindow>)
    ensures forall c | c in calls :: c.durationMS >= 0.0 && exists o :: o in obs && o.at == c.at
  {
    if obs == [] then []
    else
      var rest := EngineCalls(obs[..|obs| - 1], pf);
      var call := ParseCall(obs[|obs| - 1], pf);
      if call.Some? then
        assert obs[|obs| - 1] in obs;
        rest + [call.value]
      else rest
  }

  /** Exactly one newPayload window and one forkchoiceUpdated window. */
  predicate CompleteCalls(calls: seq<CallWindow>) {
    |calls| == 2 && ((calls[0].method_ == NEW_PAYLOAD && calls[1].method_ == FORKCHOICE_UPDATED)
                     || (calls[0].method_ == FORKCHOICE_UPDATED && calls[1].method_ == NEW_PAYLOAD))
  }

  function TotalMS(calls: seq<CallWindow>): (t: real)
    requires forall c | c in calls :: c.durationMS >= 0.0
    ensures t >= 0.0
  {
    if calls == [] then 0.0 else TotalMS(calls[..|calls| - 1]) + calls[|calls| - 1].durationMS
  }

  function EngineTotal(calls: seq<CallWindow>): (d: Duration)
    requires forall c | c in calls :: c.durationMS >= 0.0
    ensures d >= 0
  {
    Nanoseconds(TotalMS(calls))
  }

  /** Milliseconds as a Duration, saturated at the int64 maximum. */
  function Nanoseconds(ms: real): (d: Duration)
    requires ms >= 0.0
    ensures d >= 0
  {
    var ns := ms * 1000000.0;
    if ns >= MAX_INT64 as real then MAX_INT64 else ns.Floor
  }

  function Half(s: Stages): int
    requires s.validation.Some?
  {
    var v: int := s.validation.value;
    if v >= 0 then v / 2 else -(-v / 2)
  }

  function SampleValue(samples: seq<Sample>, component: Component, name: string): Option<Sample> {
    if samples == [] then None
    else
      var m := samples[|samples| - 1];
      var before := SampleValue(samples[..|samples| - 1], component, name);
      if m.component == component && m.name == name && (before.None? || m.at > before.value.at) then Some(m) else before
  }

  function CallEvidence(calls: seq<CallWindow>): (e: seq<Evidence>)
    ensures |e| == |calls|
    ensures forall i | 0 <= i < |e| :: EvidenceValid(e[i]) <==> calls[i].at != 0
  {
    if calls == [] then []
    else
      var c := calls[|calls| - 1];
      CallEvidence(calls[..|calls| - 1]) +
      [Measured(c.at, "engine call", PromScrape, "duration", c.durationMS, 0.0, Milliseconds)]
  }

  predicate LateHead(tl: Timeline) {
    tl.Has(HeadUpdated) && tl.First(HeadUpdated).value.at > tl.Deadline()
  }

  function SpikeThreshold(baseline: Sample, cfg: Config): real {
    cfg.engineSpikeMultiplier * baseline.value
  }

  /** The engine total is beyond the configured multiple of its own p99. */
  predicate Spiked(total: Duration, baseline: Option<Sample>, cfg: Config) {
    baseline.Some? && baseline.value.value > 0.0 && Ms(total) > SpikeThreshold(baseline.value, cfg)
  }

  function ELSlow(tl: Timeline, cfg: Config, pf: FloatParser): Option<Draft> {
    var s := ComputeStages(tl);
    if !LateHead(tl) || Dominant(s, cfg.dominance) != Some(Validation) || s.validation.None? then None
    else
      var calls := EngineCalls(tl.observations, pf);
      if !CompleteCalls(calls) || EngineTotal(calls) < Half(s) then None
      else
        var total := EngineTotal(calls);
        var baseline := SampleValue(tl.samples, EL, "el_engine_calls_p99_ms");
        if !Spiked(total, baseline, cfg) then None
        else
          Some(ExecutionVerdict(calls, total, SpikeThreshold(baseline.value, cfg)))
  }

  function ExecutionVerdict(calls: seq<CallWindow>, total: Duration, threshold: real): Draft
    requires |calls| == 2
  {
    Draft(Some(Cause.ELSlow), Medium,
          CallEvidence(calls)
          + [Measured(calls[1].at, "engine total", Derived, "vs threshold", Ms(total), threshold, Milliseconds)])
  }

  function CLSlow(tl: Timeline, cfg: Config, pf: FloatParser): Option<Draft> {
    var s := ComputeStages(tl);
    var calls := EngineCalls(tl.observations, pf);
    if !LateHead(tl) || !CompleteCalls(calls) || s.validation.None? || Dominant(s, cfg.dominance) != Some(Validation)
       || EngineTotal(calls) >= Half(s) then None
    else Some(ConsensusVerdict(tl, cfg, s, calls, EngineTotal(calls)))
  }

  /** clSlowVerdict. */
  function ConsensusVerdict(tl: Timeline, cfg: Config, s: Stages, calls: seq<CallWindow>, total: Duration): Draft
    requires s.validation.Some? && |calls| == 2
  {
    Draft(Some(Cause.CLSlow), Medium,
          [Measured(tl.slotStart, "validation share", Derived, "share", ShareOr0(s, Validation), cfg.dominance, Ratio)]
          + CallEvidence(calls)
          + [Measured(calls[1].at, "engine total", Derived, "vs half", Ms(total), Half(s) as real / 1000000.0,
                      Milliseconds)])
  }

  // ---------------------------------------------------------- R-400 and R-410

  function VCDisconnected(tl: Timeline): Option<Draft> {
    var block, head, completed := TimedBlockSeen(tl.observations), tl.First(HeadUpdated), tl.First(CollectionCompleted);
    if tl.Has(AttestationPublished) || tl.Has(AttestationIncluded) then None
    else if block.None? || block.value.at >= tl.Deadline() then None
    else if head.None? || head.value.at >= tl.Deadline() then None
    else if completed.None? then None
    else Some(Draft(Some(Cause.VCDisconnected), Medium, [Fact(completed.value.at, "no attestation", Derived)]))
  }

  function VCSlow(tl: Timeline, cfg: Config): Option<Draft> {
    var block, head, published := TimedBlockSeen(tl.observations), tl.First(HeadUpdated),
        tl.First(AttestationPublished);
    if block.None? || head.None? || published.None? then None
    else if block.value.at >= tl.Deadline() || head.value.at >= tl.Deadline() ||
            published.value.at <= tl.Deadline() then None
    else if Dominant(ComputeStages(tl), cfg.dominance) != Some(Signing) then None
    else Some(Draft(Some(Cause.VCSlow), Medium, [Fact(published.value.at, "published late", BeaconAPI)]))
  }

  // ------------------------------------------------------------------ R-500

  /** The reorgs among the slot's own observations, or every record of the window's list. */
  function ReorgEvidence(obs: seq<Observation>, all: bool): (e: seq<Evidence>)
    ensures (forall o | o in obs :: o.at != 0) ==> forall i | 0 <= i < |e| :: EvidenceValid(e[i])
  {
    if obs == [] then []
    else
      var o := obs[|obs| - 1];
      ReorgEvidence(obs[..|obs| - 1], all) + (if all || o.kind == Reorg then [Fact(o.at, "reorg", o.source)] else [])
  }

  function InclusionFailure(tl: Timeline): Option<Draft> {
    var published, completed, head := tl.First(AttestationPublished), tl.First(CollectionCompleted),
        tl.First(HeadUpdated);
    if published.None? || tl.Has(AttestationIncluded) || published.value.at >= tl.Deadline() ||
       completed.None? then None
    else if published.value.Attr(ATTR_BLOCK_ROOT).None? || head.None? || head.value.Attr(ATTR_BLOCK_ROOT).None? then
      Some(Insufficient([Fact(published.value.at, "no head root", Derived)]))
    else if published.value.Attr(ATTR_BLOCK_ROOT) != head.value.Attr(ATTR_BLOCK_ROOT) then None
    else Some(InclusionVerdict(published.value, completed.value, head.value, tl))
  }

  function InclusionVerdict(published: Observation, completed: Observation, head: Observation, tl: Timeline): Draft {
    Draft(Some(Cause.InclusionFailure), Medium,
          [Fact(published.at, "published", BeaconAPI), Fact(completed.at, "window closed", Derived),
           Fact(head.at, "canonical head", BeaconAPI)]
          + ReorgEvidence(tl.observations, false) + ReorgEvidence(tl.reorgs, true))
  }

  // ------------------------------------------------------------------ R-600

  function HostObs(obs: seq<Observation>, metric: string, pf: FloatParser): (r: Option<MetricFact>)
    ensures (forall o | o in obs :: o.at != 0) ==> (r.Some? ==> r.value.at != 0)
  {
    if obs == [] then None
    else
      var o := obs[|obs| - 1];
      var text := o.Attr(ATTR_VALUE);
      if o.kind == HostSampled && o.Attr(ATTR_METRIC) == Some(metric) && text.Some? && pf(text.value).Some?
      then Some(MetricFact(pf(text.value).value, o.at, o.source))
      else HostObs(obs[..|obs| - 1], metric, pf)
  }

  function HostFact(tl: Timeline, obsMetric: string, sampleMetric: string, pf: FloatParser): Option<MetricFact> {
    var o := HostObs(tl.observations, obsMetric, pf);
    if o.Some? then o else NewestSample(tl.samples, Host, sampleMetric)
  }

  function HostVerdict(cause: Cause, f: MetricFact, threshold: real): Draft {
    Draft(Some(cause), Medium, [Measured(f.at, "host pressure", f.source, "pressure", f.value, threshold, Percent)])
  }

  function HostFallback(tl: Timeline, cfg: Config, pf: FloatParser): Option<Draft> {
    var io := HostFact(tl, "iowait_pct", "host_iowait_pct", pf);
    var steal := HostFact(tl, "cpu_steal_pct", "host_cpu_steal_pct", pf);
    var mem := HostFact(tl, "mem_pressure_pct", "host_mem_pressure_pct", pf);
    if !ObservableLoss(tl) then None
    else if io.Some? && io.value.value > cfg.ioWaitPct then Some(HostVerdict(Cause.HostDiskIO, io.value, cfg.ioWaitPct))
    else if steal.Some? && steal.value.value > cfg.cpuStealPct then
      Some(HostVerdict(Cause.HostCPUSteal, steal.value, cfg.cpuStealPct))
    else if mem.Some? && mem.value.value > cfg.psiMemAvg10 then
      Some(HostVerdict(Cause.HostMemoryPressure, mem.value, cfg.psiMemAvg10))
    else None
  }

  // ------------------------------------------------------------------ R-999

  function StageEvidence(tl: Timeline, s: Stages, stage: Stage): seq<Evidence> {
    var d := s.Of(stage);
    if d.None? then [Fact(tl.slotStart, "stage unknown", Derived)]
    else
      [Measured(tl.slotStart, "stage duration", Derived, "duration", Ms(d.value), Ms(Total(s)), Milliseconds),
       Measured(tl.slotStart, "stage share", Derived, "share", ShareOr0(s, stage), 1.0, Ratio)]
  }

  function VerdictAt(tl: Timeline): Instant {
    if tl.Has(CollectionCompleted) then tl.First(CollectionCompleted).value.at else tl.slotStart
  }

  function CatchAll(tl: Timeline): Draft {
    var s := ComputeStages(tl);
    if ObservableLoss(tl) && s.propagation.None? && s.validation.None? && s.signing.None? then
      Insufficient([Fact(VerdictAt(tl), "nothing timed", Derived), Fact(tl.slotStart, "polled arrival", Derived)])
    else
      Draft(Some(Cause.NoRuleMatched), Low,
            [Fact(VerdictAt(tl), "taxonomy gap", Derived)]
            + StageEvidence(tl, s, Propagation) + StageEvidence(tl, s, Validation) + StageEvidence(tl, s, Signing))
  }

  // ------------------------------------------------------------- dispatch

  function Evaluate(rule: RuleId, tl: Timeline, cfg: Config, pf: FloatParser): Option<Draft> {
    match rule
    case R010 => DataCompleteness(tl)
    case R011 => ClockTrust(tl, cfg)
    case R100 => ProposerMissed(tl)
    case R120 => PayloadLate(tl)
    case R110 => NetworkLateBlock(tl, cfg)
    case R200 => P2PDegraded(tl, cfg, pf)
    case R300 => ELSlow(tl, cfg, pf)
    case R310 => CLSlow(tl, cfg, pf)
    case R400 => VCDisconnected(tl)
    case R410 => VCSlow(tl, cfg)
    case R500 => InclusionFailure(tl)
    case R600 => HostFallback(tl, cfg, pf)
    case R999 => Some(CatchAll(tl))
  }
}
