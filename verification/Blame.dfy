/** When each cause is named.  What a rule finds is said on the records of the timeline alone, and on
    every valid timeline each rule finds exactly that: Analyze names a cause exactly when the first rule
    to find anything finds it. */
module Blame {
  import opened Text
  import opened Domain
  import opened LatencyStages
  import opened Verdicts
  import opened Rules
  import opened Engine
  import opened ClockTrustTheorems
  import opened AnalyzeTheorems
  import opened Facts
  import opened Readings

  const IO_WAIT: Gauge := HostGauge("iowait_pct", "host_iowait_pct")
  const CPU_STEAL: Gauge := HostGauge("cpu_steal_pct", "host_cpu_steal_pct")
  const MEMORY_PRESSURE: Gauge := HostGauge("mem_pressure_pct", "host_mem_pressure_pct")

  // ----------------------------------------------------- what rules look for

  /** A duty without a completion marker, or an included attestation not checked against canon. */
  ghost predicate Incomplete(tl: Timeline) {
    || (tl.duty.Some? && Never(tl, CollectionCompleted))
    || (exists i: nat :: LastOfKind(tl.observations, AttestationIncluded, i) && Unchecked(tl.observations[i]))
  }

  predicate Unchecked(o: Observation) {
    ATTR_HEAD_CORRECT !in o.attrs || ATTR_TARGET_CORRECT !in o.attrs
  }

  /** Every reading is measured and fresh; only the size of some offset can be at fault. */
  predicate FreshClock(tl: Timeline, cfg: Config) {
    ClockTrusted(tl, cfg.(clockOffsetMax := MAX_INT64))
  }

  /** An attester's slot was skipped, and no client saw a block in it. */
  predicate SkippedUnseen(tl: Timeline) {
    && tl.duty.Some? && tl.duty.value.kind == Attester
    && !Never(tl, BlockSkipped) && Never(tl, BlockSeen) && Never(tl, HeadUpdated) && Never(tl, BlockProposed)
  }

  /** The last committee report says the payload was absent, on this many votes. */
  ghost predicate PayloadAbsent(tl: Timeline, votes: int) {
    exists i: nat :: LastOfKind(tl.observations, PayloadAttested, i) && VotesAbsent(tl.observations[i], votes)
  }

  predicate VotesAbsent(o: Observation, votes: int) {
    && o.Attr(ATTR_PAYLOAD_PRESENT) == Some("false")
    && o.Attr(ATTR_PTC_VOTES).Some? && Atoi(o.Attr(ATTR_PTC_VOTES).value) == Some(votes) && votes >= 1
  }

  /** Propagation took p, more than the whole attestation budget, and led whatever else is known. */
  ghost predicate SpentBudget(tl: Timeline, cfg: Config, p: Duration) {
    && StageIs(tl, Propagation, p) && p > tl.schedule.attestationDeadline
    && (OtherKnown(tl, Propagation) ==> Dominates(tl, cfg.dominance, Propagation))
  }

  /** The network's median arrival was past the deadline as well, and close to the local one. */
  predicate LateEverywhere(tl: Timeline, cfg: Config, p: Duration) {
    && tl.network.Some? && tl.network.value.p50 > tl.schedule.attestationDeadline
    && p - tl.network.value.p50 < cfg.networkDeviation && tl.network.value.p50 - p < cfg.networkDeviation
  }

  predicate NetworkOnTime(tl: Timeline) {
    tl.network.Some? && tl.network.value.p50 <= tl.schedule.attestationDeadline
  }

  /** Confidence in a network comparison. */
  predicate Sampled(tl: Timeline, k: Confidence) {
    tl.network.Some? && k == if tl.network.value.sampleCount >= 10 then High else Medium
  }

  /** The reading the rules go by is above, or below, a threshold. */
  ghost predicate ReadsAbove(tl: Timeline, g: Gauge, pf: FloatParser, threshold: real) {
    exists f :: IsReading(tl, g, pf, f) && f.value > threshold
  }

  ghost predicate ReadsBelow(tl: Timeline, g: Gauge, pf: FloatParser, threshold: real) {
    exists f :: IsReading(tl, g, pf, f) && f.value < threshold
  }

  predicate KindAfter(tl: Timeline, kind: Kind) {
    exists o | o in tl.observations :: o.kind == kind && EarliestAt(tl, kind, o.at) && o.at > Due(tl)
  }

  predicate KindBefore(tl: Timeline, kind: Kind) {
    exists o | o in tl.observations :: o.kind == kind && o.at < Due(tl)
  }

  predicate BlockBefore(tl: Timeline) {
    exists o | o in tl.observations :: TimedBlock(o) && o.at < Due(tl)
  }

  /** Milliseconds in whole nanoseconds, cut off at the int64 maximum. */
  predicate RoundsDown(ms: real, ns: int) {
    if ms * 1000000.0 >= MAX_INT64 as real then ns == MAX_INT64
    else ns as real <= ms * 1000000.0 < (ns + 1) as real
  }

  /** The slot's two Engine windows took this long together. */
  ghost predicate EngineTime(tl: Timeline, pf: FloatParser, ns: int) {
    exists i: nat, k: nat, p: real, f: real :: TwoWindows(tl.observations, pf, i, k, p, f) && RoundsDown(p + f, ns)
  }

  /** At least the truncated half of validation, or less. */
  ghost predicate EngineHalf(tl: Timeline, ns: int, atLeast: bool) {
    exists v: Duration :: StageIs(tl, Validation, v) && (atLeast <==> 2 * ns + 1 >= v)
  }

  /** More than the configured multiple of the freshest Engine p99 baseline. */
  ghost predicate EngineSpiked(tl: Timeline, cfg: Config, ns: int) {
    exists m: nat :: Freshest(tl.samples, EL, "el_engine_calls_p99_ms", m) &&
      Exceeds(ns, tl.samples[m].value, cfg.engineSpikeMultiplier)
  }

  predicate Exceeds(ns: int, baseline: real, multiplier: real) {
    baseline > 0.0 && ns as real / 1000000.0 > multiplier * baseline
  }

  ghost predicate EngineLong(tl: Timeline, cfg: Config, pf: FloatParser) {
    exists ns: int :: EngineTime(tl, pf, ns) && EngineHalf(tl, ns, true) && EngineSpiked(tl, cfg, ns)
  }

  ghost predicate EngineShort(tl: Timeline, pf: FloatParser) {
    exists ns: int :: EngineTime(tl, pf, ns) && EngineHalf(tl, ns, false)
  }

  ghost predicate ValidationLate(tl: Timeline, cfg: Config) {
    KindAfter(tl, HeadUpdated) && Dominates(tl, cfg.dominance, Validation)
  }

  /** The first listed publication, i, was in time, and the closed window never included it. */
  ghost predicate PublishedInVain(tl: Timeline, i: nat) {
    && FirstOfKind(tl.observations, AttestationPublished, i) && tl.observations[i].at < Due(tl)
    && Never(tl, AttestationIncluded) && !Never(tl, CollectionCompleted)
  }

  /** Observation i names a root, and so does the first listed head update. */
  ghost predicate RootsKnown(tl: Timeline, i: nat, h: nat)
    requires i < |tl.observations|
  {
    && FirstOfKind(tl.observations, HeadUpdated, h)
    && ATTR_BLOCK_ROOT in tl.observations[i].attrs && ATTR_BLOCK_ROOT in tl.observations[h].attrs
  }

  ghost predicate VotedForHead(tl: Timeline, i: nat)
    requires i < |tl.observations|
  {
    exists h: nat :: RootsKnown(tl, i, h) &&
      tl.observations[i].attrs[ATTR_BLOCK_ROOT] == tl.observations[h].attrs[ATTR_BLOCK_ROOT]
  }

  ghost predicate RootUnknown(tl: Timeline, i: nat)
    requires i < |tl.observations|
  {
    forall h: nat :: !RootsKnown(tl, i, h)
  }

  ghost predicate NothingTimed(tl: Timeline) {
    Unknown(tl, Propagation) && Unknown(tl, Validation) && Unknown(tl, Signing)
  }

  ghost predicate SomeSpent(tl: Timeline, cfg: Config) {
    exists p: Duration :: SpentBudget(tl, cfg, p)
  }

  ghost predicate SpentEverywhere(tl: Timeline, cfg: Config) {
    exists p: Duration :: SpentBudget(tl, cfg, p) && LateEverywhere(tl, cfg, p)
  }

  // ------------------------------------------------------ what a rule finds

  ghost predicate CompletenessFinds(c: Cause, k: Confidence, tl: Timeline) {
    c == Cause.InsufficientData && k == Low && Incomplete(tl)
  }

  ghost predicate ClockFinds(c: Cause, k: Confidence, tl: Timeline, cfg: Config) {
    || (c == Cause.HostClockDrift && k == High && FreshClock(tl, cfg) && !ClockTrusted(tl, cfg))
    || (c == Cause.InsufficientData && k == Low && !FreshClock(tl, cfg))
  }

  ghost predicate SkippedFinds(c: Cause, k: Confidence, tl: Timeline) {
    && SkippedUnseen(tl)
    && ((c == Cause.ProposerMissed && k == High && !Never(tl, AttestationIncluded)) ||
        (c == Cause.InsufficientData && k == Low && Never(tl, AttestationIncluded) && Never(tl, AttestationPublished)))
  }

  ghost predicate PayloadFinds(c: Cause, k: Confidence, tl: Timeline) {
    && c == Cause.PayloadLate && tl.schedule.payloadRevealDeadline > 0 && Never(tl, BlockSkipped) && Lost(tl)
    && exists votes: int :: PayloadAbsent(tl, votes) && k == if votes >= 2 then High else Medium
  }

  ghost predicate NetworkFinds(c: Cause, k: Confidence, tl: Timeline, cfg: Config) {
    || (c == Cause.LateBlock && Sampled(tl, k) && SpentEverywhere(tl, cfg))
    || (c == Cause.InsufficientData && k == Low && tl.network.None? && SomeSpent(tl, cfg))
  }

  ghost predicate PeerFinds(c: Cause, k: Confidence, tl: Timeline, cfg: Config, pf: FloatParser) {
    && c == Cause.P2PDegraded && Sampled(tl, k) && NetworkOnTime(tl) && SomeSpent(tl, cfg)
    && ReadsBelow(tl, PeerGauge, pf, cfg.peerCountMin)
  }

  ghost predicate ExecutionFinds(c: Cause, k: Confidence, tl: Timeline, cfg: Config, pf: FloatParser) {
    c == Cause.ELSlow && k == Medium && ValidationLate(tl, cfg) && EngineLong(tl, cfg, pf)
  }

  ghost predicate ConsensusFinds(c: Cause, k: Confidence, tl: Timeline, cfg: Config, pf: FloatParser) {
    c == Cause.CLSlow && k == Medium && ValidationLate(tl, cfg) && EngineShort(tl, pf)
  }

  ghost predicate DisconnectedFinds(c: Cause, k: Confidence, tl: Timeline) {
    && c == Cause.VCDisconnected && k == Medium
    && Never(tl, AttestationPublished) && Never(tl, AttestationIncluded) && !Never(tl, CollectionCompleted)
    && BlockBefore(tl) && KindBefore(tl, HeadUpdated)
  }

  ghost predicate SigningFinds(c: Cause, k: Confidence, tl: Timeline, cfg: Config) {
    && c == Cause.VCSlow && k == Medium && BlockBefore(tl) && KindBefore(tl, HeadUpdated)
    && KindAfter(tl, AttestationPublished) && Dominates(tl, cfg.dominance, Signing)
  }

  ghost predicate InclusionFinds(c: Cause, k: Confidence, tl: Timeline) {
    || (c == Cause.InsufficientData && k == Low && exists i: nat :: PublishedInVain(tl, i) && RootUnknown(tl, i))
    || (c == Cause.InclusionFailure && k == Medium && exists i: nat :: PublishedInVain(tl, i) && VotedForHead(tl, i))
  }

  /** The first of the three that is above its threshold. */
  ghost predicate HostFinds(c: Cause, k: Confidence, tl: Timeline, cfg: Config, pf: FloatParser) {
    && k == Medium && Lost(tl)
    && var io := ReadsAbove(tl, IO_WAIT, pf, cfg.ioWaitPct);
    && var steal := ReadsAbove(tl, CPU_STEAL, pf, cfg.cpuStealPct);
    && var memory := ReadsAbove(tl, MEMORY_PRESSURE, pf, cfg.psiMemAvg10);
    && ((c == Cause.HostDiskIO && io) || (c == Cause.HostCPUSteal && steal && !io) ||
        (c == Cause.HostMemoryPressure && memory && !steal && !io))
  }

  ghost predicate CatchAllFinds(c: Cause, k: Confidence, tl: Timeline) {
    k == Low && c == if Lost(tl) && NothingTimed(tl) then Cause.InsufficientData else Cause.NoRuleMatched
  }

  /** Rule r finds cause c with confidence k, on the records of the timeline. */
  ghost predicate Finds(r: RuleId, c: Cause, k: Confidence, tl: Timeline, cfg: Config, pf: FloatParser) {
    match r
    case R010 => CompletenessFinds(c, k, tl)
    case R011 => ClockFinds(c, k, tl, cfg)
    case R100 => SkippedFinds(c, k, tl)
    case R120 => PayloadFinds(c, k, tl)
    case R110 => NetworkFinds(c, k, tl, cfg)
    case R200 => PeerFinds(c, k, tl, cfg, pf)
    case R300 => ExecutionFinds(c, k, tl, cfg, pf)
    case R310 => ConsensusFinds(c, k, tl, cfg, pf)
    case R400 => DisconnectedFinds(c, k, tl)
    case R410 => SigningFinds(c, k, tl, cfg)
    case R500 => InclusionFinds(c, k, tl)
    case R600 => HostFinds(c, k, tl, cfg, pf)
    case R999 => CatchAllFinds(c, k, tl)
  }

  predicate Says(d: Option<Draft>, c: Cause, k: Confidence) {
    d.Some? && d.value.cause == Some(c) && d.value.confidence == k
  }

  // ------------------------------------------------------ shared readings

  /** The rules' test of loss is the loss on record. */
  lemma LossIff(tl: Timeline)
    ensures ObservableLoss(tl) <==> Lost(tl)
  {
    NeverIff(tl, BlockProposed);
    if tl.Last(AttestationIncluded).Some? {
      var i := LastIsLastListed(tl.observations, AttestationIncluded);
      assert LossOf(tl.observations[i]) <==> !FullyEarned(tl.observations[i]);
    }
    forall i: nat | LastOfKind(tl.observations, AttestationIncluded, i)
      ensures tl.Last(AttestationIncluded) == Some(tl.observations[i])
    {
      LastIs(tl, AttestationIncluded, i);
    }
  }

  predicate Usable(tl: Timeline) {
    && Ascending(tl.observations) && tl.schedule.attestationDeadline > 0
    && (tl.network.Some? ==> tl.network.value.p50 >= 0)
  }

  lemma KindAfterIff(tl: Timeline, kind: Kind)
    requires Ascending(tl.observations)
    ensures KindAfter(tl, kind) <==> tl.Has(kind) && tl.First(kind).value.at > tl.Deadline()
  {
    if tl.Has(kind) {
      var o := tl.First(kind).value;
      FirstAt(tl, kind, o.at);
      assert o in tl.observations && EarliestAt(tl, kind, o.at);
    }
    if KindAfter(tl, kind) {
      var o :| o in tl.observations && o.kind == kind && EarliestAt(tl, kind, o.at) && o.at > Due(tl);
      FirstAt(tl, kind, o.at);
    }
  }

  lemma KindBeforeIff(tl: Timeline, kind: Kind)
    requires Ascending(tl.observations)
    ensures KindBefore(tl, kind) <==> tl.Has(kind) && tl.First(kind).value.at < tl.Deadline()
  {
    FirstIsEarliest(tl.observations, kind);
    if tl.Has(kind) { assert tl.First(kind).value in tl.observations; }
  }

  lemma BlockBeforeIff(tl: Timeline)
    requires Ascending(tl.observations)
    ensures var b := TimedBlockSeen(tl.observations);
            BlockBefore(tl) <==> b.Some? && b.value.at < tl.Deadline()
  {
    TimedIsEarliest(tl.observations);
    var b := TimedBlockSeen(tl.observations);
    if b.Some? { assert b.value in tl.observations && TimedBlock(b.value); }
  }

  lemma SpentBudgetIff(tl: Timeline, cfg: Config, p: Duration)
    requires Usable(tl)
    ensures SpentBudget(tl, cfg, p) <==> Overspent(tl, cfg) && ComputeStages(tl).propagation == Some(p)
  {
    StagesAre(tl, Propagation, p);
    DominatesIff(tl, cfg.dominance, Propagation);
    OtherKnownIff(tl, Propagation);
    var s := ComputeStages(tl);
    assert s.Of(Propagation) == s.propagation && s.Of(Validation) == s.validation && s.Of(Signing) == s.signing;
    assert tl.Budget() == tl.schedule.attestationDeadline;
  }

  lemma ReadsAboveIff(tl: Timeline, g: Gauge, pf: FloatParser, threshold: real)
    ensures ReadsAbove(tl, g, pf, threshold) <==>
            GaugeFact(tl, g, pf).Some? && GaugeFact(tl, g, pf).value.value > threshold
  {
    GaugeFactIs(tl, g, pf);
    forall f | IsReading(tl, g, pf, f) ensures GaugeFact(tl, g, pf) == Some(f) { ReadingIsGaugeFact(tl, g, pf, f); }
  }

  lemma ReadsBelowIff(tl: Timeline, g: Gauge, pf: FloatParser, threshold: real)
    ensures ReadsBelow(tl, g, pf, threshold) <==>
            GaugeFact(tl, g, pf).Some? && GaugeFact(tl, g, pf).value.value < threshold
  {
    GaugeFactIs(tl, g, pf);
    forall f | IsReading(tl, g, pf, f) ensures GaugeFact(tl, g, pf) == Some(f) { ReadingIsGaugeFact(tl, g, pf, f); }
  }

  // --------------------------------------------------------- rule by rule

  lemma CompletenessIff(c: Cause, k: Confidence, tl: Timeline)
    requires tl.collectionComplete <==> tl.Has(CollectionCompleted)
    ensures Says(DataCompleteness(tl), c, k) <==> CompletenessFinds(c, k, tl)
  {
    NeverIff(tl, CollectionCompleted);
    if tl.Last(AttestationIncluded).Some? {
      var i := LastIsLastListed(tl.observations, AttestationIncluded);
    }
    forall i: nat | LastOfKind(tl.observations, AttestationIncluded, i)
      ensures tl.Last(AttestationIncluded) == Some(tl.observations[i])
    {
      LastIs(tl, AttestationIncluded, i);
    }
  }

  lemma SkippedIff(c: Cause, k: Confidence, tl: Timeline)
    ensures Says(Rules.ProposerMissed(tl), c, k) <==> SkippedFinds(c, k, tl)
  {
    NeverIff(tl, BlockSkipped);
    NeverIff(tl, BlockSeen);
    NeverIff(tl, HeadUpdated);
    NeverIff(tl, BlockProposed);
    NeverIff(tl, AttestationIncluded);
    NeverIff(tl, AttestationPublished);
  }

  lemma PayloadAbsentIff(tl: Timeline, votes: int)
    ensures PayloadAbsent(tl, votes) <==>
            tl.Last(PayloadAttested).Some? && VotesAbsent(tl.Last(PayloadAttested).value, votes)
  {
    if tl.Last(PayloadAttested).Some? { var i := LastIsLastListed(tl.observations, PayloadAttested); }
    forall i: nat | LastOfKind(tl.observations, PayloadAttested, i)
      ensures tl.Last(PayloadAttested) == Some(tl.observations[i])
    {
      LastIs(tl, PayloadAttested, i);
    }
  }

  /** A missing votes text reads as the empty one, which is no number. */
  lemma VotesRead(o: Observation, votes: int)
    ensures VotesAbsent(o, votes) <==>
            && AttrOrEmpty(o, ATTR_PAYLOAD_PRESENT) == "false"
            && Atoi(AttrOrEmpty(o, ATTR_PTC_VOTES)) == Some(votes) && votes >= 1
  {
    assert Atoi("") == None;
    assert |"false"| == 5;
  }

  lemma PayloadAbsentIs(tl: Timeline, votes: int)
    ensures PayloadAbsent(tl, votes) <==>
            && tl.Last(PayloadAttested).Some? && var o := tl.Last(PayloadAttested).value;
            && AttrOrEmpty(o, ATTR_PAYLOAD_PRESENT) == "false"
            && Atoi(AttrOrEmpty(o, ATTR_PTC_VOTES)) == Some(votes) && votes >= 1
  {
    PayloadAbsentIff(tl, votes);
    if tl.Last(PayloadAttested).Some? { VotesRead(tl.Last(PayloadAttested).value, votes); }
  }

  lemma PayloadIff(c: Cause, k: Confidence, tl: Timeline)
    ensures Says(Rules.PayloadLate(tl), c, k) <==> PayloadFinds(c, k, tl)
  {
    LossIff(tl);
    NeverIff(tl, BlockSkipped);
    if Says(Rules.PayloadLate(tl), c, k) {
      PayloadAbsentIs(tl, Atoi(AttrOrEmpty(tl.Last(PayloadAttested).value, ATTR_PTC_VOTES)).value);
    }
    forall votes: int | PayloadAbsent(tl, votes) && k == (if votes >= 2 then High else Medium) && PayloadFinds(c, k, tl)
      ensures Says(Rules.PayloadLate(tl), c, k)
    {
      PayloadAbsentIs(tl, votes);
    }
  }

  lemma SomeSpentIff(tl: Timeline, cfg: Config)
    requires Usable(tl)
    ensures SomeSpent(tl, cfg) <==> Overspent(tl, cfg)
  {
    if Overspent(tl, cfg) { SpentBudgetIff(tl, cfg, ComputeStages(tl).propagation.value); }
    forall p: Duration | SpentBudget(tl, cfg, p) ensures Overspent(tl, cfg) { SpentBudgetIff(tl, cfg, p); }
  }

  /** The wrapped difference is the difference: neither duration is negative. */
  lemma CloseIff(p: Duration, p50: Duration, deviation: Duration)
    requires p >= 0 && p50 >= 0
    ensures var d: int := WrapInt(p - p50);
            (if d < 0 then WrapInt(-d) else d) < deviation <==> p - p50 < deviation && p50 - p < deviation
  {
  }

  lemma SpentEverywhereIff(tl: Timeline, cfg: Config)
    requires Usable(tl)
    ensures SpentEverywhere(tl, cfg) <==>
            Overspent(tl, cfg) && LateEverywhere(tl, cfg, ComputeStages(tl).propagation.value)
  {
    if Overspent(tl, cfg) { SpentBudgetIff(tl, cfg, ComputeStages(tl).propagation.value); }
    forall p: Duration | SpentBudget(tl, cfg, p)
      ensures Overspent(tl, cfg) && ComputeStages(tl).propagation == Some(p)
    {
      SpentBudgetIff(tl, cfg, p);
    }
  }

  lemma NetworkSays(c: Cause, k: Confidence, tl: Timeline, cfg: Config)
    requires Usable(tl) && tl.network.Some? && Overspent(tl, cfg)
    ensures Says(NetworkLateBlock(tl, cfg), c, k) <==>
            c == Cause.LateBlock && Sampled(tl, k) && LateEverywhere(tl, cfg, ComputeStages(tl).propagation.value)
  {
    assert tl.Budget() == tl.schedule.attestationDeadline;
    PropagationInSlot(tl, cfg);
    CloseIff(ComputeStages(tl).propagation.value, tl.network.value.p50, cfg.networkDeviation);
  }

  lemma NetworkIff(c: Cause, k: Confidence, tl: Timeline, cfg: Config)
    requires Usable(tl)
    ensures Says(NetworkLateBlock(tl, cfg), c, k) <==> NetworkFinds(c, k, tl, cfg)
  {
    SomeSpentIff(tl, cfg);
    SpentEverywhereIff(tl, cfg);
    if Overspent(tl, cfg) && tl.network.Some? { NetworkSays(c, k, tl, cfg); }
  }

  lemma PeerIff(c: Cause, k: Confidence, tl: Timeline, cfg: Config, pf: FloatParser)
    requires Usable(tl)
    ensures Says(Rules.P2PDegraded(tl, cfg, pf), c, k) <==> PeerFinds(c, k, tl, cfg, pf)
  {
    SomeSpentIff(tl, cfg);
    ReadsBelowIff(tl, PeerGauge, pf, cfg.peerCountMin);
    assert tl.Budget() == tl.schedule.attestationDeadline;
  }

  lemma DisconnectedIff(c: Cause, k: Confidence, tl: Timeline)
    requires Usable(tl)
    ensures Says(Rules.VCDisconnected(tl), c, k) <==> DisconnectedFinds(c, k, tl)
  {
    NeverIff(tl, AttestationPublished);
    NeverIff(tl, AttestationIncluded);
    NeverIff(tl, CollectionCompleted);
    BlockBeforeIff(tl);
    KindBeforeIff(tl, HeadUpdated);
  }

  lemma SigningIff(c: Cause, k: Confidence, tl: Timeline, cfg: Config)
    requires Usable(tl)
    ensures Says(Rules.VCSlow(tl, cfg), c, k) <==> SigningFinds(c, k, tl, cfg)
  {
    BlockBeforeIff(tl);
    KindBeforeIff(tl, HeadUpdated);
    KindAfterIff(tl, AttestationPublished);
    DominatesIff(tl, cfg.dominance, Signing);
  }

  lemma VainIff(tl: Timeline, i: nat)
    requires PublishedInVain(tl, i)
    ensures tl.First(AttestationPublished) == Some(tl.observations[i])
    ensures !tl.Has(AttestationIncluded) && tl.Has(CollectionCompleted)
  {
    FirstIs(tl, AttestationPublished, i);
    NeverIff(tl, AttestationIncluded);
    NeverIff(tl, CollectionCompleted);
  }

  lemma RootsAre(tl: Timeline, i: nat)
    requires i < |tl.observations|
    ensures var p, h := tl.observations[i], tl.First(HeadUpdated);
            && (RootUnknown(tl, i) <==>
                  p.Attr(ATTR_BLOCK_ROOT).None? || h.None? || h.value.Attr(ATTR_BLOCK_ROOT).None?)
            && (VotedForHead(tl, i) <==>
                  p.Attr(ATTR_BLOCK_ROOT).Some? && h.Some? && p.Attr(ATTR_BLOCK_ROOT) == h.value.Attr(ATTR_BLOCK_ROOT))
  {
    forall h: nat | FirstOfKind(tl.observations, HeadUpdated, h)
      ensures tl.First(HeadUpdated) == Some(tl.observations[h])
    {
      FirstIs(tl, HeadUpdated, h);
    }
    if tl.First(HeadUpdated).Some? {
      var h := FirstIsFirstListed(tl.observations, HeadUpdated);
      assert RootsKnown(tl, i, h) <==>
             ATTR_BLOCK_ROOT in tl.observations[i].attrs && ATTR_BLOCK_ROOT in tl.observations[h].attrs;
    }
  }

  lemma VainExists(tl: Timeline) returns (i: nat)
    requires tl.First(AttestationPublished).Some? && !tl.Has(AttestationIncluded) && tl.Has(CollectionCompleted)
    requires tl.First(AttestationPublished).value.at < tl.Deadline()
    ensures PublishedInVain(tl, i)
  {
    NeverIff(tl, AttestationIncluded);
    NeverIff(tl, CollectionCompleted);
    i := FirstIsFirstListed(tl.observations, AttestationPublished);
  }

  lemma InclusionSaid(c: Cause, k: Confidence, tl: Timeline)
    requires Says(Rules.InclusionFailure(tl), c, k)
    ensures InclusionFinds(c, k, tl)
  {
    var i := VainExists(tl);
    VainIff(tl, i);
    RootsAre(tl, i);
  }

  lemma InclusionIff(c: Cause, k: Confidence, tl: Timeline)
    ensures Says(Rules.InclusionFailure(tl), c, k) <==> InclusionFinds(c, k, tl)
  {
    if Says(Rules.InclusionFailure(tl), c, k) { InclusionSaid(c, k, tl); }
    forall i: nat | PublishedInVain(tl, i)
      ensures RootUnknown(tl, i) ==> Says(Rules.InclusionFailure(tl), Cause.InsufficientData, Low)
      ensures VotedForHead(tl, i) ==> Says(Rules.InclusionFailure(tl), Cause.InclusionFailure, Medium)
    {
      VainIff(tl, i);
      RootsAre(tl, i);
    }
  }

  lemma HostIff(c: Cause, k: Confidence, tl: Timeline, cfg: Config, pf: FloatParser)
    ensures Says(HostFallback(tl, cfg, pf), c, k) <==> HostFinds(c, k, tl, cfg, pf)
  {
    LossIff(tl);
    ReadsAboveIff(tl, IO_WAIT, pf, cfg.ioWaitPct);
    ReadsAboveIff(tl, CPU_STEAL, pf, cfg.cpuStealPct);
    ReadsAboveIff(tl, MEMORY_PRESSURE, pf, cfg.psiMemAvg10);
  }

  lemma NothingTimedIff(tl: Timeline)
    requires Ascending(tl.observations)
    ensures var s := ComputeStages(tl);
            NothingTimed(tl) <==> s.propagation.None? && s.validation.None? && s.signing.None?
  {
    SpentIs(tl, Propagation, 0);
    SpentIs(tl, Validation, 0);
    SpentIs(tl, Signing, 0);
  }

  lemma CatchAllIff(c: Cause, k: Confidence, tl: Timeline)
    requires Usable(tl)
    ensures Says(Some(CatchAll(tl)), c, k) <==> CatchAllFinds(c, k, tl)
  {
    LossIff(tl);
    NothingTimedIff(tl);
  }

  // ------------------------------------------------------ the Engine rules

  lemma NanosecondsAre(ms: real, ns: int)
    requires ms >= 0.0
    ensures RoundsDown(ms, ns) <==> ns == Nanoseconds(ms)
  {
  }

  /** The calls are complete exactly when there are two windows, and their time is EngineTotal. */
  lemma EngineTimeIff(tl: Timeline, pf: FloatParser, ns: int)
    ensures var calls := EngineCalls(tl.observations, pf);
            EngineTime(tl, pf, ns) <==> CompleteCalls(calls) && ns == EngineTotal(calls)
  {
    var calls := EngineCalls(tl.observations, pf);
    if CompleteCalls(calls) && ns == EngineTotal(calls) {
      var i, k, p, f := CompleteIsTwoWindows(tl.observations, pf);
      NanosecondsAre(p + f, ns);
    }
    if EngineTime(tl, pf, ns) {
      var i: nat, k: nat, p: real, f: real :| TwoWindows(tl.observations, pf, i, k, p, f) && RoundsDown(p + f, ns);
      TwoWindowsAreComplete(tl.observations, pf, i, k, p, f);
      NanosecondsAre(p + f, ns);
    }
  }

  lemma EngineHalfIff(tl: Timeline, ns: int, atLeast: bool)
    requires Usable(tl)
    ensures var s := ComputeStages(tl);
            EngineHalf(tl, ns, atLeast) <==> s.validation.Some? && (atLeast <==> ns >= Half(s))
  {
    var s := ComputeStages(tl);
    StagesTelescope(tl);
    assert s.Of(Validation) == s.validation;
    if s.validation.Some? { StagesAre(tl, Validation, s.validation.value); }
    forall v: Duration | StageIs(tl, Validation, v) ensures s.validation == Some(v) { StagesAre(tl, Validation, v); }
  }

  lemma ExceedsIs(ns: Duration, m: Sample, cfg: Config)
    ensures Exceeds(ns, m.value, cfg.engineSpikeMultiplier) <==> Spiked(ns, Some(m), cfg)
  {
  }

  lemma EngineSpikedIff(tl: Timeline, cfg: Config, ns: Duration)
    ensures EngineSpiked(tl, cfg, ns) <==> Spiked(ns, SampleValue(tl.samples, EL, "el_engine_calls_p99_ms"), cfg)
  {
    var name := "el_engine_calls_p99_ms";
    SampleValueIsFreshest(tl.samples, EL, name);
    var baseline := SampleValue(tl.samples, EL, name);
    if baseline.Some? { ExceedsIs(ns, baseline.value, cfg); }
    forall m: nat | Freshest(tl.samples, EL, name, m) ensures baseline == Some(tl.samples[m]) {
      FreshestIsSampleValue(tl.samples, EL, name, m);
    }
  }

  lemma EngineLongIff(tl: Timeline, cfg: Config, pf: FloatParser)
    requires Usable(tl)
    ensures var s, calls := ComputeStages(tl), EngineCalls(tl.observations, pf);
            EngineLong(tl, cfg, pf) <==>
            && CompleteCalls(calls) && s.validation.Some? && EngineTotal(calls) >= Half(s)
            && Spiked(EngineTotal(calls), SampleValue(tl.samples, EL, "el_engine_calls_p99_ms"), cfg)
  {
    var ns := EngineTotal(EngineCalls(tl.observations, pf));
    EngineTimeIff(tl, pf, ns);
    EngineHalfIff(tl, ns, true);
    EngineSpikedIff(tl, cfg, ns);
    forall x: int | EngineTime(tl, pf, x) ensures x == ns { EngineTimeIff(tl, pf, x); }
  }

  lemma EngineShortIff(tl: Timeline, pf: FloatParser)
    requires Usable(tl)
    ensures var s, calls := ComputeStages(tl), EngineCalls(tl.observations, pf);
            EngineShort(tl, pf) <==> CompleteCalls(calls) && s.validation.Some? && EngineTotal(calls) < Half(s)
  {
    var ns := EngineTotal(EngineCalls(tl.observations, pf));
    EngineTimeIff(tl, pf, ns);
    EngineHalfIff(tl, ns, false);
    forall x: int | EngineTime(tl, pf, x) ensures x == ns { EngineTimeIff(tl, pf, x); }
  }

  lemma ValidationLateIff(tl: Timeline, cfg: Config)
    requires Usable(tl)
    ensures ValidationLate(tl, cfg) <==> LateHead(tl) && Dominant(ComputeStages(tl), cfg.dominance) == Some(Validation)
  {
    KindAfterIff(tl, HeadUpdated);
    DominatesIff(tl, cfg.dominance, Validation);
  }

  lemma ExecutionIff(c: Cause, k: Confidence, tl: Timeline, cfg: Config, pf: FloatParser)
    requires Usable(tl)
    ensures Says(Rules.ELSlow(tl, cfg, pf), c, k) <==> ExecutionFinds(c, k, tl, cfg, pf)
  {
    ValidationLateIff(tl, cfg);
    EngineLongIff(tl, cfg, pf);
  }

  lemma ConsensusIff(c: Cause, k: Confidence, tl: Timeline, cfg: Config, pf: FloatParser)
    requires Usable(tl)
    ensures Says(Rules.CLSlow(tl, cfg, pf), c, k) <==> ConsensusFinds(c, k, tl, cfg, pf)
  {
    ValidationLateIff(tl, cfg);
    EngineShortIff(tl, pf);
  }

  // ------------------------------------------------------------ the clock

  lemma {:induction false} ScanObsIgnoresMax(tl: Timeline, cfg: Config, other: Config, obs: seq<Observation>, w: Worst)
    requires other == cfg.(clockOffsetMax := MAX_INT64)
    ensures ScanObs(tl, cfg, obs, w) == ScanObs(tl, other, obs, w)
  {
    if obs != [] {
      var o := obs[0];
      var r := Reading(tl, cfg, o.clockMeasured, o.at, o.clockSampleAt, o.clockOffset, w);
      if !RequiresClockTrust(o.kind) { ScanObsIgnoresMax(tl, cfg, other, obs[1..], w); }
      else if r.Go? { ScanObsIgnoresMax(tl, cfg, other, obs[1..], r.worst); }
    }
  }

  lemma {:induction false} ScanKeysIgnoresMax(tl: Timeline, cfg: Config, other: Config, keys: seq<string>,
                                              latest: map<string, Sample>, w: Worst)
    requires other == cfg.(clockOffsetMax := MAX_INT64) && forall k | k in keys :: k in latest
    ensures ScanKeys(tl, cfg, keys, latest, w) == ScanKeys(tl, other, keys, latest, w)
  {
    if keys != [] {
      var m := latest[keys[0]];
      var r := Reading(tl, cfg, m.clockMeasured, m.at, m.clockSampleAt, m.clockOffset, w);
      if r.Go? { ScanKeysIgnoresMax(tl, cfg, other, keys[1..], latest, r.worst); }
    }
  }

  lemma ScanIgnoresMax(tl: Timeline, cfg: Config)
    ensures ClockScanAll(tl, cfg) == ClockScanAll(tl, cfg.(clockOffsetMax := MAX_INT64))
  {
    var other := cfg.(clockOffsetMax := MAX_INT64);
    ScanObsIgnoresMax(tl, cfg, other, tl.observations, Worst(0, 0));
    var first := ScanObs(tl, cfg, tl.observations, Worst(0, 0));
    if first.Go? {
      var latest := Latest(tl.samples);
      ScanKeysIgnoresMax(tl, cfg, other, SortedKeys(latest.Keys), latest, first.worst);
    }
  }

  lemma StopIsNotDrift(tl: Timeline, cfg: Config)
    requires ClockScanAll(tl, cfg).Stop? && tl.slotStart != 0
    ensures ClockTrust(tl, cfg).value.cause == Some(Cause.InsufficientData)
  {
    var first := ScanObs(tl, cfg, tl.observations, Worst(0, 0));
    if first.Stop? {
      ScanObsStops(tl, cfg, tl.observations, Worst(0, 0));
    } else {
      ScanKeysStops(tl, cfg, SortedKeys(Latest(tl.samples).Keys), Latest(tl.samples), first.worst);
    }
  }

  /** R-011 names clock drift exactly when every reading is measured and fresh and some offset is
      beyond the threshold. */
  lemma DriftIff(tl: Timeline, cfg: Config)
    requires Provenance(tl) && tl.slotStart != 0
    ensures ClockTrust(tl, cfg).Some? && ClockTrust(tl, cfg).value.cause == Some(Cause.HostClockDrift) <==>
            FreshClock(tl, cfg) && !ClockTrusted(tl, cfg)
  {
    var other := cfg.(clockOffsetMax := MAX_INT64);
    ScanIgnoresMax(tl, cfg);
    ClockTrustSilent(tl, cfg);
    ClockTrustSilent(tl, other);
    if ClockScanAll(tl, cfg).Stop? { StopIsNotDrift(tl, cfg); }
  }

  lemma FreshIfTrusted(tl: Timeline, cfg: Config)
    ensures ClockTrusted(tl, cfg) ==> FreshClock(tl, cfg)
  {
  }

  lemma ClockIff(c: Cause, k: Confidence, tl: Timeline, cfg: Config)
    requires Provenance(tl) && tl.slotStart != 0
    ensures Says(ClockTrust(tl, cfg), c, k) <==> ClockFinds(c, k, tl, cfg)
  {
    DriftIff(tl, cfg);
    ClockTrustSilent(tl, cfg);
    FreshIfTrusted(tl, cfg);
    if ClockTrust(tl, cfg).Some? { ClockTrustSpeaks(tl, cfg); }
  }

  // ------------------------------------------------------------- theorem

  /** What the rules take from validity. */
  predicate Checked(tl: Timeline) {
    Usable(tl) && Provenance(tl) && tl.slotStart != 0 && (tl.collectionComplete <==> tl.Has(CollectionCompleted))
  }

  lemma ValidIsChecked(tl: Timeline, pf: FloatParser)
    requires TimelineValid(tl, pf)
    ensures Checked(tl)
  {
    ValidIsDated(tl, pf);
    CountSome(tl.observations, CollectionCompleted);
  }

  lemma GateRuleIff(r: RuleId, c: Cause, k: Confidence, tl: Timeline, cfg: Config, pf: FloatParser)
    requires Checked(tl) && Rank(r) < 4
    ensures Says(Evaluate(r, tl, cfg, pf), c, k) <==> Finds(r, c, k, tl, cfg, pf)
  {
    match r
    case R010 => CompletenessIff(c, k, tl);
    case R011 => ClockIff(c, k, tl, cfg);
    case R100 => SkippedIff(c, k, tl);
    case R120 => PayloadIff(c, k, tl);
    case _ => assert false;
  }

  lemma StageRuleIff(r: RuleId, c: Cause, k: Confidence, tl: Timeline, cfg: Config, pf: FloatParser)
    requires Checked(tl) && 4 <= Rank(r) < 9
    ensures Says(Evaluate(r, tl, cfg, pf), c, k) <==> Finds(r, c, k, tl, cfg, pf)
  {
    match r
    case R110 => NetworkIff(c, k, tl, cfg);
    case R200 => PeerIff(c, k, tl, cfg, pf);
    case R300 => ExecutionIff(c, k, tl, cfg, pf);
    case R310 => ConsensusIff(c, k, tl, cfg, pf);
    case R400 => DisconnectedIff(c, k, tl);
    case _ => assert false;
  }

  lemma LastRuleIff(r: RuleId, c: Cause, k: Confidence, tl: Timeline, cfg: Config, pf: FloatParser)
    requires Checked(tl) && Rank(r) >= 9
    ensures Says(Evaluate(r, tl, cfg, pf), c, k) <==> Finds(r, c, k, tl, cfg, pf)
  {
    match r
    case R410 => SigningIff(c, k, tl, cfg);
    case R500 => InclusionIff(c, k, tl);
    case R600 => HostIff(c, k, tl, cfg, pf);
    case R999 => CatchAllIff(c, k, tl);
    case _ => assert false;
  }

  /** On a valid timeline every rule finds exactly what the records say it finds. */
  lemma RuleFindsIff(r: RuleId, c: Cause, k: Confidence, tl: Timeline, cfg: Config, pf: FloatParser)
    requires TimelineValid(tl, pf)
    ensures Says(Evaluate(r, tl, cfg, pf), c, k) <==> Finds(r, c, k, tl, cfg, pf)
  {
    ValidIsChecked(tl, pf);
    if Rank(r) < 4 {
      GateRuleIff(r, c, k, tl, cfg, pf);
    } else if Rank(r) < 9 {
      StageRuleIff(r, c, k, tl, cfg, pf);
    } else {
      LastRuleIff(r, c, k, tl, cfg, pf);
    }
  }

  /** The rules' precedence. */
  function Rank(r: RuleId): nat {
    match r
    case R010 => 0
    case R011 => 1
    case R100 => 2
    case R120 => 3
    case R110 => 4
    case R200 => 5
    case R300 => 6
    case R310 => 7
    case R400 => 8
    case R410 => 9
    case R500 => 10
    case R600 => 11
    case R999 => 12
  }

  ghost predicate FindsNothing(r: RuleId, tl: Timeline, cfg: Config, pf: FloatParser) {
    forall c: Cause, k: Confidence :: !Finds(r, c, k, tl, cfg, pf)
  }

  /** Rule r finds the cause, and no rule before it finds any. */
  ghost predicate FirstToFind(r: RuleId, c: Cause, k: Confidence, tl: Timeline, cfg: Config, pf: FloatParser) {
    && Finds(r, c, k, tl, cfg, pf)
    && forall q: RuleId | Rank(q) < Rank(r) :: FindsNothing(q, tl, cfg, pf)
  }

  ghost predicate Found(c: Cause, k: Confidence, tl: Timeline, cfg: Config, pf: FloatParser) {
    exists r: RuleId :: FirstToFind(r, c, k, tl, cfg, pf)
  }

  lemma SilentIff(r: RuleId, tl: Timeline, cfg: Config, pf: FloatParser)
    requires TimelineValid(tl, pf)
    ensures FindsNothing(r, tl, cfg, pf) <==> Evaluate(r, tl, cfg, pf).None?
  {
    ValidIsDated(tl, pf);
    var d := Evaluate(r, tl, cfg, pf);
    if d.Some? {
      EveryDraftWellFormed(r, tl, cfg, pf);
      RuleFindsIff(r, d.value.cause.value, d.value.confidence, tl, cfg, pf);
    } else {
      forall c: Cause, k: Confidence ensures !Finds(r, c, k, tl, cfg, pf) { RuleFindsIff(r, c, k, tl, cfg, pf); }
    }
  }

  lemma {:induction false} FirstMatchAt(rules: seq<RuleId>, i: nat, tl: Timeline, cfg: Config, pf: FloatParser)
    requires i < |rules| && Evaluate(rules[i], tl, cfg, pf).Some?
    requires forall j | 0 <= j < i :: Evaluate(rules[j], tl, cfg, pf).None?
    ensures FirstMatch(rules, tl, cfg, pf) == Evaluate(rules[i], tl, cfg, pf)
  {
    if i > 0 {
      assert forall j | 0 <= j < i - 1 :: rules[1..][j] == rules[j + 1];
      FirstMatchAt(rules[1..], i - 1, tl, cfg, pf);
    }
  }

  lemma {:induction false} FirstMatchHas(rules: seq<RuleId>, tl: Timeline, cfg: Config, pf: FloatParser)
    returns (i: nat)
    requires FirstMatch(rules, tl, cfg, pf).Some?
    ensures i < |rules| && Evaluate(rules[i], tl, cfg, pf) == FirstMatch(rules, tl, cfg, pf)
    ensures forall j | 0 <= j < i :: Evaluate(rules[j], tl, cfg, pf).None?
  {
    i := 0;
    if Evaluate(rules[0], tl, cfg, pf).None? {
      var m := FirstMatchHas(rules[1..], tl, cfg, pf);
      i := m + 1;
      assert forall j | 1 <= j < i :: rules[j] == rules[1..][j - 1];
    }
  }

  lemma OrderedByRank()
    ensures |ORDERED| == 13
    ensures forall r: RuleId :: Rank(r) < 13 && ORDERED[Rank(r)] == r
    ensures forall i | 0 <= i < 13 :: Rank(ORDERED[i]) == i
  {
  }

  /** The same in terms of the rules' answers. */
  predicate FirstToSay(r: RuleId, c: Cause, k: Confidence, tl: Timeline, cfg: Config, pf: FloatParser) {
    && Says(Evaluate(r, tl, cfg, pf), c, k)
    && forall q: RuleId | Rank(q) < Rank(r) :: Evaluate(q, tl, cfg, pf).None?
  }

  lemma FirstMatchSays(c: Cause, k: Confidence, tl: Timeline, cfg: Config, pf: FloatParser)
    ensures Says(FirstMatch(ORDERED, tl, cfg, pf), c, k) <==> exists r: RuleId :: FirstToSay(r, c, k, tl, cfg, pf)
  {
    OrderedByRank();
    if Says(FirstMatch(ORDERED, tl, cfg, pf), c, k) {
      var i := FirstMatchHas(ORDERED, tl, cfg, pf);
      forall q: RuleId | Rank(q) < Rank(ORDERED[i]) ensures Evaluate(q, tl, cfg, pf).None? {
        assert ORDERED[Rank(q)] == q;
      }
      assert FirstToSay(ORDERED[i], c, k, tl, cfg, pf);
    }
    forall r: RuleId | FirstToSay(r, c, k, tl, cfg, pf) ensures Says(FirstMatch(ORDERED, tl, cfg, pf), c, k) {
      FirstMatchAt(ORDERED, Rank(r), tl, cfg, pf);
    }
  }

  lemma FirstToFindIff(r: RuleId, c: Cause, k: Confidence, tl: Timeline, cfg: Config, pf: FloatParser)
    requires TimelineValid(tl, pf)
    ensures FirstToFind(r, c, k, tl, cfg, pf) <==> FirstToSay(r, c, k, tl, cfg, pf)
  {
    RuleFindsIff(r, c, k, tl, cfg, pf);
    forall q: RuleId ensures FindsNothing(q, tl, cfg, pf) <==> Evaluate(q, tl, cfg, pf).None? {
      SilentIff(q, tl, cfg, pf);
    }
  }

  lemma FirstMatchIff(c: Cause, k: Confidence, tl: Timeline, cfg: Config, pf: FloatParser)
    requires TimelineValid(tl, pf)
    ensures Says(FirstMatch(ORDERED, tl, cfg, pf), c, k) <==> Found(c, k, tl, cfg, pf)
  {
    FirstMatchSays(c, k, tl, cfg, pf);
    forall r: RuleId ensures FirstToFind(r, c, k, tl, cfg, pf) <==> FirstToSay(r, c, k, tl, cfg, pf) {
      FirstToFindIff(r, c, k, tl, cfg, pf);
    }
  }

  lemma SettledSays(c: Cause, k: Confidence, tl: Timeline, cfg: Config, pf: FloatParser)
    ensures var d := Settle(ORDERED, tl, cfg, pf);
            d.cause == Some(c) && d.confidence == k <==>
            && tl.duty.Some? && Says(FirstMatch(ORDERED, tl, cfg, pf), c, k)
            && (c == Cause.NoRuleMatched ==> Lost(tl))
  {
    SomethingMatches(tl, cfg, pf);
    LossIff(tl);
    if tl.duty.Some? { OkIffNoLoss(tl); }
  }

  lemma AnalyzedSays(c: Cause, k: Confidence, tl: Timeline, cfg: Config, pf: FloatParser)
    requires TimelineValid(tl, pf)
    ensures var v, d := Analyze(tl, cfg, pf), Settle(ORDERED, tl, cfg, pf);
            v.cause == Some(c) && v.confidence == k <==>
            if NoFlagEarned(tl) then c == Cause.NoRuleMatched && k == Low else d.cause == Some(c) && d.confidence == k
  {
    AnalyzeValidIff(tl, cfg, pf);
  }

  /** Analyze names a cause exactly when a duty was owed, the first rule to find anything finds it, and it
      is not the catch-all of a duty that lost nothing; the confidence is what that rule gives.  A duty
      whose inclusion earned no flag is the exception: the safe fallback then says that no rule matched. */
  lemma CauseNamedIff(c: Cause, k: Confidence, tl: Timeline, cfg: Config, pf: FloatParser)
    requires TimelineValid(tl, pf)
    ensures var v := Analyze(tl, cfg, pf);
            v.cause == Some(c) && v.confidence == k <==>
            if EarnedNothing(tl) then c == Cause.NoRuleMatched && k == Low
            else tl.duty.Some? && Found(c, k, tl, cfg, pf) && (c == Cause.NoRuleMatched ==> Lost(tl))
  {
    AnalyzedSays(c, k, tl, cfg, pf);
    EarnedNothingIff(tl);
    FirstMatchIff(c, k, tl, cfg, pf);
    SettledSays(c, k, tl, cfg, pf);
  }

  /** Only the catch-all says that no rule matched. */
  lemma OnlyCatchAll(r: RuleId, k: Confidence, tl: Timeline, cfg: Config, pf: FloatParser)
    requires Finds(r, Cause.NoRuleMatched, k, tl, cfg, pf)
    ensures r == R999 && k == Low
  {
  }

  lemma CatchAllFoundIff(tl: Timeline, cfg: Config, pf: FloatParser)
    requires !Lost(tl)
    ensures Found(Cause.NoRuleMatched, Low, tl, cfg, pf) <==>
            forall r: RuleId | r != R999 :: FindsNothing(r, tl, cfg, pf)
  {
    forall r: RuleId | Finds(r, Cause.NoRuleMatched, Low, tl, cfg, pf) ensures r == R999 {
      OnlyCatchAll(r, Low, tl, cfg, pf);
    }
    assert Finds(R999, Cause.NoRuleMatched, Low, tl, cfg, pf);
    forall r: RuleId ensures r != R999 <==> Rank(r) < Rank(R999) { }
    if forall r: RuleId | r != R999 :: FindsNothing(r, tl, cfg, pf) {
      assert FirstToFind(R999, Cause.NoRuleMatched, Low, tl, cfg, pf);
    }
  }

  /** What is settled has no cause exactly when there was no duty, or nothing matched where nothing was lost. */
  lemma SettledClear(tl: Timeline, cfg: Config, pf: FloatParser)
    requires TimelineValid(tl, pf)
    ensures Settle(ORDERED, tl, cfg, pf).cause.None? <==>
            tl.duty.None? || (!Lost(tl) && Says(FirstMatch(ORDERED, tl, cfg, pf), Cause.NoRuleMatched, Low))
  {
    ValidIsDated(tl, pf);
    SomethingMatches(tl, cfg, pf);
    MatchWellFormed(ORDERED, tl, cfg, pf);
    LossIff(tl);
    if tl.duty.Some? { OkIffNoLoss(tl); }
    var d := FirstMatch(ORDERED, tl, cfg, pf).value;
    FirstMatchIff(d.cause.value, d.confidence, tl, cfg, pf);
    if d.cause == Some(Cause.NoRuleMatched) {
      var r: RuleId :| FirstToFind(r, Cause.NoRuleMatched, d.confidence, tl, cfg, pf);
      OnlyCatchAll(r, d.confidence, tl, cfg, pf);
    }
  }

  /** No cause is named exactly when no duty was owed, or nothing was lost and no rule but the
      catch-all finds anything. */
  lemma ClearedIff(tl: Timeline, cfg: Config, pf: FloatParser)
    requires TimelineValid(tl, pf)
    ensures Analyze(tl, cfg, pf).cause.None? <==>
            tl.duty.None? || (!Lost(tl) && forall r: RuleId | r != R999 :: FindsNothing(r, tl, cfg, pf))
  {
    AnalyzeValidIff(tl, cfg, pf);
    EarnedNothingIff(tl);
    SettledClear(tl, cfg, pf);
    FirstMatchIff(Cause.NoRuleMatched, Low, tl, cfg, pf);
    if !Lost(tl) { CatchAllFoundIff(tl, cfg, pf); }
    if EarnedNothing(tl) { EarnedNothingLost(tl); }
  }

  // ------------------------------------------------------ the whole verdict

  lemma EarnedNothingLost(tl: Timeline)
    requires EarnedNothing(tl)
    ensures Lost(tl)
  {
  }

  lemma IncludedIs(tl: Timeline)
    ensures forall i: nat | LastOfKind(tl.observations, AttestationIncluded, i) ::
              tl.Last(AttestationIncluded) == Some(tl.observations[i])
    ensures tl.Last(AttestationIncluded).Some? ==>
              exists i: nat :: LastOfKind(tl.observations, AttestationIncluded, i)
  {
    if tl.Last(AttestationIncluded).Some? { var i := LastIsLastListed(tl.observations, AttestationIncluded); }
    forall i: nat | LastOfKind(tl.observations, AttestationIncluded, i)
      ensures tl.Last(AttestationIncluded) == Some(tl.observations[i])
    {
      LastIs(tl, AttestationIncluded, i);
    }
  }

  lemma EarnedNothingIff(tl: Timeline)
    ensures EarnedNothing(tl) <==> NoFlagEarned(tl)
  {
    IncludedIs(tl);
  }

  predicate FlagsAre(f: RewardFlags, o: Observation) {
    && (f.timelySource <==> EarnsSource(o)) && (f.timelyTarget <==> EarnsTarget(o))
    && (f.timelyHead <==> FullyEarned(o))
  }

  /** The outcome and the flags that the records give a duty. */
  ghost predicate OutcomeIs(tl: Timeline, outcome: Outcome, flags: Option<RewardFlags>) {
    && (outcome == NoDuty <==> tl.duty.None?)
    && (outcome == OK <==> tl.duty.Some? && !Lost(tl))
    && (outcome == Missed <==> Lost(tl) && !IncludedDuty(tl))
    && (flags.Some? <==> IncludedDuty(tl))
    && (IncludedDuty(tl) ==>
          forall i: nat | LastOfKind(tl.observations, AttestationIncluded, i) ::
            FlagsAre(flags.value, tl.observations[i]))
  }

  /** An attester's attestation was included, in some form. */
  predicate IncludedDuty(tl: Timeline) {
    tl.duty.Some? && tl.duty.value.kind == Attester && !Never(tl, AttestationIncluded)
  }

  lemma FlagsOfAre(o: Observation)
    ensures FlagsAre(FlagsOf(o), o)
    ensures FlagsOf(o).AllEarned() <==> FullyEarned(o)
  {
  }

  lemma OutcomeExactly(tl: Timeline)
    ensures OutcomeIs(tl, DeriveOutcome(tl).0, DeriveOutcome(tl).1)
  {
    LossIff(tl);
    NeverIff(tl, AttestationIncluded);
    IncludedIs(tl);
    if tl.duty.Some? { OkIffNoLoss(tl); }
    if tl.Last(AttestationIncluded).Some? { FlagsOfAre(tl.Last(AttestationIncluded).value); }
  }

  lemma ClearIsCertain(tl: Timeline, cfg: Config, pf: FloatParser)
    requires TimelineValid(tl, pf)
    ensures Settle(ORDERED, tl, cfg, pf).cause.None? ==> Settle(ORDERED, tl, cfg, pf).confidence == High
  {
    ValidIsDated(tl, pf);
    SomethingMatches(tl, cfg, pf);
    MatchWellFormed(ORDERED, tl, cfg, pf);
  }

  /** Every verdict on a valid timeline is of its slot, has the outcome and flags its records give, names
      no sub-cause, is certain when it names no cause, and places each piece of evidence by its distance
      from the slot start. */
  lemma VerdictFrame(tl: Timeline, cfg: Config, pf: FloatParser)
    requires TimelineValid(tl, pf)
    ensures var v := Analyze(tl, cfg, pf);
            && v.slot == tl.slot && v.subCause.None? && OutcomeIs(tl, v.outcome, v.flags)
            && (v.cause.None? ==> v.confidence == High)
            && forall i | 0 <= i < |v.evidence| :: v.evidence[i].offset == Sub(v.evidence[i].at, tl.slotStart)
  {
    AnalyzeValidIff(tl, cfg, pf);
    OutcomeExactly(tl);
    ClearIsCertain(tl, cfg, pf);
  }
}
