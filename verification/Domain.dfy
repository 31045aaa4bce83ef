/** The shared vocabulary of whymiss (internal/domain): slots, observations, samples, timelines.

    Instants are nanoseconds, all UTC, with 0 standing for Go's zero time.  Durations are int64
    nanoseconds; Sub saturates as time.Time.Sub does.  Kinds, sources and components are closed
    enumerations.  Attribute texts that hold a floating-point number are read through `pf`, an
    arbitrary parser: everything proved holds for every such parser. */
module Domain {
  import opened Text

  const MAX_INT64: int := 0x7fff_ffff_ffff_ffff
  const MIN_INT64: int := -0x8000_0000_0000_0000
  const MAX_UINT64: int := 0xffff_ffff_ffff_ffff

  type Instant = nat
  type Duration = d: int | MIN_INT64 <= d <= MAX_INT64 witness 0
  type FloatParser = string -> Option<real>

  const SECOND: nat := 1_000_000_000
  const MINUTE: int := 60 * SECOND

  /** time.Time.Sub: saturates at the int64 bounds. */
  function Sub(a: int, b: int): Duration {
    if a - b > MAX_INT64 then MAX_INT64 else if a - b < MIN_INT64 then MIN_INT64 else a - b
  }

  /** An int64 sum or difference, wrapped once if it left the range. */
  function WrapInt(d: int): Duration
    requires 2 * MIN_INT64 <= d <= 2 * MAX_INT64 + 1
  {
    if d > MAX_INT64 then d - 0x1_0000_0000_0000_0000
    else if d < MIN_INT64 then d + 0x1_0000_0000_0000_0000
    else d
  }

  function Abs(d: Duration): (r: Duration)
    ensures r >= 0
  {
    if d == MIN_INT64 then MAX_INT64 else if d < 0 then -d else d
  }

  // ------------------------------------------------------------------ slots

  type Slot = s: int | 0 <= s <= MAX_UINT64 witness 0

  const SLOTS_PER_EPOCH: int := 32

  function Epoch(s: Slot): nat {
    s / SLOTS_PER_EPOCH
  }

  function Wrap64(x: int): Slot {
    x % 0x1_0000_0000_0000_0000
  }

  /** EIP-7045, in the wrapping uint64 arithmetic of the source. */
  function LastAttestationInclusionSlot(s: Slot): Slot {
    var maxEpoch := MAX_UINT64 / SLOTS_PER_EPOCH;
    if Epoch(s) >= Wrap64(maxEpoch - 1) then MAX_UINT64
    else Wrap64(Wrap64((Epoch(s) + 2) * SLOTS_PER_EPOCH) - 1)
  }

  /** The window closes with the epoch after the attestation's own, cut off at the last
      representable slot; nothing wraps, and the distance to it is always at most 63. */
  lemma InclusionWindow(s: Slot)
    ensures LastAttestationInclusionSlot(s) ==
            if (Epoch(s) + 2) * SLOTS_PER_EPOCH - 1 <= MAX_UINT64
            then (Epoch(s) + 2) * SLOTS_PER_EPOCH - 1
            else MAX_UINT64
    ensures s <= LastAttestationInclusionSlot(s) <= s + 2 * SLOTS_PER_EPOCH - 1
    ensures s < LastAttestationInclusionSlot(s) || s == MAX_UINT64
  {
  }

  /** The earliest instant at which the whole inclusion window has elapsed. */
  function CollectionWindowEnd(s: Slot, slotStart: Instant, secondsPerSlot: Duration): int {
    var window := Wrap64(LastAttestationInclusionSlot(s) - s);
    if window > SLOTS_PER_EPOCH * 2 - 1 || secondsPerSlot <= 0 then slotStart + MAX_INT64
    else slotStart + (window + 1) * secondsPerSlot
  }

  /** For a usable schedule the window end is the start of the slot after the last inclusion slot:
      the guard against an oversized window never fires. */
  lemma CollectionWindowEndIs(s: Slot, slotStart: Instant, secondsPerSlot: Duration)
    requires 0 < secondsPerSlot
    ensures CollectionWindowEnd(s, slotStart, secondsPerSlot) ==
            slotStart + (LastAttestationInclusionSlot(s) + 1 - s) * secondsPerSlot
  {
    InclusionWindow(s);
    var window := LastAttestationInclusionSlot(s) - s;
    assert Wrap64(window) == window;
    assert window + 1 == LastAttestationInclusionSlot(s) + 1 - s;
  }

  // ---------------------------------------------------------- vocabularies

  datatype Kind =
    | SlotStart | DutyAssigned | BlockSeen | BlockSkipped | HeadUpdated | AttestationPublished
    | AttestationIncluded | BlockProposed | Reorg | PeerCountSampled | EngineCall | HostSampled
    | ClockSampled | CollectionCompleted | NetworkBaselineSampled | PayloadAttested

  datatype Source = BeaconAPI | PromScrape | HostMetrics | Clock | Xatu | Derived

  datatype Component = EL | CL | VC | Host

  datatype Stage = Propagation | Validation | Signing

  function KindName(k: Kind): string {
    match k
    case SlotStart => "slot_start"
    case DutyAssigned => "duty_assigned"
    case BlockSeen => "block_seen"
    case BlockSkipped => "block_skipped"
    case HeadUpdated => "head_updated"
    case AttestationPublished => "attestation_published"
    case AttestationIncluded => "attestation_included"
    case BlockProposed => "block_proposed"
    case Reorg => "reorg"
    case PeerCountSampled => "peer_count_sampled"
    case EngineCall => "engine_call"
    case HostSampled => "host_sampled"
    case ClockSampled => "clock_sampled"
    case CollectionCompleted => "collection_completed"
    case NetworkBaselineSampled => "network_baseline_sampled"
    case PayloadAttested => "payload_attested"
  }

  function SourceName(s: Source): string {
    match s
    case BeaconAPI => "beaconapi"
    case PromScrape => "promscrape"
    case HostMetrics => "hostmetrics"
    case Clock => "clock"
    case Xatu => "xatu"
    case Derived => "derived"
  }

  function ComponentName(c: Component): string {
    match c
    case EL => "el"
    case CL => "cl"
    case VC => "vc"
    case Host => "host"
  }

  const ATTR_BLOCK_ROOT: string := "block_root"
  const ATTR_PROPOSER_INDEX: string := "proposer_index"
  const ATTR_VALIDATOR_INDEX: string := "validator_index"
  const ATTR_ENGINE_METHOD: string := "engine_method"
  const ATTR_DURATION_MS: string := "duration_ms"
  const ATTR_PEER_COUNT: string := "peer_count"
  const ATTR_METRIC: string := "metric"
  const ATTR_VALUE: string := "value"
  const ATTR_INCLUSION_DELAY: string := "inclusion_delay"
  const ATTR_HEAD_CORRECT: string := "head_correct"
  const ATTR_TARGET_CORRECT: string := "target_correct"
  const ATTR_BLOCK_ARRIVAL_P50_MS: string := "block_arrival_p50_ms"
  const ATTR_BLOCK_ARRIVAL_P90_MS: string := "block_arrival_p90_ms"
  const ATTR_SAMPLE_COUNT: string := "sample_count"
  const ATTR_PAYLOAD_PRESENT: string := "payload_present"
  const ATTR_PTC_VOTES: string := "ptc_votes"

  const NEW_PAYLOAD: string := "newPayload"
  const FORKCHOICE_UPDATED: string := "forkchoiceUpdated"

  function PermittedAttrs(kind: Kind): set<string> {
    match kind
    case DutyAssigned | CollectionCompleted => {ATTR_VALIDATOR_INDEX}
    case BlockSeen => {ATTR_BLOCK_ROOT, ATTR_PROPOSER_INDEX}
    case HeadUpdated => {ATTR_BLOCK_ROOT}
    case AttestationPublished | BlockProposed => {ATTR_VALIDATOR_INDEX, ATTR_BLOCK_ROOT}
    case AttestationIncluded =>
      {ATTR_VALIDATOR_INDEX, ATTR_INCLUSION_DELAY, ATTR_BLOCK_ROOT, ATTR_HEAD_CORRECT, ATTR_TARGET_CORRECT}
    case PeerCountSampled => {ATTR_PEER_COUNT}
    case EngineCall => {ATTR_ENGINE_METHOD, ATTR_DURATION_MS, ATTR_SAMPLE_COUNT}
    case HostSampled => {ATTR_METRIC, ATTR_VALUE}
    case ClockSampled => {ATTR_VALUE}
    case NetworkBaselineSampled => {ATTR_BLOCK_ARRIVAL_P50_MS, ATTR_BLOCK_ARRIVAL_P90_MS, ATTR_SAMPLE_COUNT}
    case PayloadAttested => {ATTR_PAYLOAD_PRESENT, ATTR_PTC_VOTES}
    case SlotStart | BlockSkipped | Reorg => {}
  }

  predicate SourcePermitted(source: Source, kind: Kind) {
    match kind
    case SlotStart | CollectionCompleted => source == Derived
    case DutyAssigned | BlockSkipped | HeadUpdated | AttestationPublished | AttestationIncluded
      | BlockProposed | Reorg | PayloadAttested => source == BeaconAPI
    case BlockSeen | PeerCountSampled => source == BeaconAPI || source == PromScrape
    case EngineCall => source == PromScrape
    case HostSampled => source == HostMetrics
    case ClockSampled => source == Clock
    case NetworkBaselineSampled => source == Xatu || source == PromScrape || source == BeaconAPI
  }

  // ----------------------------------------------------------- observations

  datatype Observation = Observation(
    slot: Slot, kind: Kind, at: Instant,
    clockOffset: Duration, clockMeasured: bool, clockSampleAt: Instant,
    source: Source, attrs: map<string, string>)
  {
    function Attr(key: string): Option<string> {
      if key in attrs then Some(attrs[key]) else None
    }
  }

  predicate ClockDataValid(measured: bool, offset: Duration, sampleAt: Instant) {
    if measured then sampleAt != 0 else offset == 0 && sampleAt == 0
  }

  predicate IsHexRoot(s: string) {
    |s| == 66 && s[..2] == "0x" &&
    forall i | 2 <= i < 66 :: '0' <= s[i] <= '9' || 'a' <= s[i] <= 'f' || 'A' <= s[i] <= 'F'
  }

  predicate AttrValid(key: string, value: string, pf: FloatParser) {
    && value != "" && |value| <= 256
    && (key == ATTR_HEAD_CORRECT || key == ATTR_TARGET_CORRECT || key == ATTR_PAYLOAD_PRESENT ==>
          value == "true" || value == "false")
    && (key == ATTR_PROPOSER_INDEX || key == ATTR_VALIDATOR_INDEX ==> ParseUint(value).Some?)
    && (key == ATTR_INCLUSION_DELAY || key == ATTR_SAMPLE_COUNT || key == ATTR_PTC_VOTES ==>
          ParseUint(value).Some? && ParseUint(value).value > 0)
    && (key == ATTR_DURATION_MS || key == ATTR_BLOCK_ARRIVAL_P50_MS || key == ATTR_BLOCK_ARRIVAL_P90_MS ==>
          pf(value).Some? && 0.0 <= pf(value).value <= MAX_INT64 as real / 1000000.0)
    && (key == ATTR_PEER_COUNT ==> pf(value).Some? && pf(value).value >= 0.0)
    && (key == ATTR_VALUE ==> pf(value).Some?)
    && (key == ATTR_ENGINE_METHOD ==> value == NEW_PAYLOAD || value == FORKCHOICE_UPDATED)
    && (key == ATTR_BLOCK_ROOT ==> IsHexRoot(value))
  }

  predicate ObservationValid(o: Observation, pf: FloatParser) {
    && o.at != 0
    && SourcePermitted(o.source, o.kind)
    && ClockDataValid(o.clockMeasured, o.clockOffset, o.clockSampleAt)
    && forall key | key in o.attrs :: key in PermittedAttrs(o.kind) && AttrValid(key, o.attrs[key], pf)
  }

  // --------------------------------------------------- samples and baselines

  datatype Sample = Sample(
    at: Instant, component: Component, name: string, value: real,
    clockOffset: Duration, clockMeasured: bool, clockSampleAt: Instant, source: Source)

  predicate SampleSourcePermitted(source: Source, component: Component) {
    match source
    case PromScrape => component != Host
    case HostMetrics => component == Host
    case BeaconAPI => component == CL
    case Derived => true
    case Clock | Xatu => false
  }

  predicate SampleValid(m: Sample) {
    && m.name != "" && |m.name| <= 128
    && m.at != 0
    && SampleSourcePermitted(m.source, m.component)
    && ClockDataValid(m.clockMeasured, m.clockOffset, m.clockSampleAt)
  }

  datatype Baseline = Baseline(slot: Slot, p50: Duration, p90: Duration, sampleCount: int, source: Source)

  predicate BaselineValid(n: Baseline) {
    && n.sampleCount > 0 && 0 <= n.p50 <= n.p90
    && (n.source == Xatu || n.source == PromScrape || n.source == BeaconAPI)
  }

  // ---------------------------------------------------- schedule and duties

  datatype Schedule = Schedule(
    secondsPerSlot: Duration, attestationDeadline: Duration, aggregationDeadline: Duration,
    payloadRevealDeadline: Duration, ptcDeadline: Duration)

  predicate ScheduleValid(s: Schedule) {
    && 0 < s.secondsPerSlot <= MINUTE
    && 0 < s.attestationDeadline <= s.aggregationDeadline <= s.secondsPerSlot
    && 0 <= s.payloadRevealDeadline <= s.secondsPerSlot && 0 <= s.ptcDeadline <= s.secondsPerSlot
    && (s.ptcDeadline > 0 ==> s.payloadRevealDeadline != 0)
    && (s.payloadRevealDeadline > 0 ==> s.attestationDeadline < s.payloadRevealDeadline)
    && (s.ptcDeadline > 0 ==> s.payloadRevealDeadline < s.ptcDeadline)
  }

  datatype DutyKind = Attester | Proposer
  datatype Duty = Duty(kind: DutyKind, slot: Slot, validator: Slot)

  // -------------------------------------------------------------- timelines

  datatype Timeline = Timeline(
    slot: Slot, slotStart: Instant, schedule: Schedule, duty: Option<Duty>,
    observations: seq<Observation>, reorgs: seq<Observation>, samples: seq<Sample>,
    network: Option<Baseline>, collectionComplete: bool)
  {
    function Deadline(): int {
      slotStart + schedule.attestationDeadline
    }

    /** The deadline as an offset from the slot start, as every rule computes it. */
    function Budget(): Duration {
      Sub(Deadline(), slotStart)
    }

    function First(kind: Kind): Option<Observation> {
      FirstOf(observations, kind)
    }

    function Last(kind: Kind): Option<Observation> {
      LastOf(observations, kind)
    }

    predicate Has(kind: Kind) {
      First(kind).Some?
    }
  }

  function FirstOf(obs: seq<Observation>, kind: Kind): (r: Option<Observation>)
    ensures r.Some? ==> r.value in obs && r.value.kind == kind
    ensures r.None? ==> forall o | o in obs :: o.kind != kind
  {
    if obs == [] then None
    else if obs[0].kind == kind then Some(obs[0])
    else FirstOf(obs[1..], kind)
  }

  function LastOf(obs: seq<Observation>, kind: Kind): (r: Option<Observation>)
    ensures r.Some? ==> r.value in obs && r.value.kind == kind
    ensures r.None? ==> forall o | o in obs :: o.kind != kind
  {
    if obs == [] then None
    else
      var n := |obs| - 1;
      assert obs == obs[..n] + [obs[n]];
      if obs[n].kind == kind then Some(obs[n]) else LastOf(obs[..n], kind)
  }

  function Count(obs: seq<Observation>, kind: Kind): nat {
    if obs == [] then 0 else Count(obs[..|obs| - 1], kind) + (if obs[|obs| - 1].kind == kind then 1 else 0)
  }

  predicate Ascending(obs: seq<Observation>) {
    forall i, j | 0 <= i < j < |obs| :: obs[i].at <= obs[j].at
  }

  predicate ReorgValid(t: Timeline, r: Observation, pf: FloatParser) {
    ObservationValid(r, pf) && r.kind == Reorg && t.slot < r.slot <= LastAttestationInclusionSlot(t.slot)
  }

  predicate ReorgsValid(t: Timeline, pf: FloatParser) {
    (forall i | 0 <= i < |t.reorgs| :: ReorgValid(t, t.reorgs[i], pf)) && Ascending(t.reorgs)
  }

  predicate ObservationsValid(obs: seq<Observation>, slot: Slot, pf: FloatParser) {
    (forall i | 0 <= i < |obs| :: ObservationValid(obs[i], pf) && obs[i].slot == slot) && Ascending(obs)
  }

  /** No completion marker predates the end of the inclusion window. */
  predicate WindowClosed(t: Timeline) {
    forall i | 0 <= i < |t.observations| && t.observations[i].kind == CollectionCompleted ::
      CollectionWindowEnd(t.slot, t.slotStart, t.schedule.secondsPerSlot) <= t.observations[i].at
  }

  /** What a validated timeline guarantees the engine. */
  predicate TimelineValid(t: Timeline, pf: FloatParser) {
    && t.slotStart != 0
    && ScheduleValid(t.schedule)
    && (t.duty.Some? ==> t.duty.value.slot == t.slot)
    && ObservationsValid(t.observations, t.slot, pf)
    && Count(t.observations, CollectionCompleted) <= 1
    && (t.collectionComplete <==> Count(t.observations, CollectionCompleted) == 1)
    && (t.duty.Some? && t.duty.value.kind == Attester ==> WindowClosed(t))
    && (forall i | 0 <= i < |t.samples| :: SampleValid(t.samples[i]))
    && ReorgsValid(t, pf)
    && (t.network.Some? ==> BaselineValid(t.network.value) && t.network.value.slot == t.slot)
  }

  lemma {:induction false} CountSome(obs: seq<Observation>, kind: Kind)
    ensures Count(obs, kind) == 0 <==> forall i | 0 <= i < |obs| :: obs[i].kind != kind
    ensures FirstOf(obs, kind).Some? <==> Count(obs, kind) > 0
    decreases |obs|
  {
    if obs != [] {
      var n := |obs| - 1;
      assert obs == obs[..n] + [obs[n]];
      CountSome(obs[..n], kind);
    }
  }

  lemma {:induction false} CountOneIsUnique(obs: seq<Observation>, kind: Kind, i: nat, j: nat)
    requires Count(obs, kind) <= 1 && i < |obs| && j < |obs| && obs[i].kind == kind && obs[j].kind == kind
    ensures i == j
    decreases |obs|
  {
    var n := |obs| - 1;
    CountSome(obs[..n], kind);
    if i < n {
      assert obs[..n][i].kind == kind;
      if j < n { assert obs[..n][j].kind == kind; CountOneIsUnique(obs[..n], kind, i, j); }
    }
  }

  /** validateObservationAttr, and the checks before it that look at the value. */
  method ValidateAttr(key: string, value: string, pf: FloatParser) returns (ok: bool)
    ensures ok <==> AttrValid(key, value, pf)
  {
    if value == "" || |value| > 256 { return false; }
    if key == ATTR_HEAD_CORRECT || key == ATTR_TARGET_CORRECT || key == ATTR_PAYLOAD_PRESENT {
      if value != "true" && value != "false" { return false; }
    }
    if key == ATTR_PROPOSER_INDEX || key == ATTR_VALIDATOR_INDEX {
      if ParseUint(value).None? { return false; }
    }
    if key == ATTR_INCLUSION_DELAY || key == ATTR_SAMPLE_COUNT || key == ATTR_PTC_VOTES {
      var parsed := ParseUint(value);
      if parsed.None? || parsed.value == 0 { return false; }
    }
    if key == ATTR_DURATION_MS || key == ATTR_BLOCK_ARRIVAL_P50_MS || key == ATTR_BLOCK_ARRIVAL_P90_MS {
      var parsed := pf(value);
      if parsed.None? || parsed.value < 0.0 || parsed.value > MAX_INT64 as real / 1000000.0 { return false; }
    }
    if key == ATTR_PEER_COUNT {
      var parsed := pf(value);
      if parsed.None? || parsed.value < 0.0 { return false; }
    }
    if key == ATTR_VALUE && pf(value).None? { return false; }
    if key == ATTR_ENGINE_METHOD && value != NEW_PAYLOAD && value != FORKCHOICE_UPDATED { return false; }
    ok := key == ATTR_BLOCK_ROOT ==> IsHexRoot(value);
  }

  /** Observation.Validate: the fields in order, then the attributes in whatever order the map is walked. */
  method ValidateObservation(o: Observation, pf: FloatParser) returns (ok: bool)
    ensures ok <==> ObservationValid(o, pf)
  {
    if o.at == 0 || !SourcePermitted(o.source, o.kind) { return false; }
    if o.clockMeasured {
      if o.clockSampleAt == 0 { return false; }
    } else if o.clockOffset != 0 || o.clockSampleAt != 0 {
      return false;
    }
    var todo := o.attrs.Keys;
    while todo != {}
      invariant todo <= o.attrs.Keys
      invariant forall key | key in o.attrs && key !in todo ::
                  key in PermittedAttrs(o.kind) && AttrValid(key, o.attrs[key], pf)
      decreases |todo|
    {
      var key :| key in todo;
      if key !in PermittedAttrs(o.kind) { return false; }
      var valid := ValidateAttr(key, o.attrs[key], pf);
      if !valid { return false; }
      todo := todo - {key};
    }
    ok := true;
  }

  /** One pass over the observations, comparing neighbours and counting completion markers. */
  method ScanObservations(obs: seq<Observation>, slot: Slot, pf: FloatParser)
    returns (ok: bool, completions: nat, completionAt: Instant)
    ensures ok <==> ObservationsValid(obs, slot, pf)
    ensures ok ==> completions == Count(obs, CollectionCompleted)
    ensures ok && completions == 1 ==>
              exists j :: 0 <= j < |obs| && obs[j].kind == CollectionCompleted && obs[j].at == completionAt
  {
    completions, completionAt := 0, 0;
    for i := 0 to |obs|
      invariant ObservationsValid(obs[..i], slot, pf)
      invariant completions == Count(obs[..i], CollectionCompleted)
      invariant completions > 0 ==>
                  exists j :: 0 <= j < i && obs[j].kind == CollectionCompleted && obs[j].at == completionAt
    {
      var o := obs[i];
      var valid := ValidateObservation(o, pf);
      if !valid || o.slot != slot { return false, completions, completionAt; }
      if i > 0 && o.at < obs[i - 1].at { return false, completions, completionAt; }
      ExtendAscending(obs, i);
      assert obs[..i + 1][..i] == obs[..i];
      if o.kind == CollectionCompleted { completions, completionAt := completions + 1, o.at; }
    }
    assert obs[..|obs|] == obs;
    ok := true;
  }

  lemma ExtendAscending(obs: seq<Observation>, i: nat)
    requires i < |obs| && Ascending(obs[..i]) && (i > 0 ==> obs[i - 1].at <= obs[i].at)
    ensures Ascending(obs[..i + 1])
  {
    forall j | 0 <= j < i ensures obs[j].at <= obs[i].at {
      assert obs[..i][j].at <= obs[..i][i - 1].at;
    }
    var next := obs[..i + 1];
    forall j, k | 0 <= j < k < |next| ensures next[j].at <= next[k].at {
      if k < i { assert obs[..i][j].at <= obs[..i][k].at; }
    }
  }

  lemma OneMarkerDecides(t: Timeline, completionAt: Instant)
    requires Count(t.observations, CollectionCompleted) == 1
    requires exists j :: 0 <= j < |t.observations| && t.observations[j].kind == CollectionCompleted &&
                         t.observations[j].at == completionAt
    ensures WindowClosed(t) <==> CollectionWindowEnd(t.slot, t.slotStart, t.schedule.secondsPerSlot) <= completionAt
  {
    var j :| 0 <= j < |t.observations| && t.observations[j].kind == CollectionCompleted &&
             t.observations[j].at == completionAt;
    forall i | 0 <= i < |t.observations| && t.observations[i].kind == CollectionCompleted ensures i == j {
      CountOneIsUnique(t.observations, CollectionCompleted, i, j);
    }
  }

  method ScanReorgs(t: Timeline, pf: FloatParser) returns (ok: bool)
    ensures ok <==> ReorgsValid(t, pf)
  {
    for i := 0 to |t.reorgs|
      invariant forall j | 0 <= j < i :: ReorgValid(t, t.reorgs[j], pf)
      invariant Ascending(t.reorgs[..i])
    {
      if !ReorgValid(t, t.reorgs[i], pf) { return false; }
      if i > 0 && t.reorgs[i].at < t.reorgs[i - 1].at { return false; }
      ExtendAscending(t.reorgs, i);
    }
    assert t.reorgs[..|t.reorgs|] == t.reorgs;
    ok := true;
  }

  method ScanSamples(samples: seq<Sample>) returns (ok: bool)
    ensures ok <==> forall i | 0 <= i < |samples| :: SampleValid(samples[i])
  {
    for i := 0 to |samples|
      invariant forall j | 0 <= j < i :: SampleValid(samples[j])
    {
      if !SampleValid(samples[i]) { return false; }
    }
    ok := true;
  }

  /** Timeline.Validate as the source runs it.  It accepts exactly the valid timelines; the check on
      an oversized inclusion window never rejects. */
  method Validate(t: Timeline, pf: FloatParser) returns (ok: bool)
    ensures ok <==> TimelineValid(t, pf)
  {
    if t.slotStart == 0 || !ScheduleValid(t.schedule) { return false; }
    if t.duty.Some? && t.duty.value.slot != t.slot { return false; }
    var scanned, completions, completionAt := ScanObservations(t.observations, t.slot, pf);
    if !scanned { return false; }
    if completions > 1 || t.collectionComplete != (completions == 1) { return false; }
    if completions == 0 { CountSome(t.observations, CollectionCompleted); }
    if completions == 1 && t.duty.Some? && t.duty.value.kind == Attester {
      InclusionWindow(t.slot);
      if Wrap64(LastAttestationInclusionSlot(t.slot) - t.slot) > SLOTS_PER_EPOCH * 2 - 1 { return false; }
      OneMarkerDecides(t, completionAt);
      if completionAt < CollectionWindowEnd(t.slot, t.slotStart, t.schedule.secondsPerSlot) { return false; }
    }
    var samplesOk := ScanSamples(t.samples);
    if !samplesOk { return false; }
    var reorgsOk := ScanReorgs(t, pf);
    if !reorgsOk { return false; }
    ok := t.network.Some? ==> BaselineValid(t.network.value) && t.network.value.slot == t.slot;
  }
}
