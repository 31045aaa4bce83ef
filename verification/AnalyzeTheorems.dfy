/** What every verdict of the engine guarantees, for all valid timelines. */
module AnalyzeTheorems {
  import opened Text
  import opened Domain
  import opened LatencyStages
  import opened Verdicts
  import opened Rules
  import opened Engine
  import opened ClockTrustTheorems

  /** The part of validity the rules' evidence depends on. */
  predicate Dated(tl: Timeline) {
    && tl.slotStart != 0
    && (forall o | o in tl.observations :: o.at != 0)
    && (forall o | o in tl.reorgs :: o.at != 0)
    && (forall m | m in tl.samples :: m.at != 0)
  }

  lemma ValidIsDated(tl: Timeline, pf: FloatParser)
    requires TimelineValid(tl, pf)
    ensures Dated(tl) && Provenance(tl)
  {
    forall o | o in tl.observations ensures o.at != 0 && (o.clockMeasured ==> o.clockSampleAt != 0) {
      var i :| 0 <= i < |tl.observations| && tl.observations[i] == o;
      assert ObservationValid(tl.observations[i], pf);
    }
    forall o | o in tl.reorgs ensures o.at != 0 {
      var i :| 0 <= i < |tl.reorgs| && tl.reorgs[i] == o;
      assert ReorgValid(tl, tl.reorgs[i], pf);
    }
    forall m | m in tl.samples ensures m.at != 0 && (m.clockMeasured ==> m.clockSampleAt != 0) {
      var i :| 0 <= i < |tl.samples| && tl.samples[i] == m;
      assert SampleValid(tl.samples[i]);
    }
  }

  // ------------------------------------------------- every draft is fit to emit

  lemma SkippedDraft(tl: Timeline)
    requires Dated(tl) && Rules.ProposerMissed(tl).Some?
    ensures DraftWellFormed(Rules.ProposerMissed(tl).value)
  {
  }

  lemma PayloadDraft(tl: Timeline)
    requires Dated(tl) && Rules.PayloadLate(tl).Some?
    ensures DraftWellFormed(Rules.PayloadLate(tl).value)
  {
  }

  lemma SilentDraft(tl: Timeline)
    requires Dated(tl) && Rules.VCDisconnected(tl).Some?
    ensures DraftWellFormed(Rules.VCDisconnected(tl).value)
  {
  }

  lemma SigningDraft(tl: Timeline, cfg: Config)
    requires Dated(tl) && Rules.VCSlow(tl, cfg).Some?
    ensures DraftWellFormed(Rules.VCSlow(tl, cfg).value)
  {
  }

  lemma PropagationInSlot(tl: Timeline, cfg: Config)
    requires Overspent(tl, cfg)
    ensures ComputeStages(tl).propagation.value >= 0
  {
    StagesTelescope(tl);
    assert ComputeStages(tl).Of(Propagation) == ComputeStages(tl).propagation;
  }

  lemma NetworkDraft(tl: Timeline, cfg: Config)
    requires Dated(tl) && NetworkLateBlock(tl, cfg).Some?
    ensures DraftWellFormed(NetworkLateBlock(tl, cfg).value)
  {
    PropagationInSlot(tl, cfg);
  }

  lemma PeerDraft(tl: Timeline, cfg: Config, pf: FloatParser)
    requires Dated(tl) && Rules.P2PDegraded(tl, cfg, pf).Some?
    ensures DraftWellFormed(Rules.P2PDegraded(tl, cfg, pf).value)
  {
    PropagationInSlot(tl, cfg);
    var e := Rules.P2PDegraded(tl, cfg, pf).value.evidence;
    assert |e| == 3;
    assert EvidenceValid(e[0]);
    assert EvidenceValid(e[1]);
    assert EvidenceValid(e[2]);
  }

  lemma CallsDated(tl: Timeline, pf: FloatParser)
    requires Dated(tl)
    ensures forall i | 0 <= i < |EngineCalls(tl.observations, pf)| :: EngineCalls(tl.observations, pf)[i].at != 0
  {
    var calls := EngineCalls(tl.observations, pf);
    forall i | 0 <= i < |calls| ensures calls[i].at != 0 {
      assert calls[i] in calls;
    }
  }

  lemma ExecutionVerdictValid(calls: seq<CallWindow>, total: Duration, threshold: real)
    requires |calls| == 2 && calls[0].at != 0 && calls[1].at != 0
    ensures DraftWellFormed(ExecutionVerdict(calls, total, threshold))
  {
    var e := ExecutionVerdict(calls, total, threshold).evidence;
    FramedEvidence([], CallEvidence(calls), e[|e| - 1]);
    assert e == [] + CallEvidence(calls) + [e[|e| - 1]];
  }

  lemma ExecutionIs(tl: Timeline, cfg: Config, pf: FloatParser)
    requires Rules.ELSlow(tl, cfg, pf).Some?
    ensures var calls := EngineCalls(tl.observations, pf);
            var baseline := SampleValue(tl.samples, EL, "el_engine_calls_p99_ms");
            && |calls| == 2 && baseline.Some?
            && Rules.ELSlow(tl, cfg, pf) ==
               Some(ExecutionVerdict(calls, EngineTotal(calls), SpikeThreshold(baseline.value, cfg)))
  {
  }

  lemma ExecutionDraft(tl: Timeline, cfg: Config, pf: FloatParser)
    requires Dated(tl) && Rules.ELSlow(tl, cfg, pf).Some?
    ensures DraftWellFormed(Rules.ELSlow(tl, cfg, pf).value)
  {
    CallsDated(tl, pf);
    ExecutionIs(tl, cfg, pf);
    var calls := EngineCalls(tl.observations, pf);
    var baseline := SampleValue(tl.samples, EL, "el_engine_calls_p99_ms");
    ExecutionVerdictValid(calls, EngineTotal(calls), SpikeThreshold(baseline.value, cfg));
  }

  lemma FramedEvidence(a: seq<Evidence>, calls: seq<Evidence>, last: Evidence)
    requires forall i | 0 <= i < |a| :: EvidenceValid(a[i])
    requires forall i | 0 <= i < |calls| :: EvidenceValid(calls[i])
    ensures EvidenceValid(last) ==> forall i | 0 <= i < |a + calls + [last]| :: EvidenceValid((a + calls + [last])[i])
  {
  }

  lemma ConsensusVerdictValid(tl: Timeline, cfg: Config, s: Stages, calls: seq<CallWindow>, total: Duration)
    requires tl.slotStart != 0 && s.validation.Some? && |calls| == 2 && calls[0].at != 0 && calls[1].at != 0
    ensures DraftWellFormed(ConsensusVerdict(tl, cfg, s, calls, total))
  {
    var e := ConsensusVerdict(tl, cfg, s, calls, total).evidence;
    FramedEvidence([e[0]], CallEvidence(calls), e[|e| - 1]);
    assert e == [e[0]] + CallEvidence(calls) + [e[|e| - 1]];
  }

  lemma ConsensusDraft(tl: Timeline, cfg: Config, pf: FloatParser)
    requires Dated(tl) && Rules.CLSlow(tl, cfg, pf).Some?
    ensures DraftWellFormed(Rules.CLSlow(tl, cfg, pf).value)
  {
    CallsDated(tl, pf);
    var calls := EngineCalls(tl.observations, pf);
    ConsensusVerdictValid(tl, cfg, ComputeStages(tl), calls, EngineTotal(calls));
  }

  lemma InclusionVerdictValid(published: Observation, completed: Observation, head: Observation, tl: Timeline)
    requires Dated(tl) && published.at != 0 && completed.at != 0 && head.at != 0
    ensures DraftWellFormed(InclusionVerdict(published, completed, head, tl))
  {
    var facts := [Fact(published.at, "published", BeaconAPI), Fact(completed.at, "window closed", Derived),
                  Fact(head.at, "canonical head", BeaconAPI)];
    assert EvidenceValid(facts[0]) && EvidenceValid(facts[1]) && EvidenceValid(facts[2]);
  }

  lemma InclusionDraft(tl: Timeline)
    requires Dated(tl) && Rules.InclusionFailure(tl).Some?
    ensures DraftWellFormed(Rules.InclusionFailure(tl).value)
  {
    if Rules.InclusionFailure(tl).value.cause == Some(Cause.InclusionFailure) {
      InclusionVerdictValid(tl.First(AttestationPublished).value, tl.First(CollectionCompleted).value,
                            tl.First(HeadUpdated).value, tl);
    }
  }

  lemma HostDraft(tl: Timeline, cfg: Config, pf: FloatParser)
    requires Dated(tl) && HostFallback(tl, cfg, pf).Some?
    ensures DraftWellFormed(HostFallback(tl, cfg, pf).value)
  {
  }

  lemma StageEvidenceValid(tl: Timeline, s: Stages, stage: Stage)
    requires tl.slotStart != 0
    ensures forall i | 0 <= i < |StageEvidence(tl, s, stage)| :: EvidenceValid(StageEvidence(tl, s, stage)[i])
  {
  }

  lemma CatchAllDraft(tl: Timeline)
    requires Dated(tl)
    ensures DraftWellFormed(CatchAll(tl))
  {
    var s := ComputeStages(tl);
    StageEvidenceValid(tl, s, Propagation);
    StageEvidenceValid(tl, s, Validation);
    StageEvidenceValid(tl, s, Signing);
    var a := [Fact(VerdictAt(tl), "taxonomy gap", Derived)];
    assert EvidenceValid(a[0]);
  }

  /** Whichever rule matches, its draft has a cause and evidence Verdict.Validate accepts. */
  lemma EveryDraftWellFormed(rule: RuleId, tl: Timeline, cfg: Config, pf: FloatParser)
    requires Dated(tl) && Evaluate(rule, tl, cfg, pf).Some?
    ensures DraftWellFormed(Evaluate(rule, tl, cfg, pf).value)
    ensures Evaluate(rule, tl, cfg, pf).value.cause.Some?
  {
    match rule
    case R011 => ClockTrustSpeaks(tl, cfg);
    case R010 =>
    case R100 => SkippedDraft(tl);
    case R120 => PayloadDraft(tl);
    case R110 => NetworkDraft(tl, cfg);
    case R200 => PeerDraft(tl, cfg, pf);
    case R300 => ExecutionDraft(tl, cfg, pf);
    case R310 => ConsensusDraft(tl, cfg, pf);
    case R400 => SilentDraft(tl);
    case R410 => SigningDraft(tl, cfg);
    case R500 => InclusionDraft(tl);
    case R600 => HostDraft(tl, cfg, pf);
    case R999 => CatchAllDraft(tl);
  }

  /** The catch-all makes the sequence exhaustive: the defensive path after the loop is dead. */
  lemma SomethingMatches(tl: Timeline, cfg: Config, pf: FloatParser)
    ensures FirstMatch(ORDERED, tl, cfg, pf).Some?
  {
    CatchAllListed();
    MatchAmong(ORDERED, R999, tl, cfg, pf);
  }

  lemma CatchAllListed()
    ensures R999 in ORDERED
  {
    assert ORDERED[12] == R999;
  }

  lemma MatchAmong(rules: seq<RuleId>, r: RuleId, tl: Timeline, cfg: Config, pf: FloatParser)
    requires r in rules && Evaluate(r, tl, cfg, pf).Some?
    ensures FirstMatch(rules, tl, cfg, pf).Some?
  {
    FirstMatchSome(rules, tl, cfg, pf);
  }

  lemma MatchWellFormed(rules: seq<RuleId>, tl: Timeline, cfg: Config, pf: FloatParser)
    requires Dated(tl) && FirstMatch(rules, tl, cfg, pf).Some?
    ensures DraftWellFormed(FirstMatch(rules, tl, cfg, pf).value) && FirstMatch(rules, tl, cfg, pf).value.cause.Some?
  {
    FirstMatchSome(rules, tl, cfg, pf);
    var r :| r in rules && Evaluate(r, tl, cfg, pf) == FirstMatch(rules, tl, cfg, pf);
    EveryDraftWellFormed(r, tl, cfg, pf);
  }

  lemma SettledWellFormed(tl: Timeline, cfg: Config, pf: FloatParser)
    requires Dated(tl)
    ensures var d := Settle(ORDERED, tl, cfg, pf);
            && DraftWellFormed(d)
            && (d.cause.None? ==> DeriveOutcome(tl).0 == NoDuty || DeriveOutcome(tl).0 == OK)
            && (DeriveOutcome(tl).0 == NoDuty ==> d.cause.None?)
  {
    SomethingMatches(tl, cfg, pf);
    MatchWellFormed(ORDERED, tl, cfg, pf);
    assert EvidenceValid(NoDutyDraft(tl).evidence[0]) && EvidenceValid(CleanPass(tl).evidence[0]);
  }

  // --------------------------------------------------------- emitted verdicts

  /** An attester's included attestation earned no reward flag at all: no delay was recorded, or the
      delay is above the timely-source bound and the target is not marked correct. */
  predicate NoFlagEarned(tl: Timeline) {
    && tl.duty.Some? && tl.duty.value.kind == Attester
    && var included := tl.Last(AttestationIncluded);
    && included.Some?
    && var delay := InclusionDelay(included.value);
    && (delay.None? ||
        (delay.value > TIMELY_SOURCE_MAX_DELAY && included.value.Attr(ATTR_TARGET_CORRECT) != Some("true")))
  }

  lemma FlagsFitIff(tl: Timeline)
    ensures var (outcome, flags) := DeriveOutcome(tl); FlagsFit(outcome, flags) <==> !NoFlagEarned(tl)
  {
  }

  lemma StampedValidIff(tl: Timeline, d: Draft, outcome: Outcome, flags: Option<RewardFlags>)
    requires DraftWellFormed(d)
    requires d.cause.None? ==> outcome == NoDuty || outcome == OK
    requires outcome == NoDuty ==> d.cause.None?
    ensures VerdictValid(Stamped(tl, d, outcome, flags)) <==> FlagsFit(outcome, flags)
  {
    var v := Stamped(tl, d, outcome, flags);
    forall i | 0 <= i < |v.evidence| ensures EvidenceValid(v.evidence[i]) {
      assert EvidenceValid(d.evidence[i]);
    }
  }

  /** Analyze emits a verdict Verdict.Validate accepts, with the drafted cause and every evidence
      offset measured from the slot start, except exactly when no flag was earned.  Only then is
      safeFallback entered, and its verdict then fails validation too. */
  lemma AnalyzeValidIff(tl: Timeline, cfg: Config, pf: FloatParser)
    requires TimelineValid(tl, pf)
    ensures VerdictValid(Analyze(tl, cfg, pf)) <==> !NoFlagEarned(tl)
    ensures var (outcome, flags) := DeriveOutcome(tl);
            Analyze(tl, cfg, pf) ==
              if NoFlagEarned(tl) then SafeFallback(tl, outcome, flags)
              else Stamped(tl, Settle(ORDERED, tl, cfg, pf), outcome, flags)
  {
    ValidIsDated(tl, pf);
    SettledWellFormed(tl, cfg, pf);
    FlagsFitIff(tl);
    var (outcome, flags) := DeriveOutcome(tl);
    StampedValidIff(tl, Settle(ORDERED, tl, cfg, pf), outcome, flags);
  }

  /** The exception is real: a late inclusion with a wrong target, on a valid timeline. */
  lemma FallbackIsReachable(cfg: Config) returns (tl: Timeline, pf: FloatParser)
    ensures TimelineValid(tl, pf) && !VerdictValid(Analyze(tl, cfg, pf))
  {
    pf := (s: string) => None;
    var attrs := map[ATTR_INCLUSION_DELAY := "9", ATTR_HEAD_CORRECT := "false", ATTR_TARGET_CORRECT := "false"];
    var o := Observation(0, AttestationIncluded, 5, 0, false, 0, BeaconAPI, attrs);
    tl := Timeline(0, 1, Schedule(3, 1, 2, 0, 0), Some(Duty(Attester, 0, 7)), [o], [], [], None, false);
    NineParses();
    LateInclusionValid(o, pf);
    OnlyObservation(tl, o, pf);
    NothingEarned(tl, o);
    AnalyzeValidIff(tl, cfg, pf);
  }

  lemma NothingEarned(tl: Timeline, o: Observation)
    requires tl.duty == Some(Duty(Attester, 0, 7)) && tl.Last(AttestationIncluded) == Some(o) &&
             ParseUint("9") == Some(9)
    requires o.attrs == map[ATTR_INCLUSION_DELAY := "9", ATTR_HEAD_CORRECT := "false", ATTR_TARGET_CORRECT := "false"]
    ensures NoFlagEarned(tl)
  {
    AttrsDistinct(ATTR_INCLUSION_DELAY);
    assert o.Attr(ATTR_INCLUSION_DELAY) == Some("9") && o.Attr(ATTR_TARGET_CORRECT) == Some("false");
  }

  lemma NineParses()
    ensures ParseUint("9") == Some(9)
  {
    assert "9"[..0] == "" && NumeralValue("") == 0 && NumeralValue("9") == 9;
  }

  lemma OnlyObservation(tl: Timeline, o: Observation, pf: FloatParser)
    requires tl == Timeline(0, 1, Schedule(3, 1, 2, 0, 0), Some(Duty(Attester, 0, 7)), [o], [], [], None, false)
    requires o.kind == AttestationIncluded && o.slot == 0 && ObservationValid(o, pf)
    ensures TimelineValid(tl, pf) && tl.Last(AttestationIncluded) == Some(o)
  {
    assert tl.observations[..0] == [] && Count(tl.observations, CollectionCompleted) == 0;
  }

  lemma LateInclusionValid(o: Observation, pf: FloatParser)
    requires o == Observation(0, AttestationIncluded, 5, 0, false, 0, BeaconAPI,
                              map[ATTR_INCLUSION_DELAY := "9", ATTR_HEAD_CORRECT := "false",
                                  ATTR_TARGET_CORRECT := "false"])
    requires ParseUint("9") == Some(9)
    ensures ObservationValid(o, pf)
  {
    forall key | key in o.attrs ensures key in PermittedAttrs(o.kind) && AttrValid(key, o.attrs[key], pf) {
      AttrsDistinct(key);
    }
  }

  /** The attributes on a late inclusion are none of those validated in some other way. */
  lemma AttrsDistinct(key: string)
    requires key == ATTR_INCLUSION_DELAY || key == ATTR_HEAD_CORRECT || key == ATTR_TARGET_CORRECT
    ensures key != ATTR_PROPOSER_INDEX && key != ATTR_VALIDATOR_INDEX && key != ATTR_SAMPLE_COUNT &&
            key != ATTR_PTC_VOTES
    ensures key != ATTR_DURATION_MS && key != ATTR_BLOCK_ARRIVAL_P50_MS && key != ATTR_BLOCK_ARRIVAL_P90_MS
    ensures key != ATTR_PEER_COUNT && key != ATTR_VALUE && key != ATTR_ENGINE_METHOD && key != ATTR_BLOCK_ROOT
    ensures key != ATTR_INCLUSION_DELAY ==> |key| < 15
    ensures key == ATTR_INCLUSION_DELAY ==>
            key != ATTR_HEAD_CORRECT && key != ATTR_TARGET_CORRECT && key != ATTR_PAYLOAD_PRESENT
  {
    assert |ATTR_INCLUSION_DELAY| == 15 && ATTR_INCLUSION_DELAY[0] == 'i';
    assert |ATTR_HEAD_CORRECT| == 12 && ATTR_HEAD_CORRECT[0] == 'h';
    assert |ATTR_TARGET_CORRECT| == 14 && ATTR_TARGET_CORRECT[0] == 't';
    assert ATTR_PROPOSER_INDEX[0] == 'p' && ATTR_PAYLOAD_PRESENT[0] == 'p' && ATTR_VALIDATOR_INDEX[0] == 'v';
  }

  // ------------------------------------------------------------ clock safety

  lemma {:induction false} EarlierRulesSilent(before: seq<RuleId>, after: seq<RuleId>, r: RuleId, tl: Timeline,
                                              cfg: Config, pf: FloatParser)
    requires Evaluate(r, tl, cfg, pf).Some?
    ensures FirstMatch(before + [r] + after, tl, cfg, pf).Some?
    ensures FirstMatch(before, tl, cfg, pf).None? ==>
            FirstMatch(before + [r] + after, tl, cfg, pf) == Evaluate(r, tl, cfg, pf)
  {
    FirstMatchConcat(before + [r], after, tl, cfg, pf);
    FirstMatchConcat(before, [r], tl, cfg, pf);
  }

  /** If the verdict blames the network or anything local other than the clock, then collection
      completed exactly once, not before the inclusion window closed for an attester, and every
      clock reading the attribution could rest on was measured, fresh and within the threshold. */
  lemma ClockSafety(tl: Timeline, cfg: Config, pf: FloatParser)
    requires TimelineValid(tl, pf)
    requires var v := Analyze(tl, cfg, pf);
             v.cause.Some? && v.cause.value.IsAttribution() && v.cause.value != Cause.HostClockDrift
    ensures Count(tl.observations, CollectionCompleted) == 1
    ensures tl.duty.Some? && (tl.duty.value.kind == Attester ==> WindowClosed(tl))
    ensures ClockTrusted(tl, cfg)
  {
    ValidIsDated(tl, pf);
    AnalyzeValidIff(tl, cfg, pf);
    SomethingMatches(tl, cfg, pf);
    AttributionPassesGates(tl, cfg, pf);
    ClockTrustSilent(tl, cfg);
    CountSome(tl.observations, CollectionCompleted);
  }

  lemma GatesFirst()
    ensures ORDERED == [] + [R010] + ([R011] + ORDERED[2..]) == [R010] + [R011] + ORDERED[2..]
  {
  }

  /** An attribution other than clock drift comes from a rule below R-010 and R-011. */
  lemma AttributionPassesGates(tl: Timeline, cfg: Config, pf: FloatParser)
    requires tl.slotStart != 0 && FirstMatch(ORDERED, tl, cfg, pf).Some?
    requires var c := FirstMatch(ORDERED, tl, cfg, pf).value.cause;
             c.Some? && c.value.IsAttribution() && c.value != Cause.HostClockDrift
    ensures DataCompleteness(tl).None? && ClockTrust(tl, cfg).None?
  {
    GatesFirst();
    if DataCompleteness(tl).Some? {
      EarlierRulesSilent([], [R011] + ORDERED[2..], R010, tl, cfg, pf);
      assert false;
    }
    if ClockTrust(tl, cfg).Some? {
      EarlierRulesSilent([R010], ORDERED[2..], R011, tl, cfg, pf);
      ClockTrustSpeaks(tl, cfg);
      assert false;
    }
  }
}
