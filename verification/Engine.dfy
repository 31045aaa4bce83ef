/** The RCA engine (internal/rca): outcome derivation, first-match analysis and the final stamp. */
module Engine {
  import opened Text
  import opened Domain
  import opened LatencyStages
  import opened Verdicts
  import opened Rules

  const TIMELY_SOURCE_MAX_DELAY: nat := 5

  function InclusionDelay(included: Observation): Option<nat> {
    var text := included.Attr(ATTR_INCLUSION_DELAY);
    if text.Some? then ParseUint(text.value) else None
  }

  function FlagsOf(included: Observation): RewardFlags {
    var delay := InclusionDelay(included);
    var target := included.Attr(ATTR_TARGET_CORRECT) == Some("true");
    RewardFlags(delay.Some? && delay.value <= TIMELY_SOURCE_MAX_DELAY,
                delay.Some? && target,
                delay == Some(1) && target && included.Attr(ATTR_HEAD_CORRECT) == Some("true"))
  }

  function DeriveOutcome(tl: Timeline): (Outcome, Option<RewardFlags>) {
    if tl.duty.None? then (NoDuty, None)
    else if tl.duty.value.kind == Proposer then (if tl.Has(BlockProposed) then OK else Missed, None)
    else
      var included := tl.Last(AttestationIncluded);
      if included.None? then (Missed, None)
      else
        var flags := FlagsOf(included.value);
        (if flags.AllEarned() then OK else Degraded, Some(flags))
  }

  /** The outcome and the rules' own test of "was anything lost" are written independently and agree
      on every duty: ok exactly when there is no observable loss. */
  lemma OkIffNoLoss(tl: Timeline)
    requires tl.duty.Some?
    ensures DeriveOutcome(tl).0 == OK <==> !ObservableLoss(tl)
  {
    if tl.duty.value.kind == Attester && tl.Last(AttestationIncluded).Some? {
      var included := tl.Last(AttestationIncluded).value;
      assert FlagsOf(included).AllEarned() <==> !LossOf(included);
    }
  }

  // ------------------------------------------------------------------ finish

  function StampOffsets(evidence: seq<Evidence>, slotStart: Instant): (r: seq<Evidence>)
    ensures |r| == |evidence|
    ensures forall i | 0 <= i < |r| :: r[i] == evidence[i].(offset := Sub(evidence[i].at, slotStart))
  {
    seq(|evidence|, i requires 0 <= i < |evidence| => evidence[i].(offset := Sub(evidence[i].at, slotStart)))
  }

  function Stamped(tl: Timeline, draft: Draft, outcome: Outcome, flags: Option<RewardFlags>): Verdict {
    Verdict(tl.slot, outcome, flags, draft.cause, None, draft.confidence,
            StampOffsets(draft.evidence, tl.slotStart), ENGINE_VERSION, TAXONOMY_VERSION)
  }

  function SafeFallback(tl: Timeline, outcome: Outcome, flags: Option<RewardFlags>): Verdict {
    var noDuty := outcome == NoDuty;
    Verdict(tl.slot, outcome, if noDuty then None else flags, if noDuty then None else Some(Cause.NoRuleMatched),
            None, Low,
            [Fact(tl.slotStart, "invalid verdict", Derived)], ENGINE_VERSION, TAXONOMY_VERSION)
  }

  function Finish(tl: Timeline, draft: Draft, outcome: Outcome, flags: Option<RewardFlags>): Verdict {
    var v := Stamped(tl, draft, outcome, flags);
    if VerdictValid(v) then v else SafeFallback(tl, outcome, flags)
  }

  /** The in-place stamping loop of finish. */
  method StampLoop(evidence: array<Evidence>, slotStart: Instant)
    modifies evidence
    ensures evidence[..] == StampOffsets(old(evidence[..]), slotStart)
  {
    for i := 0 to evidence.Length
      invariant forall j | 0 <= j < i :: evidence[j] == old(evidence[j]).(offset := Sub(old(evidence[j]).at, slotStart))
      invariant forall j | i <= j < evidence.Length :: evidence[j] == old(evidence[j])
    {
      evidence[i] := evidence[i].(offset := Sub(evidence[i].at, slotStart));
    }
  }

  // ----------------------------------------------------------------- analyze

  function FirstMatch(rules: seq<RuleId>, tl: Timeline, cfg: Config, pf: FloatParser): Option<Draft> {
    if rules == [] then None
    else if Evaluate(rules[0], tl, cfg, pf).Some? then Evaluate(rules[0], tl, cfg, pf)
    else FirstMatch(rules[1..], tl, cfg, pf)
  }

  function NoDutyDraft(tl: Timeline): Draft {
    Draft(None, High, [Fact(tl.slotStart, "no duty", Derived)])
  }

  function CleanPass(tl: Timeline): Draft {
    Draft(None, High, [Fact(VerdictAt(tl), "all flags earned", Derived)])
  }

  function NothingMatched(tl: Timeline): Draft {
    Draft(Some(Cause.NoRuleMatched), Low, [Fact(tl.slotStart, "no rule", Derived)])
  }

  /** The draft analyze settles on, before finish. */
  function Settle(rules: seq<RuleId>, tl: Timeline, cfg: Config, pf: FloatParser): Draft {
    var outcome := DeriveOutcome(tl).0;
    if outcome == NoDuty then NoDutyDraft(tl)
    else match FirstMatch(rules, tl, cfg, pf)
      case None => NothingMatched(tl)
      case Some(d) => if outcome == OK && d.cause == Some(Cause.NoRuleMatched) then CleanPass(tl) else d
  }

  function AnalyzeWith(rules: seq<RuleId>, tl: Timeline, cfg: Config, pf: FloatParser): Verdict {
    var (outcome, flags) := DeriveOutcome(tl);
    Finish(tl, Settle(rules, tl, cfg, pf), outcome, if outcome == NoDuty then None else flags)
  }

  function Analyze(tl: Timeline, cfg: Config, pf: FloatParser): Verdict {
    AnalyzeWith(ORDERED, tl, cfg, pf)
  }

  // ------------------------------------------------- rule order is irrelevant

  const BLOCK: seq<RuleId> := [R110, R200, R300, R310, R400, R410]

  predicate InFamily(r: RuleId) {
    r.R100? || r.R110? || r.R200? || r.R300? || r.R310? || r.R400? || r.R410?
  }

  /** No timeline, valid or not, matches two of R-100, R-110, R-200, R-300, R-310, R-400, R-410. */
  lemma RulesDisjoint(a: RuleId, b: RuleId, tl: Timeline, cfg: Config, pf: FloatParser)
    requires InFamily(a) && InFamily(b)
    requires Evaluate(a, tl, cfg, pf).Some? && Evaluate(b, tl, cfg, pf).Some?
    ensures a == b
  {
    Region(a, tl, cfg, pf);
    Region(b, tl, cfg, pf);
  }

  datatype Territory = Skipped | LateNetwork | LateLocal | LateEngine | LateConsensus | Silent | LateSigning

  /** A partition of timelines by facts the rules read; each rule of the family matches inside one
      cell only. */
  function TerritoryOf(tl: Timeline, cfg: Config, pf: FloatParser): Territory {
    var block := TimedBlockSeen(tl.observations);
    if block.None? && !tl.Has(HeadUpdated) then Skipped
    else if LateHead(tl) && Dominant(ComputeStages(tl), cfg.dominance) == Some(Validation) &&
            ComputeStages(tl).validation.Some? then
      if EngineTotal(EngineCalls(tl.observations, pf)) >= Half(ComputeStages(tl)) then LateEngine else LateConsensus
    else if Overspent(tl, cfg) then
      if tl.network.None? || tl.network.value.p50 > tl.Budget() then LateNetwork else LateLocal
    else if tl.Has(AttestationPublished) then LateSigning
    else Silent
  }

  function TerritoryOfRule(r: RuleId): Territory
    requires InFamily(r)
  {
    match r
    case R100 => Skipped
    case R110 => LateNetwork
    case R200 => LateLocal
    case R300 => LateEngine
    case R310 => LateConsensus
    case R400 => Silent
    case R410 => LateSigning
    case _ => assert false; Skipped
  }

  lemma Region(r: RuleId, tl: Timeline, cfg: Config, pf: FloatParser)
    requires InFamily(r) && Evaluate(r, tl, cfg, pf).Some?
    ensures TerritoryOf(tl, cfg, pf) == TerritoryOfRule(r)
  {
    match r
    case R110 => OverspentIsNotValidation(tl, cfg);
    case R200 => OverspentIsNotValidation(tl, cfg);
    case R400 => TimelyBlockIsNotOverspent(tl, cfg);
    case R410 => TimelyBlockIsNotOverspent(tl, cfg);
    case _ =>
  }

  lemma OverspentIsNotValidation(tl: Timeline, cfg: Config)
    requires Overspent(tl, cfg)
    ensures TimedBlockSeen(tl.observations).Some?
    ensures ComputeStages(tl).validation.Some? ==> Dominant(ComputeStages(tl), cfg.dominance) != Some(Validation)
  {
  }

  lemma TimelyBlockIsNotOverspent(tl: Timeline, cfg: Config)
    requires TimedBlockSeen(tl.observations).Some? && TimedBlockSeen(tl.observations).value.at < tl.Deadline()
    ensures !Overspent(tl, cfg)
  {
  }

  lemma {:induction false} FirstMatchConcat(a: seq<RuleId>, b: seq<RuleId>, tl: Timeline, cfg: Config, pf: FloatParser)
    ensures FirstMatch(a + b, tl, cfg, pf) ==
            if FirstMatch(a, tl, cfg, pf).Some? then FirstMatch(a, tl, cfg, pf) else FirstMatch(b, tl, cfg, pf)
  {
    if a == [] {
      assert a + b == b;
    } else {
      assert (a + b)[1..] == a[1..] + b;
      FirstMatchConcat(a[1..], b, tl, cfg, pf);
    }
  }

  lemma {:induction false} FirstMatchSome(rules: seq<RuleId>, tl: Timeline, cfg: Config, pf: FloatParser)
    ensures FirstMatch(rules, tl, cfg, pf).Some? <==> exists r :: r in rules && Evaluate(r, tl, cfg, pf).Some?
    ensures FirstMatch(rules, tl, cfg, pf).Some? ==>
              exists r :: r in rules && Evaluate(r, tl, cfg, pf) == FirstMatch(rules, tl, cfg, pf)
  {
    if rules != [] {
      FirstMatchSome(rules[1..], tl, cfg, pf);
      if Evaluate(rules[0], tl, cfg, pf).Some? {
        assert rules[0] in rules;
      } else {
        assert forall r :: r in rules ==> r == rules[0] || r in rules[1..];
        assert forall r :: r in rules[1..] ==> r in rules;
      }
    }
  }

  /** Where at most one rule can match, the arrangement of the rules does not matter. */
  lemma DisjointOrderFree(p: seq<RuleId>, q: seq<RuleId>, tl: Timeline, cfg: Config, pf: FloatParser)
    requires forall r :: r in p <==> r in q
    requires forall a, b | a in q && b in q && Evaluate(a, tl, cfg, pf).Some? && Evaluate(b, tl, cfg, pf).Some? ::
             a == b
    ensures FirstMatch(p, tl, cfg, pf) == FirstMatch(q, tl, cfg, pf)
  {
    FirstMatchSome(p, tl, cfg, pf);
    FirstMatchSome(q, tl, cfg, pf);
  }

  lemma SameMembers(p: seq<RuleId>, q: seq<RuleId>)
    requires multiset(p) == multiset(q)
    ensures forall r :: r in p <==> r in q
  {
    assert forall r :: (r in p <==> r in multiset(p)) && (r in q <==> r in multiset(q));
  }

  lemma BlockOrderFree(p: seq<RuleId>, tl: Timeline, cfg: Config, pf: FloatParser)
    requires multiset(p) == multiset(BLOCK)
    ensures FirstMatch(p, tl, cfg, pf) == FirstMatch(BLOCK, tl, cfg, pf)
  {
    SameMembers(p, BLOCK);
    forall a, b | a in BLOCK && b in BLOCK && Evaluate(a, tl, cfg, pf).Some? && Evaluate(b, tl, cfg, pf).Some?
      ensures a == b
    {
      RulesDisjoint(a, b, tl, cfg, pf);
    }
    DisjointOrderFree(p, BLOCK, tl, cfg, pf);
  }

  /** Reordering R-110 .. R-410 in any way leaves Analyze unchanged on every input. */
  lemma AnalyzeIgnoresBlockOrder(p: seq<RuleId>, tl: Timeline, cfg: Config, pf: FloatParser)
    requires multiset(p) == multiset(BLOCK)
    ensures AnalyzeWith([R010, R011, R100, R120] + p + [R500, R600, R999], tl, cfg, pf) == Analyze(tl, cfg, pf)
  {
    BlockOrderFree(p, tl, cfg, pf);
    FirstMatchMiddle([R010, R011, R100, R120], p, BLOCK, [R500, R600, R999], tl, cfg, pf);
    OrderSplits();
  }

  lemma OrderSplits()
    ensures ORDERED == [R010, R011, R100, R120] + BLOCK + [R500, R600, R999]
  {
  }

  lemma FirstMatchMiddle(before: seq<RuleId>, p: seq<RuleId>, q: seq<RuleId>, after: seq<RuleId>,
                         tl: Timeline, cfg: Config, pf: FloatParser)
    requires FirstMatch(p, tl, cfg, pf) == FirstMatch(q, tl, cfg, pf)
    ensures FirstMatch(before + p + after, tl, cfg, pf) == FirstMatch(before + q + after, tl, cfg, pf)
  {
    FirstMatchConcat(before + p, after, tl, cfg, pf);
    FirstMatchConcat(before, p, tl, cfg, pf);
    FirstMatchConcat(before + q, after, tl, cfg, pf);
    FirstMatchConcat(before, q, tl, cfg, pf);
  }
}
