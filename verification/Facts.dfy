/** What a timeline says, record by record: which observations exist, which comes first, and how long
    each stage took.  Nothing here goes through the rules' own lookups or their stage computation;
    the lemmas say that those agree (internal/domain/timeline.go, internal/rca/rules/stages.go). */
module Facts {
  import opened Text
  import opened Domain
  import opened LatencyStages

  // ------------------------------------------------------ what was observed

  predicate TimedBlock(o: Observation) {
    o.kind == BlockSeen && o.source == PromScrape
  }

  /** No observation of this kind. */
  predicate Never(tl: Timeline, kind: Kind) {
    forall o | o in tl.observations :: o.kind != kind
  }

  /** The earliest observation of the kind is at this instant. */
  predicate EarliestAt(tl: Timeline, kind: Kind, at: int) {
    && (exists o | o in tl.observations :: o.kind == kind && o.at == at)
    && forall o | o in tl.observations && o.kind == kind :: at <= o.at
  }

  /** The earliest arrival timed by client metrics is at this instant. */
  predicate ArrivedAt(tl: Timeline, at: int) {
    && (exists o | o in tl.observations :: TimedBlock(o) && o.at == at)
    && forall o | o in tl.observations && TimedBlock(o) :: at <= o.at
  }

  predicate NeverArrived(tl: Timeline) {
    forall o | o in tl.observations :: !TimedBlock(o)
  }

  /** Observation i is the first listed of its kind. */
  predicate FirstOfKind(obs: seq<Observation>, kind: Kind, i: nat) {
    i < |obs| && obs[i].kind == kind && forall j | 0 <= j < i :: obs[j].kind != kind
  }

  /** Observation i is the last listed of its kind. */
  predicate LastOfKind(obs: seq<Observation>, kind: Kind, i: nat) {
    i < |obs| && obs[i].kind == kind && forall j | i < j < |obs| :: obs[j].kind != kind
  }

  /** The instant the attestation is due. */
  function Due(tl: Timeline): int {
    tl.slotStart + tl.schedule.attestationDeadline
  }

  /** Included in the next slot, with head and target both marked correct. */
  predicate FullyEarned(o: Observation) {
    && o.Attr(ATTR_INCLUSION_DELAY).Some? && ParseUint(o.Attr(ATTR_INCLUSION_DELAY).value) == Some(1)
    && o.Attr(ATTR_HEAD_CORRECT) == Some("true") && o.Attr(ATTR_TARGET_CORRECT) == Some("true")
  }

  /** Included with a delay of at most five slots; or, for the target, marked correct at any delay. */
  predicate EarnsSource(o: Observation) {
    && o.Attr(ATTR_INCLUSION_DELAY).Some? && ParseUint(o.Attr(ATTR_INCLUSION_DELAY).value).Some?
    && ParseUint(o.Attr(ATTR_INCLUSION_DELAY).value).value <= 5
  }

  predicate EarnsTarget(o: Observation) {
    && o.Attr(ATTR_INCLUSION_DELAY).Some? && ParseUint(o.Attr(ATTR_INCLUSION_DELAY).value).Some?
    && o.Attr(ATTR_TARGET_CORRECT) == Some("true")
  }

  /** An attester's attestation was included and earned none of the flags. */
  ghost predicate EarnedNothing(tl: Timeline) {
    && tl.duty.Some? && tl.duty.value.kind == Attester
    && exists i: nat :: LastOfKind(tl.observations, AttestationIncluded, i) &&
         !EarnsSource(tl.observations[i]) && !EarnsTarget(tl.observations[i])
  }

  /** A duty was owed and reward was lost: no block proposed; or no attestation included, or the one
      listed last not fully earned. */
  ghost predicate Lost(tl: Timeline) {
    && tl.duty.Some?
    && match tl.duty.value.kind
       case Proposer => Never(tl, BlockProposed)
       case Attester =>
         forall i: nat | LastOfKind(tl.observations, AttestationIncluded, i) :: !FullyEarned(tl.observations[i])
  }

  // ------------------------------------------------- the lookups agree

  lemma {:induction false} FirstIsEarliest(obs: seq<Observation>, kind: Kind)
    requires Ascending(obs)
    ensures FirstOf(obs, kind).Some? ==> forall o | o in obs && o.kind == kind :: FirstOf(obs, kind).value.at <= o.at
  {
    if obs != [] { FirstIsEarliest(obs[1..], kind); }
  }

  lemma {:induction false} LastIsLatest(obs: seq<Observation>, kind: Kind)
    requires Ascending(obs)
    ensures LastOf(obs, kind).Some? ==> forall o | o in obs && o.kind == kind :: o.at <= LastOf(obs, kind).value.at
    decreases |obs|
  {
    if obs != [] {
      var n := |obs| - 1;
      var front := obs[..n];
      assert forall i | 0 <= i < n :: front[i] == obs[i];
      LastIsLatest(front, kind);
      forall o | o in obs ensures o.at <= obs[n].at { var i :| 0 <= i < |obs| && obs[i] == o; }
      assert obs == front + [obs[n]];
    }
  }

  lemma {:induction false} TimedIsEarliest(obs: seq<Observation>)
    requires Ascending(obs)
    ensures TimedBlockSeen(obs).Some? ==> forall o | o in obs && TimedBlock(o) :: TimedBlockSeen(obs).value.at <= o.at
  {
    if obs != [] { TimedIsEarliest(obs[1..]); }
  }

  lemma {:induction false} FirstIsFirstListed(obs: seq<Observation>, kind: Kind) returns (i: nat)
    requires FirstOf(obs, kind).Some?
    ensures FirstOfKind(obs, kind, i) && obs[i] == FirstOf(obs, kind).value
  {
    i := 0;
    if obs[0].kind != kind {
      var j := FirstIsFirstListed(obs[1..], kind);
      i := j + 1;
      assert forall m | 1 <= m < |obs| :: obs[m] == obs[1..][m - 1];
    }
  }

  lemma {:induction false} LastIsLastListed(obs: seq<Observation>, kind: Kind) returns (i: nat)
    requires LastOf(obs, kind).Some?
    ensures LastOfKind(obs, kind, i) && obs[i] == LastOf(obs, kind).value
    decreases |obs|
  {
    var n := |obs| - 1;
    i := n;
    if obs[n].kind != kind {
      i := LastIsLastListed(obs[..n], kind);
      assert forall j | 0 <= j < n :: obs[..n][j] == obs[j];
    }
  }

  lemma NeverIff(tl: Timeline, kind: Kind)
    ensures tl.Has(kind) <==> !Never(tl, kind)
    ensures tl.Last(kind).Some? <==> !Never(tl, kind)
  {
    if tl.Has(kind) { assert tl.First(kind).value in tl.observations; }
    if tl.Last(kind).Some? { assert tl.Last(kind).value in tl.observations; }
  }

  lemma FirstIs(tl: Timeline, kind: Kind, i: nat)
    requires FirstOfKind(tl.observations, kind, i)
    ensures tl.First(kind) == Some(tl.observations[i])
  {
    assert tl.observations[i] in tl.observations;
    var j := FirstIsFirstListed(tl.observations, kind);
  }

  lemma LastIs(tl: Timeline, kind: Kind, i: nat)
    requires LastOfKind(tl.observations, kind, i)
    ensures tl.Last(kind) == Some(tl.observations[i])
  {
    assert tl.observations[i] in tl.observations;
    var j := LastIsLastListed(tl.observations, kind);
  }

  /** On an ascending timeline First gives the earliest instant. */
  lemma FirstAt(tl: Timeline, kind: Kind, at: int)
    requires Ascending(tl.observations)
    ensures EarliestAt(tl, kind, at) <==> tl.Has(kind) && tl.First(kind).value.at == at
  {
    FirstIsEarliest(tl.observations, kind);
    if tl.Has(kind) { assert tl.First(kind).value in tl.observations; }
  }

  lemma TimedAt(tl: Timeline, at: int)
    requires Ascending(tl.observations)
    ensures var b := TimedBlockSeen(tl.observations);
            && (ArrivedAt(tl, at) <==> b.Some? && b.value.at == at)
            && (NeverArrived(tl) <==> b.None?)
  {
    TimedIsEarliest(tl.observations);
    var b := TimedBlockSeen(tl.observations);
    if b.Some? { assert b.value in tl.observations && TimedBlock(b.value); }
  }

  // ---------------------------------------------------------------- stages

  /** The time from one instant to a later one, cut off at the int64 maximum. */
  function Elapsed(from: int, to: int): int {
    if to - from <= MAX_INT64 then to - from else MAX_INT64
  }

  /** The block arrived at b, not before the slot. */
  predicate Arrived(tl: Timeline, b: int) {
    ArrivedAt(tl, b) && tl.slotStart <= b
  }

  predicate PropagationIs(tl: Timeline, d: Duration, b: int) {
    Arrived(tl, b) && d == Elapsed(tl.slotStart, b)
  }

  /** From the arrival to the first head update; without any head update, to the first publication. */
  predicate ValidationIs(tl: Timeline, d: Duration, b: int, end: int) {
    && Arrived(tl, b) && b <= end && d == Elapsed(b, end)
    && (EarliestAt(tl, HeadUpdated, end) || (Never(tl, HeadUpdated) && EarliestAt(tl, AttestationPublished, end)))
  }

  /** From the first head update, not before the arrival, to the first publication. */
  predicate SigningIs(tl: Timeline, d: Duration, b: int, h: int, end: int) {
    && Arrived(tl, b) && b <= h <= end && d == Elapsed(h, end)
    && EarliestAt(tl, HeadUpdated, h) && EarliestAt(tl, AttestationPublished, end)
  }

  /** The stage is known and took this long. */
  ghost predicate StageIs(tl: Timeline, stage: Stage, d: Duration) {
    match stage
    case Propagation => exists b: int :: PropagationIs(tl, d, b)
    case Validation => exists b: int, end: int :: ValidationIs(tl, d, b, end)
    case Signing => exists b: int, h: int, end: int :: SigningIs(tl, d, b, h, end)
  }

  lemma PropagationStage(tl: Timeline, d: Duration)
    requires Ascending(tl.observations)
    ensures ComputeStages(tl).propagation == Some(d) <==> StageIs(tl, Propagation, d)
  {
    var block := TimedBlockSeen(tl.observations);
    if ComputeStages(tl).propagation == Some(d) {
      TimedAt(tl, block.value.at);
      assert PropagationIs(tl, d, block.value.at);
    }
    forall b: int | PropagationIs(tl, d, b) ensures ComputeStages(tl).propagation == Some(d) {
      TimedAt(tl, b);
    }
  }

  lemma ValidationKnown(tl: Timeline)
    requires Ascending(tl.observations) && ComputeStages(tl).validation.Some?
    ensures StageIs(tl, Validation, ComputeStages(tl).validation.value)
  {
    var d, b := ComputeStages(tl).validation.value, TimedBlockSeen(tl.observations).value.at;
    TimedAt(tl, b);
    if tl.Has(HeadUpdated) {
      var head := tl.First(HeadUpdated).value.at;
      FirstAt(tl, HeadUpdated, head);
      assert ValidationIs(tl, d, b, head);
    } else {
      var published := tl.First(AttestationPublished).value.at;
      NeverIff(tl, HeadUpdated);
      FirstAt(tl, AttestationPublished, published);
      assert ValidationIs(tl, d, b, published);
    }
  }

  lemma ValidationOf(tl: Timeline, d: Duration, b: int, end: int)
    requires Ascending(tl.observations) && ValidationIs(tl, d, b, end)
    ensures ComputeStages(tl).validation == Some(d)
  {
    NeverIff(tl, HeadUpdated);
    TimedAt(tl, b);
    if tl.Has(HeadUpdated) { FirstAt(tl, HeadUpdated, end); } else { FirstAt(tl, AttestationPublished, end); }
  }

  lemma ValidationStage(tl: Timeline, d: Duration)
    requires Ascending(tl.observations)
    ensures ComputeStages(tl).validation == Some(d) <==> StageIs(tl, Validation, d)
  {
    if ComputeStages(tl).validation.Some? { ValidationKnown(tl); }
    forall b: int, end: int | ValidationIs(tl, d, b, end) ensures ComputeStages(tl).validation == Some(d) {
      ValidationOf(tl, d, b, end);
    }
  }

  lemma SigningKnown(tl: Timeline)
    requires Ascending(tl.observations) && ComputeStages(tl).signing.Some?
    ensures StageIs(tl, Signing, ComputeStages(tl).signing.value)
  {
    var b, h := TimedBlockSeen(tl.observations).value.at, tl.First(HeadUpdated).value.at;
    var end := tl.First(AttestationPublished).value.at;
    TimedAt(tl, b);
    FirstAt(tl, HeadUpdated, h);
    FirstAt(tl, AttestationPublished, end);
    assert SigningIs(tl, ComputeStages(tl).signing.value, b, h, end);
  }

  lemma SigningOf(tl: Timeline, d: Duration, b: int, h: int, end: int)
    requires Ascending(tl.observations) && SigningIs(tl, d, b, h, end)
    ensures ComputeStages(tl).signing == Some(d)
  {
    TimedAt(tl, b);
    FirstAt(tl, HeadUpdated, h);
    FirstAt(tl, AttestationPublished, end);
  }

  lemma SigningStage(tl: Timeline, d: Duration)
    requires Ascending(tl.observations)
    ensures ComputeStages(tl).signing == Some(d) <==> StageIs(tl, Signing, d)
  {
    if ComputeStages(tl).signing.Some? { SigningKnown(tl); }
    forall b: int, h: int, end: int | SigningIs(tl, d, b, h, end) ensures ComputeStages(tl).signing == Some(d) {
      SigningOf(tl, d, b, h, end);
    }
  }

  /** ComputeStages gives each stage exactly the duration the observations give it, and knows it exactly
      when they do. */
  lemma StagesAre(tl: Timeline, stage: Stage, d: Duration)
    requires Ascending(tl.observations)
    ensures ComputeStages(tl).Of(stage) == Some(d) <==> StageIs(tl, stage, d)
  {
    match stage
    case Propagation => PropagationStage(tl, d);
    case Validation => ValidationStage(tl, d);
    case Signing => SigningStage(tl, d);
  }

  // ----------------------------------------------------- totals and shares

  ghost predicate Unknown(tl: Timeline, stage: Stage) {
    forall d: Duration :: !StageIs(tl, stage, d)
  }

  /** What the stage adds to the total. */
  ghost predicate Spent(tl: Timeline, stage: Stage, d: Duration) {
    StageIs(tl, stage, d) || (d == 0 && Unknown(tl, stage))
  }

  /** The known stages together, cut off at the int64 maximum. */
  ghost predicate TotalIs(tl: Timeline, t: int) {
    exists p: Duration, v: Duration, g: Duration :: AllSpent(tl, p, v, g) && t == Capped(p, v, g)
  }

  ghost predicate AllSpent(tl: Timeline, p: Duration, v: Duration, g: Duration) {
    Spent(tl, Propagation, p) && Spent(tl, Validation, v) && Spent(tl, Signing, g)
  }

  function Capped(p: int, v: int, g: int): int {
    if p + v + g <= MAX_INT64 then p + v + g else MAX_INT64
  }

  lemma SpentIs(tl: Timeline, stage: Stage, d: Duration)
    requires Ascending(tl.observations)
    ensures Spent(tl, stage, d) <==> d == Known(ComputeStages(tl).Of(stage))
    ensures Unknown(tl, stage) <==> ComputeStages(tl).Of(stage).None?
  {
    var of := ComputeStages(tl).Of(stage);
    forall x: Duration ensures of == Some(x) <==> StageIs(tl, stage, x) {
      StagesAre(tl, stage, x);
    }
    if of.Some? { assert StageIs(tl, stage, of.value); }
  }

  lemma TotalOfStages(tl: Timeline)
    ensures var s := ComputeStages(tl);
            Total(s) == Capped(Known(s.Of(Propagation)), Known(s.Of(Validation)), Known(s.Of(Signing)))
  {
    StagesTelescope(tl);
    TotalIsSum(ComputeStages(tl));
  }

  lemma AllSpentAre(tl: Timeline, p: Duration, v: Duration, g: Duration)
    requires Ascending(tl.observations)
    ensures AllSpent(tl, p, v, g) <==>
            var s := ComputeStages(tl);
            p == Known(s.Of(Propagation)) && v == Known(s.Of(Validation)) && g == Known(s.Of(Signing))
  {
    SpentIs(tl, Propagation, p);
    SpentIs(tl, Validation, v);
    SpentIs(tl, Signing, g);
  }

  lemma TotalIsExactly(tl: Timeline, t: int)
    requires Ascending(tl.observations)
    ensures TotalIs(tl, t) <==> t == Total(ComputeStages(tl))
  {
    TotalOfStages(tl);
    var s := ComputeStages(tl);
    var p: Duration, v: Duration, g: Duration :=
      Known(s.Of(Propagation)), Known(s.Of(Validation)), Known(s.Of(Signing));
    AllSpentAre(tl, p, v, g);
    forall x: Duration, y: Duration, z: Duration | AllSpent(tl, x, y, z) ensures x == p && y == v && z == g {
      AllSpentAre(tl, x, y, z);
    }
  }

  predicate Sooner(a: Stage, b: Stage) {
    (a == Propagation && b != Propagation) || (a == Validation && b == Signing)
  }

  predicate NoLonger(x: Duration, other: Stage, d: Duration, stage: Stage) {
    x <= d && (Sooner(other, stage) ==> x < d)
  }

  /** The other stages took no longer, and an earlier one less: ties go to the earlier stage. */
  ghost predicate Longest(tl: Timeline, stage: Stage, d: Duration) {
    forall other: Stage, x: Duration | other != stage && StageIs(tl, other, x) :: NoLonger(x, other, d, stage)
  }

  ghost predicate OtherKnown(tl: Timeline, stage: Stage) {
    exists other: Stage :: other != stage && !Unknown(tl, other)
  }

  /** Of at least two known stages this one took longest, and at least the given share of the total. */
  ghost predicate Dominates(tl: Timeline, dominance: real, stage: Stage) {
    exists d: Duration, t: int ::
      && StageIs(tl, stage, d) && TotalIs(tl, t) && t > 0 && d as real / t as real >= dominance
      && Longest(tl, stage, d) && OtherKnown(tl, stage)
  }

  /** The dominance scan, in terms of the stages' values. */
  predicate Leads(s: Stages, dominance: real, stage: Stage) {
    && s.Of(stage).Some? && Total(s) > 0 && s.Of(stage).value as real / Total(s) as real >= dominance
    && (exists other: Stage :: other != stage && s.Of(other).Some?)
    && forall other: Stage | other != stage && s.Of(other).Some? ::
         NoLonger(s.Of(other).value, other, s.Of(stage).value, stage)
  }

  lemma QuotientOrder(a: int, b: int, t: int)
    requires t > 0
    ensures a as real / t as real > b as real / t as real <==> a > b
  {
    if a > b { assert (a - b) as real / t as real > 0.0; }
    if b > a { assert (b - a) as real / t as real > 0.0; }
  }

  /** The same by shares, as the scan compares them. */
  predicate LeadsByShare(s: Stages, dominance: real, stage: Stage) {
    && Share(s, stage).Some? && Share(s, stage).value >= dominance && KnownCount(s) >= 2
    && forall other: Stage | other != stage && Share(s, other).Some? ::
         && Share(s, other).value <= Share(s, stage).value
         && (Sooner(other, stage) ==> Share(s, other).value < Share(s, stage).value)
  }

  lemma ScanIs(s: Stages)
    ensures Scan(s, ORDER, Nothing) == Better(s, Better(s, Better(s, Nothing, Propagation), Validation), Signing)
  {
    var o, a := ORDER, Better(s, Nothing, Propagation);
    var b := Better(s, a, Validation);
    assert o[1..] == [Validation, Signing] && o[1..][1..] == [Signing] && o[1..][1..][1..] == [];
    assert Scan(s, o, Nothing) == Scan(s, o[1..], a) == Scan(s, o[1..][1..], b);
  }

  /** What the scan keeps: the greatest share, the earliest stage among equals. */
  lemma ScanLeads(s: Stages, other: Stage)
    ensures var best := Scan(s, ORDER, Nothing);
            && (best.Best? ==> Share(s, best.stage) == Some(best.share))
            && (Share(s, other).Some? ==> best.Best? && Share(s, other).value <= best.share)
            && (best.Best? && Share(s, other).Some? && Sooner(other, best.stage) ==> Share(s, other).value < best.share)
  {
    ScanIs(s);
  }

  lemma DominantByShare(s: Stages, dominance: real, stage: Stage)
    ensures Dominant(s, dominance) == Some(stage) <==> LeadsByShare(s, dominance, stage)
  {
    var best := Scan(s, ORDER, Nothing);
    forall other: Stage
      ensures Share(s, other).Some? ==> best.Best? && Share(s, other).value <= best.share
      ensures best.Best? && Share(s, other).Some? && Sooner(other, best.stage) ==> Share(s, other).value < best.share
    {
      ScanLeads(s, other);
    }
    ScanLeads(s, stage);
    assert best.Best? ==> stage == best.stage || Sooner(stage, best.stage) || Sooner(best.stage, stage);
  }

  lemma SharesOrder(s: Stages, a: Stage, b: Stage)
    requires Share(s, a).Some? && Share(s, b).Some?
    ensures s.Of(a).Some? && s.Of(b).Some?
    ensures Share(s, a).value <= Share(s, b).value <==> s.Of(a).value <= s.Of(b).value
    ensures Share(s, a).value < Share(s, b).value <==> s.Of(a).value < s.Of(b).value
  {
    QuotientOrder(s.Of(a).value, s.Of(b).value, Total(s));
    QuotientOrder(s.Of(b).value, s.Of(a).value, Total(s));
  }

  lemma TwoKnown(s: Stages, stage: Stage)
    requires s.Of(stage).Some?
    ensures KnownCount(s) >= 2 <==> exists other: Stage :: other != stage && s.Of(other).Some?
  {
    assert s.Of(Propagation) == s.propagation && s.Of(Validation) == s.validation && s.Of(Signing) == s.signing;
  }

  lemma LeadsSame(s: Stages, dominance: real, stage: Stage)
    ensures LeadsByShare(s, dominance, stage) <==> Leads(s, dominance, stage)
  {
    if Share(s, stage).Some? {
      TwoKnown(s, stage);
      forall other: Stage | other != stage && s.Of(other).Some?
        ensures Share(s, other).Some?
        ensures Share(s, other).value <= Share(s, stage).value <==> s.Of(other).value <= s.Of(stage).value
        ensures Share(s, other).value < Share(s, stage).value <==> s.Of(other).value < s.Of(stage).value
      {
        SharesOrder(s, other, stage);
      }
    }
  }

  lemma OtherKnownIff(tl: Timeline, stage: Stage)
    requires Ascending(tl.observations)
    ensures OtherKnown(tl, stage) <==> exists other: Stage :: other != stage && ComputeStages(tl).Of(other).Some?
  {
    forall st: Stage ensures Unknown(tl, st) <==> ComputeStages(tl).Of(st).None? { SpentIs(tl, st, 0); }
  }

  lemma LongestIff(tl: Timeline, stage: Stage, d: Duration)
    requires Ascending(tl.observations)
    ensures var s := ComputeStages(tl);
            Longest(tl, stage, d) <==>
            forall other: Stage | other != stage && s.Of(other).Some? :: NoLonger(s.Of(other).value, other, d, stage)
  {
    var s := ComputeStages(tl);
    if Longest(tl, stage, d) {
      forall other: Stage | other != stage && s.Of(other).Some? ensures NoLonger(s.Of(other).value, other, d, stage) {
        StagesAre(tl, other, s.Of(other).value);
      }
    } else {
      var other: Stage, x: Duration :| other != stage && StageIs(tl, other, x) && !NoLonger(x, other, d, stage);
      StagesAre(tl, other, x);
    }
  }

  lemma LeadsDominates(tl: Timeline, dominance: real, stage: Stage)
    requires Ascending(tl.observations) && Leads(ComputeStages(tl), dominance, stage)
    ensures Dominates(tl, dominance, stage)
  {
    var s := ComputeStages(tl);
    var d := s.Of(stage).value;
    StagesAre(tl, stage, d);
    TotalIsExactly(tl, Total(s));
    OtherKnownIff(tl, stage);
    LongestIff(tl, stage, d);
  }

  lemma DominatesLeads(tl: Timeline, dominance: real, stage: Stage)
    requires Ascending(tl.observations) && Dominates(tl, dominance, stage)
    ensures Leads(ComputeStages(tl), dominance, stage)
  {
    var d: Duration, t: int :| StageIs(tl, stage, d) && TotalIs(tl, t) && t > 0 && d as real / t as real >= dominance &&
                               Longest(tl, stage, d) && OtherKnown(tl, stage);
    StagesAre(tl, stage, d);
    TotalIsExactly(tl, t);
    OtherKnownIff(tl, stage);
    LongestIff(tl, stage, d);
  }

  /** Dominant names a stage exactly when the observations make it dominate. */
  lemma DominatesIff(tl: Timeline, dominance: real, stage: Stage)
    requires Ascending(tl.observations)
    ensures Dominant(ComputeStages(tl), dominance) == Some(stage) <==> Dominates(tl, dominance, stage)
  {
    DominantByShare(ComputeStages(tl), dominance, stage);
    LeadsSame(ComputeStages(tl), dominance, stage);
    if Leads(ComputeStages(tl), dominance, stage) { LeadsDominates(tl, dominance, stage); }
    if Dominates(tl, dominance, stage) { DominatesLeads(tl, dominance, stage); }
  }
}
