/** The latency-budget decomposition of a duty (internal/rca/rules/stages.go). */
module LatencyStages {
  import opened Text
  import opened Domain

  /** Stage durations; None where a boundary was not observed. */
  datatype Stages = Stages(propagation: Option<Duration>, validation: Option<Duration>, signing: Option<Duration>)
  {
    function Of(stage: Stage): Option<Duration> {
      match stage
      case Propagation => propagation
      case Validation => validation
      case Signing => signing
    }

    /** Known stages form a prefix of propagation, validation, signing and none is negative. */
    predicate WellFormed() {
      && (signing.Some? ==> validation.Some?) && (validation.Some? ==> propagation.Some?)
      && (forall st: Stage | Of(st).Some? :: Of(st).value >= 0)
    }

    /** The plain sum of the known stages. */
    function Sum(): int {
      Known(propagation) + Known(validation) + Known(signing)
    }
  }

  const ORDER: seq<Stage> := [Propagation, Validation, Signing]

  function Known(d: Option<Duration>): int {
    if d.Some? then d.value else 0
  }

  /** One turn of the loop in Total: None means the sum left int64 and the loop returned early. */
  function AddStage(total: Option<Duration>, stage: Option<Duration>): Option<Duration> {
    if total.None? || stage.None? then total
    else if stage.value > 0 && total.value > MAX_INT64 - stage.value then None
    else Some(WrapInt(total.value + stage.value))
  }

  function Total(s: Stages): Duration {
    var r := AddStage(AddStage(AddStage(Some(0), s.propagation), s.validation), s.signing);
    if r.Some? then r.value else MAX_INT64
  }

  method TotalLoop(s: Stages) returns (total: Duration)
    ensures total == Total(s)
  {
    total := 0;
    ghost var acc: Option<Duration> := Some(0);
    var values := [s.propagation, s.validation, s.signing];
    for i := 0 to 3
      invariant acc == Some(total)
      invariant acc == (match i
                        case 0 => Some(0)
                        case 1 => AddStage(Some(0), s.propagation)
                        case 2 => AddStage(AddStage(Some(0), s.propagation), s.validation)
                        case _ => AddStage(AddStage(AddStage(Some(0), s.propagation), s.validation), s.signing))
    {
      var stage := values[i];
      if stage.Some? {
        if stage.value > 0 && total > MAX_INT64 - stage.value { return MAX_INT64; }
        acc := AddStage(acc, stage);
        total := WrapInt(total + stage.value);
      }
    }
  }

  /** For non-negative stages the loop computes the sum, saturated at the int64 maximum. */
  lemma TotalIsSum(s: Stages)
    requires s.WellFormed()
    ensures Total(s) == if s.Sum() <= MAX_INT64 then s.Sum() else MAX_INT64
  {
    assert s.Of(Propagation) == s.propagation && s.Of(Validation) == s.validation && s.Of(Signing) == s.signing;
  }

  function Share(s: Stages, stage: Stage): Option<real> {
    var total := Total(s);
    if total <= 0 || s.Of(stage).None? then None
    else Some(s.Of(stage).value as real / total as real)
  }

  function ShareOr0(s: Stages, stage: Stage): real {
    if Share(s, stage).Some? then Share(s, stage).value else 0.0
  }

  /** Shares of a positive total that did not saturate sum to one, and none is negative. */
  lemma SharesSumToOne(s: Stages)
    requires s.WellFormed() && 0 < s.Sum() <= MAX_INT64
    ensures ShareOr0(s, Propagation) + ShareOr0(s, Validation) + ShareOr0(s, Signing) == 1.0
    ensures forall st: Stage :: 0.0 <= ShareOr0(s, st) <= 1.0
  {
    TotalIsSum(s);
    var t := Total(s) as real;
    var p, v, g := Known(s.propagation) as real, Known(s.validation) as real, Known(s.signing) as real;
    assert s.Of(Propagation) == s.propagation && s.Of(Validation) == s.validation && s.Of(Signing) == s.signing;
    assert p >= 0.0 && v >= 0.0 && g >= 0.0 && p + v + g == t;
    SumOfQuotients(p, v, g, t);
    assert ShareOr0(s, Propagation) == p / t && ShareOr0(s, Validation) == v / t && ShareOr0(s, Signing) == g / t;
  }

  lemma SumOfQuotients(p: real, v: real, g: real, t: real)
    requires t > 0.0 && p >= 0.0 && v >= 0.0 && g >= 0.0 && p + v + g == t
    ensures p / t + v / t + g / t == 1.0
    ensures p / t >= 0.0 && v / t >= 0.0 && g / t >= 0.0
  {
    assert p / t + v / t + g / t == (p + v + g) / t;
  }

  // --------------------------------------------------------------- dominance

  datatype Best = Nothing | Best(stage: Stage, share: real)

  function Better(s: Stages, best: Best, stage: Stage): Best {
    match Share(s, stage)
    case None => best
    case Some(share) => if best.Nothing? || share > best.share then Best(stage, share) else best
  }

  /** The loop of Dominant over the stages in some order. */
  function Scan(s: Stages, order: seq<Stage>, best: Best): Best {
    if order == [] then best else Scan(s, order[1..], Better(s, best, order[0]))
  }

  function KnownCount(s: Stages): nat {
    (if s.propagation.Some? then 1 else 0) + (if s.validation.Some? then 1 else 0) + (if s.signing.Some? then 1 else 0)
  }

  function DominantIn(s: Stages, dominance: real, order: seq<Stage>): Option<Stage> {
    if KnownCount(s) < 2 then None
    else
      var best := Scan(s, order, Nothing);
      if best.Nothing? || best.share < dominance then None else Some(best.stage)
  }

  function Dominant(s: Stages, dominance: real): Option<Stage> {
    DominantIn(s, dominance, ORDER)
  }

  method DominantLoop(s: Stages, dominance: real) returns (stage: Option<Stage>)
    ensures stage == Dominant(s, dominance)
  {
    if KnownCount(s) < 2 { return None; }
    var best := Nothing;
    for i := 0 to |ORDER|
      invariant Scan(s, ORDER[i..], best) == Scan(s, ORDER, Nothing)
    {
      assert ORDER[i..][1..] == ORDER[i + 1..];
      var share := Share(s, ORDER[i]);
      if share.Some? && (best.Nothing? || share.value > best.share) { best := Best(ORDER[i], share.value); }
    }
    stage := if best.Nothing? || best.share < dominance then None else Some(best.stage);
  }

  /** The scan keeps a known stage of greatest share, whatever the order. */
  lemma {:induction false} ScanIsMax(s: Stages, order: seq<Stage>, best: Best)
    requires best.Best? ==> Share(s, best.stage) == Some(best.share)
    ensures var r := Scan(s, order, best);
            && (r.Best? ==> Share(s, r.stage) == Some(r.share))
            && (best.Best? ==> r.Best? && r.share >= best.share)
            && (forall st | st in order && Share(s, st).Some? :: r.Best? && r.share >= Share(s, st).value)
            && (r.Best? ==> r == best || r.stage in order)
  {
    if order != [] {
      ScanIsMax(s, order[1..], Better(s, best, order[0]));
    }
  }

  lemma EveryStageScanned()
    ensures forall st: Stage :: st in ORDER
  {
    forall st: Stage ensures st in ORDER {
      match st
      case Propagation => assert ORDER[0] == st;
      case Validation => assert ORDER[1] == st;
      case Signing => assert ORDER[2] == st;
    }
  }

  /** Dominant answers exactly when two stages are known and some stage reaches the bar, and it
      then answers a stage whose share is at least every other's. */
  lemma DominantMeaning(s: Stages, dominance: real)
    ensures Dominant(s, dominance).Some? <==>
              KnownCount(s) >= 2 && exists st: Stage :: Share(s, st).Some? && Share(s, st).value >= dominance
    ensures Dominant(s, dominance).Some? ==>
              var d := Dominant(s, dominance).value;
              && Share(s, d).Some? && Share(s, d).value >= dominance
              && forall st: Stage | Share(s, st).Some? :: Share(s, st).value <= Share(s, d).value
  {
    ScanIsMax(s, ORDER, Nothing);
    EveryStageScanned();
  }

  /** Above one half at most one stage can reach the bar, so the scan order is irrelevant. */
  lemma DominantIgnoresOrder(s: Stages, dominance: real, order: seq<Stage>)
    requires s.WellFormed() && 0 < s.Sum() <= MAX_INT64
    requires dominance > 0.5
    requires forall st: Stage :: st in order
    ensures DominantIn(s, dominance, order) == Dominant(s, dominance)
    ensures forall a: Stage, b: Stage | a != b && Share(s, a).Some? && Share(s, b).Some? ::
              !(Share(s, a).value >= dominance && Share(s, b).value >= dominance)
  {
    forall a: Stage, b: Stage | a != b && Share(s, a).Some? && Share(s, b).Some?
      ensures !(Share(s, a).value >= dominance && Share(s, b).value >= dominance)
    {
      TwoSharesFit(s, a, b);
    }
    ScanIsMax(s, order, Nothing);
    ScanIsMax(s, ORDER, Nothing);
    EveryStageScanned();
    var x, y := Scan(s, order, Nothing), Scan(s, ORDER, Nothing);
    if x.Best? || y.Best? { assert x.Best? && y.Best? && x.share == y.share; }
  }

  lemma TwoSharesFit(s: Stages, a: Stage, b: Stage)
    requires s.WellFormed() && 0 < s.Sum() <= MAX_INT64 && a != b
    ensures ShareOr0(s, a) + ShareOr0(s, b) <= 1.0
  {
    SharesSumToOne(s);
  }

  /** An order the scan might take: it visits every stage. */
  ghost predicate VisitsAll(order: seq<Stage>) {
    forall st: Stage :: st in order
  }

  ghost predicate OrderFree(s: Stages, dominance: real) {
    forall p, q | VisitsAll(p) && VisitsAll(q) :: DominantIn(s, dominance, p) == DominantIn(s, dominance, q)
  }

  /** Two stages share the greatest share, and it reaches the bar. */
  predicate Tied(s: Stages, dominance: real, a: Stage, b: Stage) {
    && a != b && Share(s, a).Some? && Share(s, a) == Share(s, b) && Share(s, a).value >= dominance
    && forall st: Stage | Share(s, st).Some? :: Share(s, st).value <= Share(s, a).value
  }

  /** A greatest share that is scanned first stays. */
  lemma {:induction false} GreatestStays(s: Stages, order: seq<Stage>, best: Best)
    requires best.Best? && forall st: Stage | Share(s, st).Some? :: Share(s, st).value <= best.share
    ensures Scan(s, order, best) == best
  {
    if order != [] { GreatestStays(s, order[1..], best); }
  }

  lemma FirstTiedWins(s: Stages, dominance: real, a: Stage, b: Stage, rest: seq<Stage>)
    requires Tied(s, dominance, a, b)
    ensures DominantIn(s, dominance, [a] + rest) == Some(a)
  {
    var best := Best(a, Share(s, a).value);
    assert ([a] + rest)[1..] == rest;
    GreatestStays(s, rest, best);
    assert Scan(s, [a] + rest, Nothing) == best;
  }

  lemma TieShows(s: Stages, dominance: real, a: Stage, b: Stage)
    requires Tied(s, dominance, a, b)
    ensures !OrderFree(s, dominance)
  {
    FirstTiedWins(s, dominance, a, b, ORDER);
    FirstTiedWins(s, dominance, b, a, ORDER);
    EveryStageScanned();
    assert VisitsAll([a] + ORDER) && VisitsAll([b] + ORDER);
  }

  lemma SameScanWithoutTie(s: Stages, dominance: real, p: seq<Stage>, q: seq<Stage>)
    requires VisitsAll(p) && VisitsAll(q) && forall a: Stage, b: Stage :: !Tied(s, dominance, a, b)
    ensures DominantIn(s, dominance, p) == DominantIn(s, dominance, q)
  {
    ScanIsMax(s, p, Nothing);
    ScanIsMax(s, q, Nothing);
    var x, y := Scan(s, p, Nothing), Scan(s, q, Nothing);
    if x.Best? || y.Best? {
      assert x.Best? && y.Best? && x.share == y.share;
      assert !Tied(s, dominance, x.stage, y.stage);
    }
  }

  /** For every dominance and all stages: the scan order is irrelevant exactly when no two stages share
      the greatest share at or above the bar. */
  lemma OrderFreeIff(s: Stages, dominance: real)
    ensures OrderFree(s, dominance) <==> forall a: Stage, b: Stage :: !Tied(s, dominance, a, b)
  {
    forall a: Stage, b: Stage | Tied(s, dominance, a, b) ensures !OrderFree(s, dominance) {
      TieShows(s, dominance, a, b);
    }
    if forall a: Stage, b: Stage :: !Tied(s, dominance, a, b) {
      forall p, q | VisitsAll(p) && VisitsAll(q) ensures DominantIn(s, dominance, p) == DominantIn(s, dominance, q) {
        SameScanWithoutTie(s, dominance, p, q);
      }
    }
  }

  /** At the default of one half that leaves one case: two stages of exactly half the total each. */
  lemma HalfTiedIff(s: Stages, a: Stage, b: Stage)
    requires s.WellFormed() && 0 < s.Sum() <= MAX_INT64 && a != b
    ensures Tied(s, 0.5, a, b) <==> Share(s, a) == Some(0.5) && Share(s, b) == Some(0.5)
  {
    TwoSharesFit(s, a, b);
    SharesSumToOne(s);
    if Share(s, a) == Some(0.5) && Share(s, b) == Some(0.5) {
      forall st: Stage | Share(s, st).Some? ensures Share(s, st).value <= 0.5 {
        if st != a { TwoSharesFit(s, a, st); }
      }
    }
  }

  /** Above one half stages tie only when their sum no longer fits an int64, so that the saturated
      total makes both shares too large. */
  lemma TieAboveHalfSaturates(s: Stages, dominance: real, a: Stage, b: Stage)
    requires s.WellFormed() && dominance > 0.5 && Tied(s, dominance, a, b)
    ensures s.Sum() > MAX_INT64
  {
    TotalIsSum(s);
    if s.Sum() <= MAX_INT64 { TwoSharesFit(s, a, b); }
  }

  /** At one half, the documented default, an exact tie is possible and the scan order decides. */
  lemma HalfCanTie() returns (s: Stages)
    ensures s.WellFormed() && 0 < s.Sum() <= MAX_INT64
    ensures Dominant(s, 0.5) == Some(Propagation)
    ensures DominantIn(s, 0.5, [Signing, Validation, Propagation]) == Some(Validation)
  {
    s := Stages(Some(1), Some(1), None);
    assert Total(s) == 2;
    assert Share(s, Propagation) == Some(0.5) && Share(s, Validation) == Some(0.5) && Share(s, Signing) == None;
    var o := ORDER;
    assert o[1..] == [Validation, Signing] && o[1..][1..] == [Signing] && o[1..][1..][1..] == [];
    assert Scan(s, [Signing], Best(Propagation, 0.5)) == Best(Propagation, 0.5);
    assert Scan(s, [Validation, Signing], Best(Propagation, 0.5)) == Best(Propagation, 0.5);
    var r := [Signing, Validation, Propagation];
    assert r[1..] == [Validation, Propagation] && r[1..][1..] == [Propagation] && r[1..][1..][1..] == [];
    assert Scan(s, [Propagation], Best(Validation, 0.5)) == Best(Validation, 0.5);
    assert Scan(s, [Validation, Propagation], Nothing) == Best(Validation, 0.5);
  }

  // ------------------------------------------------------------ decomposition

  /** The first block arrival measured by client metrics. */
  function TimedBlockSeen(obs: seq<Observation>): (r: Option<Observation>)
    ensures r.Some? ==> r.value in obs && r.value.kind == BlockSeen && r.value.source == PromScrape
    ensures r.None? ==> forall o | o in obs :: !(o.kind == BlockSeen && o.source == PromScrape)
  {
    if obs == [] then None
    else if obs[0].kind == BlockSeen && obs[0].source == PromScrape then Some(obs[0])
    else TimedBlockSeen(obs[1..])
  }

  function ComputeStages(tl: Timeline): Stages {
    var block := TimedBlockSeen(tl.observations);
    if block.None? || block.value.at < tl.slotStart then Stages(None, None, None)
    else
      var propagation := Sub(block.value.at, tl.slotStart);
      var published := tl.First(AttestationPublished);
      var head := tl.First(HeadUpdated);
      if head.Some? then
        if head.value.at < block.value.at then Stages(Some(propagation), None, None)
        else
          Stages(Some(propagation), Some(Sub(head.value.at, block.value.at)),
                 if published.Some? && head.value.at <= published.value.at
                 then Some(Sub(published.value.at, head.value.at)) else None)
      else if published.Some? && block.value.at <= published.value.at then
        Stages(Some(propagation), Some(Sub(published.value.at, block.value.at)), None)
      else Stages(Some(propagation), None, None)
  }

  /** The last observation that bounds a known stage. */
  function LastBoundary(tl: Timeline): Option<Instant> {
    var s := ComputeStages(tl);
    if s.propagation.None? then None
    else if s.validation.None? then Some(TimedBlockSeen(tl.observations).value.at)
    else if s.signing.None? && tl.Has(HeadUpdated) then Some(tl.First(HeadUpdated).value.at)
    else Some(tl.First(AttestationPublished).value.at)
  }

  /** The boundaries of the known stages, in order, the last one repeated. */
  lemma StagesAreDifferences(tl: Timeline) returns (t: seq<Instant>)
    requires LastBoundary(tl).Some?
    ensures |t| == 4 && t[0] <= t[1] <= t[2] <= t[3] && t[0] == tl.slotStart && t[3] == LastBoundary(tl).value
    ensures ComputeStages(tl).Sum() == Sub(t[1], t[0]) + Sub(t[2], t[1]) + Sub(t[3], t[2])
  {
    var s := ComputeStages(tl);
    var b := TimedBlockSeen(tl.observations).value.at;
    if s.validation.None? {
      t := [tl.slotStart, b, b, b];
    } else {
      var h := if tl.Has(HeadUpdated) then tl.First(HeadUpdated).value.at else tl.First(AttestationPublished).value.at;
      t := [tl.slotStart, b, h, if s.signing.Some? then tl.First(AttestationPublished).value.at else h];
    }
  }

  /** Known stages form a prefix, are non-negative, and telescope: their total is the last known
      boundary minus the slot start, through every saturation of the int64 arithmetic. */
  lemma StagesTelescope(tl: Timeline)
    ensures ComputeStages(tl).WellFormed()
    ensures LastBoundary(tl).Some? <==> ComputeStages(tl).propagation.Some?
    ensures LastBoundary(tl).Some? ==> Total(ComputeStages(tl)) == Sub(LastBoundary(tl).value, tl.slotStart)
    ensures LastBoundary(tl).Some? && LastBoundary(tl).value - tl.slotStart <= MAX_INT64 ==>
              ComputeStages(tl).Sum() == LastBoundary(tl).value - tl.slotStart
    ensures LastBoundary(tl).None? ==> Total(ComputeStages(tl)) == 0
  {
    TotalIsSum(ComputeStages(tl));
    if LastBoundary(tl).Some? {
      var t := StagesAreDifferences(tl);
    }
  }

}
