/** Blame on timelines the assembler built: its sorting makes every reading a rule goes by the newest
    one (internal/timeline/assembler.go feeding internal/rca). */
module BuiltBlame {
  import opened Text
  import opened Sorting
  import opened Domain
  import opened Verdicts
  import opened Rules
  import opened Engine
  import opened Facts
  import opened Readings
  import opened Blame
  import opened RecordOrder
  import opened Assembly
  import opened AssemblyTheorems

  lemma SortedSamplesAscend(samples: seq<Sample>)
    ensures SamplesAscend(Sort(SampleLess, samples))
  {
    SampleOrder();
    SortSorted(SampleLess, samples);
    var r := Sort(SampleLess, samples);
    forall i, j | 0 <= i < j < |r| ensures r[i].at <= r[j].at {
      assert !SampleLess(r[j], r[i]);
    }
  }

  /** A built timeline is valid and both its lists ascend. */
  lemma BuiltAscends(s: State, slot: Slot, slotStart: Instant, order: seq<Slot>, pf: FloatParser)
    requires Built(s, slot, slotStart, order, pf).Some?
    ensures var t := Built(s, slot, slotStart, order, pf).value;
            TimelineValid(t, pf) && Ascending(t.observations) && SamplesAscend(t.samples)
  {
    SortedAscends(Filed(s, slot));
    SortedSamplesAscend(s.samples);
  }

  ghost predicate NewestAbove(tl: Timeline, g: Gauge, pf: FloatParser, threshold: real) {
    exists f :: IsNewestReading(tl, g, pf, f) && f.value > threshold
  }

  ghost predicate NewestBelow(tl: Timeline, g: Gauge, pf: FloatParser, threshold: real) {
    exists f :: IsNewestReading(tl, g, pf, f) && f.value < threshold
  }

  /** The causes that rest on a reading rest on the newest one. */
  ghost predicate NewestGrounds(c: Cause, tl: Timeline, cfg: Config, pf: FloatParser) {
    match c
    case P2PDegraded => NewestBelow(tl, PeerGauge, pf, cfg.peerCountMin)
    case HostDiskIO => NewestAbove(tl, IO_WAIT, pf, cfg.ioWaitPct)
    case HostCPUSteal => NewestAbove(tl, CPU_STEAL, pf, cfg.cpuStealPct)
    case HostMemoryPressure => NewestAbove(tl, MEMORY_PRESSURE, pf, cfg.psiMemAvg10)
    case _ => true
  }

  lemma AboveIsNewest(tl: Timeline, g: Gauge, pf: FloatParser, threshold: real)
    requires Ascending(tl.observations) && SamplesAscend(tl.samples) && ReadsAbove(tl, g, pf, threshold)
    ensures NewestAbove(tl, g, pf, threshold)
  {
    var f :| IsReading(tl, g, pf, f) && f.value > threshold;
    ReadingIsNewest(tl, g, pf, f);
  }

  lemma BelowIsNewest(tl: Timeline, g: Gauge, pf: FloatParser, threshold: real)
    requires Ascending(tl.observations) && SamplesAscend(tl.samples) && ReadsBelow(tl, g, pf, threshold)
    ensures NewestBelow(tl, g, pf, threshold)
  {
    var f :| IsReading(tl, g, pf, f) && f.value < threshold;
    ReadingIsNewest(tl, g, pf, f);
  }

  lemma FoundIsNewest(r: RuleId, c: Cause, k: Confidence, tl: Timeline, cfg: Config, pf: FloatParser)
    requires Ascending(tl.observations) && SamplesAscend(tl.samples) && Finds(r, c, k, tl, cfg, pf)
    ensures NewestGrounds(c, tl, cfg, pf)
  {
    match c
    case P2PDegraded => BelowIsNewest(tl, PeerGauge, pf, cfg.peerCountMin);
    case HostDiskIO => AboveIsNewest(tl, IO_WAIT, pf, cfg.ioWaitPct);
    case HostCPUSteal => AboveIsNewest(tl, CPU_STEAL, pf, cfg.cpuStealPct);
    case HostMemoryPressure => AboveIsNewest(tl, MEMORY_PRESSURE, pf, cfg.psiMemAvg10);
    case _ =>
  }

  /** On every timeline the assembler builds, a cause Analyze names that rests on a reading rests on the
      newest: no readable observation (or, without one, no sample) of it is later. */
  lemma BuiltBlameIsNewest(s: State, slot: Slot, slotStart: Instant, order: seq<Slot>, cfg: Config, pf: FloatParser)
    requires Built(s, slot, slotStart, order, pf).Some?
    requires Analyze(Built(s, slot, slotStart, order, pf).value, cfg, pf).cause.Some?
    ensures var t := Built(s, slot, slotStart, order, pf).value;
            NewestGrounds(Analyze(t, cfg, pf).cause.value, t, cfg, pf)
  {
    var t := Built(s, slot, slotStart, order, pf).value;
    var v := Analyze(t, cfg, pf);
    BuiltAscends(s, slot, slotStart, order, pf);
    CauseNamedIff(v.cause.value, v.confidence, t, cfg, pf);
    if !EarnedNothing(t) {
      var r: RuleId :| FirstToFind(r, v.cause.value, v.confidence, t, cfg, pf);
      FoundIsNewest(r, v.cause.value, v.confidence, t, cfg, pf);
    }
  }
}
