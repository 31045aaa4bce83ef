/** What R-011's silence proves (internal/rca/rules/r011_clock_trust.go). */
module ClockTrustTheorems {
  import opened Text
  import opened Domain
  import opened Verdicts
  import opened Rules

  /** At most the bound either way; at the int64 maximum everything is. */
  predicate Within(d: int, bound: int) {
    bound == MAX_INT64 || -bound <= d <= bound
  }

  /** Measured, fresh, and within the trust threshold. */
  predicate Trusted(cfg: Config, measured: bool, at: Instant, sampleAt: Instant, offset: Duration) {
    && measured && 0 < cfg.clockSampleMaxAge && Within(at - sampleAt, cfg.clockSampleMaxAge)
    && Within(offset, cfg.clockOffsetMax)
  }

  /** The kinds whose instant the local clock decides. */
  predicate ClockBearing(kind: Kind) {
    || kind == BlockSeen || kind == HeadUpdated || kind == AttestationPublished || kind == AttestationIncluded
    || kind == BlockProposed || kind == Reorg || kind == PeerCountSampled || kind == EngineCall
    || kind == HostSampled || kind == PayloadAttested
  }

  predicate ObsTrusted(cfg: Config, o: Observation) {
    Trusted(cfg, o.clockMeasured, o.at, o.clockSampleAt, o.clockOffset)
  }

  predicate SampleTrusted(cfg: Config, m: Sample) {
    Trusted(cfg, m.clockMeasured, m.at, m.clockSampleAt, m.clockOffset)
  }

  /** Sample i is the newest non-derived one of its metric; the first of those at that instant. */
  predicate IsNewest(samples: seq<Sample>, i: int)
    requires 0 <= i < |samples|
  {
    samples[i].source != Derived &&
    forall j | 0 <= j < |samples| && samples[j].source != Derived
               && SameMetric(samples[j], samples[i]) ::
      samples[j].at < samples[i].at || (samples[j].at == samples[i].at && i <= j)
  }

  /** Every clock-bearing observation and the newest reading of every metric can be trusted. */
  predicate ClockTrusted(tl: Timeline, cfg: Config) {
    && (forall o | o in tl.observations && ClockBearing(o.kind) :: ObsTrusted(cfg, o))
    && NewestTrusted(tl.samples, cfg)
  }

  /** A measured reading names the instant of its sample, as validated observations and samples do. */
  predicate Provenance(tl: Timeline) {
    && (forall o | o in tl.observations && o.clockMeasured :: o.clockSampleAt != 0)
    && (forall m | m in tl.samples && m.clockMeasured :: m.clockSampleAt != 0)
  }

  /** R-011 would stay silent on what was seen so far. */
  predicate Quiet(cfg: Config, scan: ClockScan) {
    scan.Go? && (scan.worst.at == 0 || scan.worst.offset <= cfg.clockOffsetMax)
  }

  lemma {:induction false} ScanObsMeaning(tl: Timeline, cfg: Config, obs: seq<Observation>, w: Worst)
    requires forall o | o in obs && o.clockMeasured :: o.clockSampleAt != 0
    ensures Quiet(cfg, ScanObs(tl, cfg, obs, w)) <==>
            Quiet(cfg, Go(w)) && forall o | o in obs && ClockBearing(o.kind) :: ObsTrusted(cfg, o)
  {
    if obs != [] {
      var o := obs[0];
      assert forall x :: x in obs <==> x == o || x in obs[1..];
      if !RequiresClockTrust(o.kind) {
        ScanObsMeaning(tl, cfg, obs[1..], w);
      } else {
        var r := Reading(tl, cfg, o.clockMeasured, o.at, o.clockSampleAt, o.clockOffset, w);
        if r.Go? { ScanObsMeaning(tl, cfg, obs[1..], r.worst); }
      }
    }
  }

  lemma {:induction false} ScanKeysMeaning(tl: Timeline, cfg: Config, keys: seq<string>, latest: map<string, Sample>,
                                           w: Worst)
    requires forall k | k in keys :: k in latest && (latest[k].clockMeasured ==> latest[k].clockSampleAt != 0)
    ensures Quiet(cfg, ScanKeys(tl, cfg, keys, latest, w)) <==>
            Quiet(cfg, Go(w)) && forall k | k in keys :: SampleTrusted(cfg, latest[k])
  {
    if keys != [] {
      var m := latest[keys[0]];
      assert forall x :: x in keys <==> x == keys[0] || x in keys[1..];
      var r := Reading(tl, cfg, m.clockMeasured, m.at, m.clockSampleAt, m.clockOffset, w);
      if r.Go? { ScanKeysMeaning(tl, cfg, keys[1..], latest, r.worst); }
    }
  }

  predicate SameMetric(a: Sample, b: Sample) {
    a.component == b.component && a.name == b.name
  }

  /** The map key tells metrics apart: no component name contains the separator. */
  lemma SampleKeyInjective(a: Sample, b: Sample)
    ensures SampleKey(a) == SampleKey(b) <==> SameMetric(a, b)
  {
    var ka, kb := SampleKey(a), SampleKey(b);
    if ka == kb {
      var na, nb := |ComponentName(a.component)|, |ComponentName(b.component)|;
      assert ka[0] == ComponentName(a.component)[0] && kb[0] == ComponentName(b.component)[0];
      assert a.component == b.component;
      assert ka[na + 1..] == a.name && kb[nb + 1..] == b.name;
    }
  }

  ghost predicate NamesMetrics(key: Sample -> string) {
    forall a, b :: key(a) == key(b) <==> SameMetric(a, b)
  }

  lemma SampleKeyNamesMetrics()
    ensures NamesMetrics(SampleKey)
  {
    forall a, b ensures SampleKey(a) == SampleKey(b) <==> SameMetric(a, b) {
      SampleKeyInjective(a, b);
    }
  }

  /** Every key of the map stands for a newest sample. */
  ghost predicate KeysAreNewest(samples: seq<Sample>, key: Sample -> string) {
    forall k | k in LatestBy(samples, key) ::
      exists i | 0 <= i < |samples| :: IsNewest(samples, i) && key(samples[i]) == k
  }

  /** Every newest sample is in the map under its key. */
  predicate NewestAreMapped(samples: seq<Sample>, key: Sample -> string) {
    forall i | 0 <= i < |samples| && IsNewest(samples, i) ::
      key(samples[i]) in LatestBy(samples, key) && LatestBy(samples, key)[key(samples[i])] == samples[i]
  }

  /** Latest, as built by the loop, maps each metric's key to its newest sample. */
  lemma {:induction false} LatestIsNewest(samples: seq<Sample>, key: Sample -> string)
    requires NamesMetrics(key)
    ensures NewestAreMapped(samples, key) && KeysAreNewest(samples, key)
    decreases |samples|
  {
    if samples != [] {
      LatestIsNewest(samples[..|samples| - 1], key);
      forall i | 0 <= i < |samples| && IsNewest(samples, i)
        ensures key(samples[i]) in LatestBy(samples, key) && LatestBy(samples, key)[key(samples[i])] == samples[i]
      {
        if i < |samples| - 1 { NewestKept(samples, key, i); }
      }
      KeysStayNewest(samples, key);
    }
  }

  lemma KeysStayNewest(samples: seq<Sample>, key: Sample -> string)
    requires NamesMetrics(key) && samples != []
    requires NewestAreMapped(samples[..|samples| - 1], key) && KeysAreNewest(samples[..|samples| - 1], key)
    ensures KeysAreNewest(samples, key)
  {
    var n := |samples| - 1;
    var before, m := samples[..n], samples[n];
    var latest := LatestBy(before, key);
    forall k | k in LatestBy(samples, key)
      ensures exists i | 0 <= i < |samples| :: IsNewest(samples, i) && key(samples[i]) == k {
      if m.source != Derived && k == key(m) && !(k in latest && m.at <= latest[k].at) {
        NewestLast(samples, key);
      } else {
        var i :| 0 <= i < n && IsNewest(before, i) && key(before[i]) == k;
        NewestStays(samples, key, i);
      }
    }
  }

  lemma NewestLast(samples: seq<Sample>, key: Sample -> string)
    requires NamesMetrics(key) && samples != [] && samples[|samples| - 1].source != Derived
    requires NewestAreMapped(samples[..|samples| - 1], key)
    requires var m, latest := samples[|samples| - 1], LatestBy(samples[..|samples| - 1], key);
             !(key(m) in latest && m.at <= latest[key(m)].at)
    ensures IsNewest(samples, |samples| - 1)
  {
    var n := |samples| - 1;
    var before := samples[..n];
    forall j | 0 <= j < n && samples[j].source != Derived && SameMetric(samples[j], samples[n])
      ensures samples[j].at < samples[n].at
    {
      assert before[j] == samples[j];
      var i := NewestOf(before, j);
      assert key(before[i]) == key(samples[n]);
    }
  }

  /** Every non-derived sample is dominated by a newest one of its metric. */
  lemma {:induction false} NewestOf(samples: seq<Sample>, j: nat) returns (i: nat)
    requires j < |samples| && samples[j].source != Derived
    ensures i < |samples| && IsNewest(samples, i) && SameMetric(samples[i], samples[j]) &&
            samples[j].at <= samples[i].at
  {
    i := j;
    for k := 0 to |samples|
      invariant i < |samples| && samples[i].source != Derived
      invariant SameMetric(samples[i], samples[j]) && samples[j].at <= samples[i].at
      invariant forall x | 0 <= x < k && samples[x].source != Derived && SameMetric(samples[x], samples[i]) ::
                  samples[x].at < samples[i].at || (samples[x].at == samples[i].at && i <= x)
    {
      var m := samples[k];
      if m.source != Derived && SameMetric(m, samples[i])
         && (m.at > samples[i].at || (m.at == samples[i].at && k < i)) {
        i := k;
      }
    }
  }

  lemma NewestStays(samples: seq<Sample>, key: Sample -> string, i: nat)
    requires NamesMetrics(key) && samples != [] && i < |samples| - 1 && IsNewest(samples[..|samples| - 1], i)
    requires var m := samples[|samples| - 1];
             m.source == Derived || key(m) != key(samples[i]) || m.at <= samples[i].at
    ensures IsNewest(samples, i)
  {
    var before := samples[..|samples| - 1];
    assert before[i] == samples[i];
    forall j | 0 <= j < |samples| && samples[j].source != Derived && SameMetric(samples[j], samples[i])
      ensures samples[j].at < samples[i].at || (samples[j].at == samples[i].at && i <= j)
    {
      if j < |before| { assert before[j] == samples[j]; }
    }
  }

  lemma NewestInPrefix(samples: seq<Sample>, i: nat)
    requires i < |samples| - 1 && IsNewest(samples, i)
    ensures IsNewest(samples[..|samples| - 1], i)
  {
    var before := samples[..|samples| - 1];
    assert forall j | 0 <= j < |before| :: before[j] == samples[j];
  }

  lemma NewestKept(samples: seq<Sample>, key: Sample -> string, i: nat)
    requires NamesMetrics(key) && i < |samples| - 1 && IsNewest(samples, i) &&
             NewestAreMapped(samples[..|samples| - 1], key)
    ensures key(samples[i]) in LatestBy(samples, key) && LatestBy(samples, key)[key(samples[i])] == samples[i]
  {
    var n := |samples| - 1;
    var before, m := samples[..n], samples[n];
    NewestInPrefix(samples, i);
    assert before[i] == samples[i];
    if m.source != Derived && key(m) == key(samples[i]) {
      assert SameMetric(m, samples[i]);
    }
  }

  lemma LatestEntry(samples: seq<Sample>, k: string) returns (i: nat)
    requires k in Latest(samples)
    ensures i < |samples| && IsNewest(samples, i) && Latest(samples)[k] == samples[i]
  {
    SampleKeyNamesMetrics();
    LatestIsNewest(samples, SampleKey);
    i :| 0 <= i < |samples| && IsNewest(samples, i) && SampleKey(samples[i]) == k;
  }

  lemma NewestListed(samples: seq<Sample>, i: nat)
    requires i < |samples| && IsNewest(samples, i)
    ensures SampleKey(samples[i]) in Latest(samples) && Latest(samples)[SampleKey(samples[i])] == samples[i]
  {
    SampleKeyNamesMetrics();
    LatestIsNewest(samples, SampleKey);
  }

  lemma LatestListed(samples: seq<Sample>)
    ensures forall k | k in Latest(samples) :: Latest(samples)[k] in samples
  {
    forall k | k in Latest(samples) ensures Latest(samples)[k] in samples {
      var i := LatestEntry(samples, k);
    }
  }

  predicate NewestTrusted(samples: seq<Sample>, cfg: Config) {
    forall i | 0 <= i < |samples| && IsNewest(samples, i) :: SampleTrusted(cfg, samples[i])
  }

  lemma LatestTrusted(samples: seq<Sample>, cfg: Config)
    ensures (forall k | k in Latest(samples) :: SampleTrusted(cfg, Latest(samples)[k])) <==> NewestTrusted(samples, cfg)
  {
    var latest := Latest(samples);
    if NewestTrusted(samples, cfg) {
      forall k | k in latest ensures SampleTrusted(cfg, latest[k]) {
        var i := LatestEntry(samples, k);
      }
    } else {
      var i :| 0 <= i < |samples| && IsNewest(samples, i) && !SampleTrusted(cfg, samples[i]);
      NewestListed(samples, i);
    }
  }

  /** R-011 is silent exactly when every reading it looks at can be trusted. */
  lemma ClockTrustSilent(tl: Timeline, cfg: Config)
    requires Provenance(tl)
    ensures ClockTrust(tl, cfg).None? <==> ClockTrusted(tl, cfg)
  {
    ScanObsMeaning(tl, cfg, tl.observations, Worst(0, 0));
    LatestTrusted(tl.samples, cfg);
    LatestListed(tl.samples);
    var first := ScanObs(tl, cfg, tl.observations, Worst(0, 0));
    var latest := Latest(tl.samples);
    var keys := SortedKeys(latest.Keys);
    if first.Go? {
      ScanKeysMeaning(tl, cfg, keys, latest, first.worst);
    }
  }

  lemma {:induction false} ScanObsStops(tl: Timeline, cfg: Config, obs: seq<Observation>, w: Worst)
    requires ScanObs(tl, cfg, obs, w).Stop? && tl.slotStart != 0
    ensures var d := ScanObs(tl, cfg, obs, w).draft;
            DraftWellFormed(d) && d.cause == Some(Cause.InsufficientData) && d.confidence == Low
  {
    var o := obs[0];
    if !RequiresClockTrust(o.kind) {
      ScanObsStops(tl, cfg, obs[1..], w);
    } else {
      var r := Reading(tl, cfg, o.clockMeasured, o.at, o.clockSampleAt, o.clockOffset, w);
      if r.Go? { ScanObsStops(tl, cfg, obs[1..], r.worst); }
    }
  }

  lemma {:induction false} ScanKeysStops(tl: Timeline, cfg: Config, keys: seq<string>, latest: map<string, Sample>,
                                         w: Worst)
    requires forall k | k in keys :: k in latest
    requires ScanKeys(tl, cfg, keys, latest, w).Stop? && tl.slotStart != 0
    ensures var d := ScanKeys(tl, cfg, keys, latest, w).draft;
            DraftWellFormed(d) && d.cause == Some(Cause.InsufficientData) && d.confidence == Low
  {
    var m := latest[keys[0]];
    var r := Reading(tl, cfg, m.clockMeasured, m.at, m.clockSampleAt, m.clockOffset, w);
    if r.Go? { ScanKeysStops(tl, cfg, keys[1..], latest, r.worst); }
  }

  /** When it speaks, R-011 says insufficient data or clock drift, with evidence fit to emit. */
  lemma ClockTrustSpeaks(tl: Timeline, cfg: Config)
    requires ClockTrust(tl, cfg).Some? && tl.slotStart != 0
    ensures var d := ClockTrust(tl, cfg).value;
            && DraftWellFormed(d)
            && ((d.cause == Some(Cause.InsufficientData) && d.confidence == Low) ||
                (d.cause == Some(Cause.HostClockDrift) && d.confidence == High))
  {
    var first := ScanObs(tl, cfg, tl.observations, Worst(0, 0));
    if first.Stop? {
      ScanObsStops(tl, cfg, tl.observations, Worst(0, 0));
    } else {
      var latest := Latest(tl.samples);
      var keys := SortedKeys(latest.Keys);
      var second := ScanKeys(tl, cfg, keys, latest, first.worst);
      if second.Stop? { ScanKeysStops(tl, cfg, keys, latest, first.worst); }
    }
  }

  /** ClockTrust.Evaluate as the source runs it: a pass over the observations, a pass that collects
      the newest sample per metric into a map, and a pass over the sorted keys. */
  method ClockTrustLoop(tl: Timeline, cfg: Config) returns (d: Option<Draft>)
    ensures d == ClockTrust(tl, cfg)
  {
    var w := Worst(0, 0);
    for i := 0 to |tl.observations|
      invariant ScanObs(tl, cfg, tl.observations[i..], w) == ScanObs(tl, cfg, tl.observations, Worst(0, 0))
    {
      var o := tl.observations[i];
      assert tl.observations[i..][1..] == tl.observations[i + 1..];
      if RequiresClockTrust(o.kind) {
        var r := Reading(tl, cfg, o.clockMeasured, o.at, o.clockSampleAt, o.clockOffset, w);
        if r.Stop? { return Some(r.draft); }
        w := r.worst;
      }
    }
    var latest: map<string, Sample> := map[];
    for i := 0 to |tl.samples|
      invariant latest == Latest(tl.samples[..i])
    {
      var m := tl.samples[i];
      assert tl.samples[..i + 1][..i] == tl.samples[..i];
      if m.source != Derived {
        var key := SampleKey(m);
        if key !in latest || m.at > latest[key].at { latest := latest[key := m]; }
      }
    }
    assert tl.samples[..|tl.samples|] == tl.samples;
    ghost var before := w;
    var keys := SortedKeys(latest.Keys);
    for i := 0 to |keys|
      invariant ScanKeys(tl, cfg, keys[i..], latest, w) == ScanKeys(tl, cfg, keys, latest, before)
    {
      var m := latest[keys[i]];
      assert keys[i..][1..] == keys[i + 1..];
      var r := Reading(tl, cfg, m.clockMeasured, m.at, m.clockSampleAt, m.clockOffset, w);
      if r.Stop? { return Some(r.draft); }
      w := r.worst;
    }
    d := ClockVerdict(cfg, Go(w));
  }
}
