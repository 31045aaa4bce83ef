/** The timeline assembler (internal/timeline/assembler.go).  Arrival order never shows in what it
    builds, except where the reorg list depends on Go's map iteration order; exactly when that
    happens is stated by ReorgsDeterministicIff. */
module Assembly {
  import opened Text
  import opened Sorting
  import opened Domain
  import opened RecordOrder

  datatype State = State(
    schedule: Schedule, duties: map<Slot, Duty>, observations: map<Slot, seq<Observation>>,
    samples: seq<Sample>, networks: map<Slot, Baseline>)

  datatype Call = AddObservation(o: Observation) | AddSample(m: Sample) | SetDuty(d: Duty) | SetNetwork(n: Baseline)

  function Empty(schedule: Schedule): State {
    State(schedule, map[], map[], [], map[])
  }

  function Filed(s: State, slot: Slot): seq<Observation> {
    if slot in s.observations then s.observations[slot] else []
  }

  function Apply(s: State, c: Call): State {
    match c
    case AddObservation(o) => s.(observations := s.observations[o.slot := Filed(s, o.slot) + [o]])
    case AddSample(m) => s.(samples := s.samples + [m])
    case SetDuty(d) => s.(duties := s.duties[d.slot := d])
    case SetNetwork(n) => s.(networks := s.networks[n.slot := n])
  }

  /** The state after a run of calls. */
  function Run(s: State, calls: seq<Call>): State {
    if calls == [] then s else Apply(Run(s, calls[..|calls| - 1]), calls[|calls| - 1])
  }

  // ------------------------------------------------------------------ Build

  function OnlyReorgs(obs: seq<Observation>): seq<Observation> {
    if obs == [] then [] else (if obs[0].kind == Reorg then [obs[0]] else []) + OnlyReorgs(obs[1..])
  }

  predicate InWindow(slot: Slot, k: Slot) {
    slot < k <= LastAttestationInclusionSlot(slot)
  }

  function SlotReorgs(m: map<Slot, seq<Observation>>, k: Slot, slot: Slot): seq<Observation> {
    if k in m && InWindow(slot, k) then OnlyReorgs(m[k]) else []
  }

  /** Reorgs of the inclusion window, slot by slot in the order the map happened to be walked. */
  function WindowReorgs(m: map<Slot, seq<Observation>>, order: seq<Slot>, slot: Slot): seq<Observation> {
    if order == [] then [] else SlotReorgs(m, order[0], slot) + WindowReorgs(m, order[1..], slot)
  }

  predicate Distinct(order: seq<Slot>) {
    forall i, j | 0 <= i < j < |order| :: order[i] != order[j]
  }

  ghost predicate Enumerates(order: seq<Slot>, keys: set<Slot>) {
    (forall k :: k in order <==> k in keys) && Distinct(order)
  }

  function Lookup<V>(m: map<Slot, V>, k: Slot): Option<V> {
    if k in m then Some(m[k]) else None
  }

  function Draft(s: State, slot: Slot, slotStart: Instant, order: seq<Slot>): Timeline {
    var obs := Sort(ObservationLess, Filed(s, slot));
    Timeline(slot, slotStart, s.schedule, Lookup(s.duties, slot), obs,
             Sort(ObservationLess, WindowReorgs(s.observations, order, slot)),
             Sort(SampleLess, s.samples), Lookup(s.networks, slot),
             FirstOf(obs, CollectionCompleted).Some?)
  }

  /** What Build returns: the drafted timeline if it validates, an error otherwise. */
  function Built(s: State, slot: Slot, slotStart: Instant, order: seq<Slot>, pf: FloatParser): Option<Timeline> {
    var t := Draft(s, slot, slotStart, order);
    if TimelineValid(t, pf) then Some(t) else None
  }

  lemma {:induction false} WindowReorgsAppend(m: map<Slot, seq<Observation>>, a: seq<Slot>, b: seq<Slot>, slot: Slot)
    ensures WindowReorgs(m, a + b, slot) == WindowReorgs(m, a, slot) + WindowReorgs(m, b, slot)
  {
    if a == [] {
      assert a + b == b;
    } else {
      assert (a + b)[1..] == a[1..] + b;
      WindowReorgsAppend(m, a[1..], b, slot);
    }
  }

  lemma WindowReorgsOne(m: map<Slot, seq<Observation>>, k: Slot, slot: Slot)
    ensures WindowReorgs(m, [k], slot) == SlotReorgs(m, k, slot)
  {
    assert [k][1..] == [];
  }

  lemma WindowReorgsStep(m: map<Slot, seq<Observation>>, order: seq<Slot>, slot: Slot, i: nat)
    requires i < |order|
    ensures WindowReorgs(m, order[..i + 1], slot) == WindowReorgs(m, order[..i], slot) + SlotReorgs(m, order[i], slot)
  {
    assert order[..i + 1] == order[..i] + [order[i]];
    WindowReorgsAppend(m, order[..i], [order[i]], slot);
    WindowReorgsOne(m, order[i], slot);
  }

  /** The inner loop of Build: one slot's reorgs, appended in arrival order. */
  method AppendReorgs(before: seq<Observation>, filed: seq<Observation>) returns (reorgs: seq<Observation>)
    ensures reorgs == before + OnlyReorgs(filed)
  {
    reorgs := before;
    for j := 0 to |filed|
      invariant reorgs + OnlyReorgs(filed[j..]) == before + OnlyReorgs(filed)
    {
      assert filed[j..][1..] == filed[j + 1..];
      if filed[j].kind == Reorg { reorgs := reorgs + [filed[j]]; }
    }
  }

  /** The last loop of Build. */
  method HasCompletion(obs: seq<Observation>) returns (complete: bool)
    ensures complete <==> FirstOf(obs, CollectionCompleted).Some?
  {
    complete := false;
    for i := 0 to |obs|
      invariant !complete && forall j | 0 <= j < i :: obs[j].kind != CollectionCompleted
    {
      if obs[i].kind == CollectionCompleted { complete := true; break; }
    }
  }

  /** The assembler object.  `order` is the order in which the runtime walks the observation map. */
  class Assembler {
    var schedule: Schedule
    var duties: map<Slot, Duty>
    var observations: map<Slot, seq<Observation>>
    var samples: seq<Sample>
    var networks: map<Slot, Baseline>

    function Contents(): State
      reads this
    {
      State(schedule, duties, observations, samples, networks)
    }

    constructor (schedule: Schedule)
      ensures Contents() == Empty(schedule)
    {
      this.schedule := schedule;
      duties, observations, samples, networks := map[], map[], [], map[];
    }

    method SetNetwork(baseline: Baseline)
      modifies this
      ensures Contents() == Apply(old(Contents()), Call.SetNetwork(baseline))
    {
      networks := networks[baseline.slot := baseline];
    }

    method AddObservation(o: Observation)
      modifies this
      ensures Contents() == Apply(old(Contents()), Call.AddObservation(o))
    {
      var filed := if o.slot in observations then observations[o.slot] else [];
      observations := observations[o.slot := filed + [o]];
    }

    method AddSample(m: Sample)
      modifies this
      ensures Contents() == Apply(old(Contents()), Call.AddSample(m))
    {
      samples := samples + [m];
    }

    method SetDuty(d: Duty)
      modifies this
      ensures Contents() == Apply(old(Contents()), Call.SetDuty(d))
    {
      duties := duties[d.slot := d];
    }

    /** The map walk of Build. */
    method CollectReorgs(slot: Slot, order: seq<Slot>) returns (reorgs: seq<Observation>)
      requires Enumerates(order, observations.Keys)
      ensures reorgs == WindowReorgs(observations, order, slot)
    {
      reorgs := [];
      for i := 0 to |order|
        invariant reorgs == WindowReorgs(observations, order[..i], slot)
      {
        WindowReorgsStep(observations, order, slot, i);
        var k := order[i];
        assert k in order;
        if InWindow(slot, k) { reorgs := AppendReorgs(reorgs, observations[k]); }
      }
      assert order[..|order|] == order;
    }

    method Build(slot: Slot, slotStart: Instant, order: seq<Slot>, pf: FloatParser) returns (r: Option<Timeline>)
      requires Enumerates(order, observations.Keys)
      ensures r == Built(Contents(), slot, slotStart, order, pf)
    {
      var obs := Sort(ObservationLess, if slot in observations then observations[slot] else []);
      var reorgs := CollectReorgs(slot, order);
      reorgs := Sort(ObservationLess, reorgs);
      var sorted := Sort(SampleLess, samples);
      var duty := if slot in duties then Some(duties[slot]) else None;
      var network := if slot in networks then Some(networks[slot]) else None;
      var complete := HasCompletion(obs);
      var t := Timeline(slot, slotStart, schedule, duty, obs, reorgs, sorted, network, complete);
      assert t == Draft(Contents(), slot, slotStart, order);
      var ok := Validate(t, pf);
      r := if ok then Some(t) else None;
    }
  }

  // --------------------------------------------- what a run of calls leaves

  function ObservationsOf(calls: seq<Call>): seq<Observation> {
    if calls == [] then []
    else
      var c := calls[|calls| - 1];
      ObservationsOf(calls[..|calls| - 1]) + (if c.AddObservation? then [c.o] else [])
  }

  function SamplesOf(calls: seq<Call>): seq<Sample> {
    if calls == [] then []
    else
      var c := calls[|calls| - 1];
      SamplesOf(calls[..|calls| - 1]) + (if c.AddSample? then [c.m] else [])
  }

  /** The overwriting calls, in order: the only ones whose order is allowed to matter. */
  function SetsOf(calls: seq<Call>): seq<Call> {
    if calls == [] then []
    else
      var c := calls[|calls| - 1];
      SetsOf(calls[..|calls| - 1]) + (if c.SetDuty? || c.SetNetwork? then [c] else [])
  }

  function OfSlot(obs: seq<Observation>, slot: Slot): seq<Observation> {
    if obs == [] then []
    else
      var o := obs[|obs| - 1];
      OfSlot(obs[..|obs| - 1], slot) + (if o.slot == slot then [o] else [])
  }

  lemma RunAppend(s: State, calls: seq<Call>, c: Call)
    ensures Run(s, calls + [c]) == Apply(Run(s, calls), c)
  {
    assert (calls + [c])[..|calls|] == calls;
  }

  lemma ObservationsOfLast(calls: seq<Call>, slot: Slot)
    requires calls != []
    ensures var c := calls[|calls| - 1];
            OfSlot(ObservationsOf(calls), slot) == OfSlot(ObservationsOf(calls[..|calls| - 1]), slot) +
              (if c.AddObservation? && c.o.slot == slot then [c.o] else [])
  {
    var c, before := calls[|calls| - 1], ObservationsOf(calls[..|calls| - 1]);
    if !c.AddObservation? { assert ObservationsOf(calls) == before; }
  }

  lemma {:induction false} RunFiles(schedule: Schedule, calls: seq<Call>, slot: Slot)
    ensures Filed(Run(Empty(schedule), calls), slot) == OfSlot(ObservationsOf(calls), slot)
    ensures slot in Run(Empty(schedule), calls).observations <==> OfSlot(ObservationsOf(calls), slot) != []
  {
    if calls != [] {
      var n := |calls| - 1;
      RunFiles(schedule, calls[..n], slot);
      ObservationsOfLast(calls, slot);
    }
  }

  lemma {:induction false} RunSamples(schedule: Schedule, calls: seq<Call>)
    ensures Run(Empty(schedule), calls).samples == SamplesOf(calls)
    ensures Run(Empty(schedule), calls).schedule == schedule
  {
    if calls != [] { RunSamples(schedule, calls[..|calls| - 1]); }
  }

  /** Duties and baselines depend on the overwriting calls alone. */
  lemma {:induction false} RunSets(schedule: Schedule, calls: seq<Call>)
    ensures Run(Empty(schedule), calls).duties == Run(Empty(schedule), SetsOf(calls)).duties
    ensures Run(Empty(schedule), calls).networks == Run(Empty(schedule), SetsOf(calls)).networks
  {
    if calls != [] {
      var n := |calls| - 1;
      RunSets(schedule, calls[..n]);
      if calls[n].SetDuty? || calls[n].SetNetwork? {
        RunAppend(Empty(schedule), SetsOf(calls[..n]), calls[n]);
      } else {
        assert SetsOf(calls) == SetsOf(calls[..n]);
      }
    }
  }

  /** Every record sits under its own slot. */
  ghost predicate WellFiled(s: State) {
    && (forall k, o | k in s.observations && o in s.observations[k] :: o.slot == k)
    && (forall k | k in s.duties :: s.duties[k].slot == k)
    && (forall k | k in s.networks :: s.networks[k].slot == k)
  }

  lemma {:induction false} RunWellFiled(schedule: Schedule, calls: seq<Call>)
    ensures WellFiled(Run(Empty(schedule), calls))
  {
    if calls != [] { RunWellFiled(schedule, calls[..|calls| - 1]); }
  }

  // ---------------------------------------------------- counting by multiset

  lemma {:induction false} OfSlotCount(obs: seq<Observation>, slot: Slot, x: Observation)
    ensures multiset(OfSlot(obs, slot))[x] == if x.slot == slot then multiset(obs)[x] else 0
  {
    if obs != [] {
      var n := |obs| - 1;
      OfSlotCount(obs[..n], slot, x);
      assert obs == obs[..n] + [obs[n]];
    }
  }

  lemma SameFiled(a: seq<Observation>, b: seq<Observation>, slot: Slot)
    requires multiset(a) == multiset(b)
    ensures multiset(OfSlot(a, slot)) == multiset(OfSlot(b, slot))
  {
    forall x ensures multiset(OfSlot(a, slot))[x] == multiset(OfSlot(b, slot))[x] {
      OfSlotCount(a, slot, x);
      OfSlotCount(b, slot, x);
    }
  }

  lemma {:induction false} OnlyReorgsCount(obs: seq<Observation>, x: Observation)
    ensures multiset(OnlyReorgs(obs))[x] == if x.kind == Reorg then multiset(obs)[x] else 0
  {
    if obs != [] {
      OnlyReorgsCount(obs[1..], x);
      assert obs == [obs[0]] + obs[1..];
    }
  }

  lemma SlotReorgsCount(m: map<Slot, seq<Observation>>, k: Slot, slot: Slot, x: Observation)
    requires forall o | k in m && o in m[k] :: o.slot == k
    ensures multiset(SlotReorgs(m, k, slot))[x] ==
            if x.slot == k && k in m && x.kind == Reorg && InWindow(slot, k) then multiset(m[k])[x] else 0
  {
    if k in m {
      OnlyReorgsCount(m[k], x);
      if x.slot != k { assert x !in m[k]; }
    }
  }

  lemma {:induction false} WindowReorgsCount(s: State, order: seq<Slot>, slot: Slot, x: Observation)
    requires WellFiled(s) && Distinct(order)
    ensures multiset(WindowReorgs(s.observations, order, slot))[x] ==
            if x.slot in order && x.kind == Reorg && InWindow(slot, x.slot) then multiset(Filed(s, x.slot))[x] else 0
  {
    if order != [] {
      WindowReorgsCount(s, order[1..], slot, x);
      SlotReorgsCount(s.observations, order[0], slot, x);
    }
  }
}
