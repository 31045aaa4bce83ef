/** What the assembler guarantees over every run of calls. */
module AssemblyTheorems {
  import opened Text
  import opened Sorting
  import opened Domain
  import opened RecordOrder
  import opened Assembly

  // ------------------------------------------- observations and samples

  lemma SameSlotSeparates(obs: seq<Observation>)
    requires forall a, b | a in obs && b in obs && SameButSlot(a, b) :: a.slot == b.slot
    ensures Separates(ObservationLess, obs)
  {
    forall a, b | a in obs && b in obs && !ObservationLess(a, b) && !ObservationLess(b, a) ensures a == b {
      ObservationTie(a, b);
    }
  }

  lemma SamplesSeparate(samples: seq<Sample>)
    ensures Separates(SampleLess, samples)
  {
    forall a, b | a in samples && b in samples && !SampleLess(a, b) && !SampleLess(b, a) ensures a == b {
      SampleTie(a, b);
    }
  }

  /** Two runs of calls made of the same additions, in any arrival order, with the overwriting calls
      in the same order. */
  predicate SameAdditions(xs: seq<Call>, ys: seq<Call>) {
    && multiset(ObservationsOf(xs)) == multiset(ObservationsOf(ys))
    && multiset(SamplesOf(xs)) == multiset(SamplesOf(ys))
    && SetsOf(xs) == SetsOf(ys)
  }

  lemma SameObservations(schedule: Schedule, xs: seq<Call>, ys: seq<Call>, slot: Slot)
    requires multiset(ObservationsOf(xs)) == multiset(ObservationsOf(ys))
    ensures var a, b := Run(Empty(schedule), xs), Run(Empty(schedule), ys);
            && multiset(Filed(a, slot)) == multiset(Filed(b, slot))
            && Sort(ObservationLess, Filed(a, slot)) == Sort(ObservationLess, Filed(b, slot))
            && (slot in a.observations <==> slot in b.observations)
  {
    var a, b := Run(Empty(schedule), xs), Run(Empty(schedule), ys);
    RunFiles(schedule, xs, slot);
    RunFiles(schedule, ys, slot);
    SameFiled(ObservationsOf(xs), ObservationsOf(ys), slot);
    RunWellFiled(schedule, xs);
    SameSlotSeparates(Filed(a, slot));
    ObservationOrder();
    SortForgetsArrangement(ObservationLess, Filed(a, slot), Filed(b, slot));
    assert |multiset(Filed(a, slot))| == |Filed(a, slot)| && |multiset(Filed(b, slot))| == |Filed(b, slot)|;
  }

  lemma SameSamples(schedule: Schedule, xs: seq<Call>, ys: seq<Call>)
    requires multiset(SamplesOf(xs)) == multiset(SamplesOf(ys))
    ensures Sort(SampleLess, Run(Empty(schedule), xs).samples) == Sort(SampleLess, Run(Empty(schedule), ys).samples)
  {
    RunSamples(schedule, xs);
    RunSamples(schedule, ys);
    SamplesSeparate(SamplesOf(xs));
    SampleOrder();
    SortForgetsArrangement(SampleLess, SamplesOf(xs), SamplesOf(ys));
  }

  // ---------------------------------------------------------------- reorgs

  predicate WindowReorg(s: State, slot: Slot, o: Observation) {
    o in Filed(s, o.slot) && o.kind == Reorg && InWindow(slot, o.slot)
  }

  /** No two reorgs of the window agree on every compared field while coming from different slots. */
  ghost predicate TiesStayInSlot(s: State, slot: Slot) {
    forall a, b | WindowReorg(s, slot, a) && WindowReorg(s, slot, b) && SameButSlot(a, b) :: a.slot == b.slot
  }

  lemma InMultiset<T>(s: seq<T>, x: T)
    ensures x in s <==> multiset(s)[x] > 0
  {
  }

  lemma ReorgMembers(s: State, order: seq<Slot>, slot: Slot)
    requires WellFiled(s) && Enumerates(order, s.observations.Keys)
    ensures forall x :: x in WindowReorgs(s.observations, order, slot) <==> WindowReorg(s, slot, x)
  {
    forall x ensures x in WindowReorgs(s.observations, order, slot) <==> WindowReorg(s, slot, x) {
      WindowReorgsCount(s, order, slot, x);
      InMultiset(WindowReorgs(s.observations, order, slot), x);
      InMultiset(Filed(s, x.slot), x);
    }
  }

  lemma ReorgMultisets(s: State, order: seq<Slot>, s': State, order': seq<Slot>, slot: Slot)
    requires WellFiled(s) && Enumerates(order, s.observations.Keys)
    requires WellFiled(s') && Enumerates(order', s'.observations.Keys)
    requires s.observations.Keys == s'.observations.Keys
    requires forall k :: multiset(Filed(s, k)) == multiset(Filed(s', k))
    ensures multiset(WindowReorgs(s.observations, order, slot)) == multiset(WindowReorgs(s'.observations, order', slot))
  {
    forall x
      ensures multiset(WindowReorgs(s.observations, order, slot))[x] ==
              multiset(WindowReorgs(s'.observations, order', slot))[x]
    {
      WindowReorgsCount(s, order, slot, x);
      WindowReorgsCount(s', order', slot, x);
      assert x.slot in order <==> x.slot in order';
    }
  }

  function Reorgs(s: State, order: seq<Slot>, slot: Slot): seq<Observation> {
    Sort(ObservationLess, WindowReorgs(s.observations, order, slot))
  }

  lemma ReorgsForgetOrder(s: State, order: seq<Slot>, s': State, order': seq<Slot>, slot: Slot)
    requires WellFiled(s) && Enumerates(order, s.observations.Keys)
    requires WellFiled(s') && Enumerates(order', s'.observations.Keys)
    requires s.observations.Keys == s'.observations.Keys
    requires forall k :: multiset(Filed(s, k)) == multiset(Filed(s', k))
    requires TiesStayInSlot(s, slot)
    ensures Reorgs(s, order, slot) == Reorgs(s', order', slot)
  {
    ReorgMultisets(s, order, s', order', slot);
    ReorgMembers(s, order, slot);
    SameSlotSeparates(WindowReorgs(s.observations, order, slot));
    ObservationOrder();
    SortForgetsArrangement(ObservationLess, WindowReorgs(s.observations, order, slot),
                           WindowReorgs(s'.observations, order', slot));
  }

  /** Arrival order never shows: any rearrangement of the additions, under any two walks of the map,
      builds the same timeline or the same refusal. */
  lemma ArrivalOrderIrrelevant(schedule: Schedule, xs: seq<Call>, ys: seq<Call>, slot: Slot, slotStart: Instant,
                               ox: seq<Slot>, oy: seq<Slot>, pf: FloatParser)
    requires SameAdditions(xs, ys)
    requires Enumerates(ox, Run(Empty(schedule), xs).observations.Keys)
    requires Enumerates(oy, Run(Empty(schedule), ys).observations.Keys)
    requires TiesStayInSlot(Run(Empty(schedule), xs), slot)
    ensures Built(Run(Empty(schedule), xs), slot, slotStart, ox, pf) ==
            Built(Run(Empty(schedule), ys), slot, slotStart, oy, pf)
  {
    var a, b := Run(Empty(schedule), xs), Run(Empty(schedule), ys);
    SameObservations(schedule, xs, ys, slot);
    SameSamples(schedule, xs, ys);
    SameTail(schedule, xs, ys);
    ReorgsForgetOrder(a, ox, b, oy, slot);
    assert Draft(a, slot, slotStart, ox) == Draft(b, slot, slotStart, oy);
  }

  lemma SameTail(schedule: Schedule, xs: seq<Call>, ys: seq<Call>)
    requires SameAdditions(xs, ys)
    ensures var a, b := Run(Empty(schedule), xs), Run(Empty(schedule), ys);
            && a.schedule == b.schedule && a.duties == b.duties && a.networks == b.networks
            && WellFiled(a) && WellFiled(b) && a.observations.Keys == b.observations.Keys
            && forall k :: multiset(Filed(a, k)) == multiset(Filed(b, k))
  {
    var a, b := Run(Empty(schedule), xs), Run(Empty(schedule), ys);
    RunSamples(schedule, xs);
    RunSamples(schedule, ys);
    RunSets(schedule, xs);
    RunSets(schedule, ys);
    RunWellFiled(schedule, xs);
    RunWellFiled(schedule, ys);
    forall k: Slot
      ensures multiset(Filed(a, k)) == multiset(Filed(b, k)) &&
              (k in a.observations.Keys <==> k in b.observations.Keys) {
      SameObservations(schedule, xs, ys, k);
    }
  }

  // ------------------------------------------ when reorgs are not determined

  lemma {:induction false} SomeOrder(keys: set<Slot>) returns (order: seq<Slot>)
    ensures Enumerates(order, keys)
    decreases |keys|
  {
    order := [];
    if keys != {} {
      var k :| k in keys;
      var rest := SomeOrder(keys - {k});
      order := [k] + rest;
      assert forall j :: j in order <==> j == k || j in rest;
    }
  }

  lemma {:induction false} TiesKeepMember(x: Observation, obs: seq<Observation>)
    requires x in obs && !ObservationLess(x, x)
    ensures Ties(ObservationLess, x, obs) != []
  {
    if obs[0] != x {
      assert obs == [obs[0]] + obs[1..];
      TiesKeepMember(x, obs[1..]);
    }
  }

  lemma {:induction false} TiesAreMembers(x: Observation, obs: seq<Observation>)
    ensures forall o | o in Ties(ObservationLess, x, obs) :: o in obs
  {
    if obs != [] { TiesAreMembers(x, obs[1..]); }
  }

  lemma {:induction false} SameTies(x: Observation, y: Observation, obs: seq<Observation>)
    requires SameButSlot(x, y)
    ensures Ties(ObservationLess, x, obs) == Ties(ObservationLess, y, obs)
  {
    if obs != [] {
      ObservationTie(obs[0], x);
      ObservationTie(obs[0], y);
      SameTies(x, y, obs[1..]);
    }
  }

  /** A walk that visits `a`'s slot first lists a record of that slot first among `a`'s ties. */
  lemma FirstTieComesFromFirstSlot(s: State, slot: Slot, a: Observation, rest: seq<Slot>)
    requires WellFiled(s) && WindowReorg(s, slot, a)
    ensures var t := Ties(ObservationLess, a, Reorgs(s, [a.slot] + rest, slot));
            t != [] && t[0].slot == a.slot
  {
    var m, all := s.observations, WindowReorgs(s.observations, [a.slot] + rest, slot);
    var own, others := SlotReorgs(m, a.slot, slot), WindowReorgs(m, rest, slot);
    WindowReorgsAppend(m, [a.slot], rest, slot);
    WindowReorgsOne(m, a.slot, slot);
    assert all == own + others;
    ObservationOrder();
    ObservationStrict(a, a, a);
    SortKeepsTies(ObservationLess, a, all);
    TiesOfConcat(ObservationLess, a, own, others);
    SlotReorgsCount(m, a.slot, slot, a);
    InMultiset(m[a.slot], a);
    InMultiset(own, a);
    TiesKeepMember(a, own);
    TiesAreMembers(a, own);
    var first := Ties(ObservationLess, a, own)[0];
    SlotReorgsCount(m, a.slot, slot, first);
    InMultiset(own, first);
  }

  lemma TwoFirst(keys: set<Slot>, j: Slot, k: Slot, rest: seq<Slot>)
    requires j in keys && k in keys && j != k && Enumerates(rest, keys - {j, k})
    ensures Enumerates([j] + ([k] + rest), keys)
  {
    var order := [j] + ([k] + rest);
    assert forall i | 2 <= i < |order| :: order[i] == rest[i - 2];
    assert forall x :: x in order <==> x == j || x == k || x in rest;
  }

  /** Two tied reorgs from different slots: some two walks of the map build different lists. */
  lemma TieAcrossSlotsShows(s: State, slot: Slot, a: Observation, b: Observation) returns (o1: seq<Slot>, o2: seq<Slot>)
    requires WellFiled(s) && WindowReorg(s, slot, a) && WindowReorg(s, slot, b)
    requires SameButSlot(a, b) && a.slot != b.slot
    ensures Enumerates(o1, s.observations.Keys) && Enumerates(o2, s.observations.Keys)
    ensures Reorgs(s, o1, slot) != Reorgs(s, o2, slot)
  {
    var rest := SomeOrder(s.observations.Keys - {a.slot, b.slot});
    o1, o2 := [a.slot] + ([b.slot] + rest), [b.slot] + ([a.slot] + rest);
    TwoFirst(s.observations.Keys, a.slot, b.slot, rest);
    TwoFirst(s.observations.Keys, b.slot, a.slot, rest);
    FirstTieComesFromFirstSlot(s, slot, a, [b.slot] + rest);
    FirstTieComesFromFirstSlot(s, slot, b, [a.slot] + rest);
    SameTies(a, b, Reorgs(s, o2, slot));
  }

  ghost predicate ReorgsDetermined(s: State, slot: Slot) {
    forall o1, o2 | Enumerates(o1, s.observations.Keys) && Enumerates(o2, s.observations.Keys) ::
      Reorgs(s, o1, slot) == Reorgs(s, o2, slot)
  }

  /** The reorg list is independent of map iteration order exactly when no two reorgs of the window
      tie across slots. */
  lemma ReorgsDeterministicIff(s: State, slot: Slot)
    requires WellFiled(s)
    ensures ReorgsDetermined(s, slot) <==> TiesStayInSlot(s, slot)
  {
    if TiesStayInSlot(s, slot) {
      forall o1, o2 | Enumerates(o1, s.observations.Keys) && Enumerates(o2, s.observations.Keys)
        ensures Reorgs(s, o1, slot) == Reorgs(s, o2, slot)
      {
        ReorgsForgetOrder(s, o1, s, o2, slot);
      }
    } else {
      var a, b :| WindowReorg(s, slot, a) && WindowReorg(s, slot, b) && SameButSlot(a, b) && a.slot != b.slot;
      var o1, o2 := TieAcrossSlotsShows(s, slot, a, b);
    }
  }

  lemma TwoCalls(s: State, a: Call, b: Call)
    ensures Run(s, [a, b]) == Apply(Apply(s, a), b)
  {
    var calls := [a, b];
    assert calls[..1] == [a] && calls[..1][..0] == [];
    assert Run(s, calls[..1]) == Apply(s, a);
  }

  /** It happens: one reorg reported for slot 1 and an identical one for slot 2, both in slot 0's window,
      and two walks of the map build different lists. */
  lemma TieOnRealCalls(schedule: Schedule)
    ensures !ReorgsDetermined(Run(Empty(schedule), [AddObservation(ReorgAt(1)), AddObservation(ReorgAt(2))]), 0)
  {
    var a, b := AddObservation(ReorgAt(1)), AddObservation(ReorgAt(2));
    TwoCalls(Empty(schedule), a, b);
    RunWellFiled(schedule, [a, b]);
    var s := Run(Empty(schedule), [a, b]);
    InclusionWindow(0);
    assert Filed(s, 1) == [ReorgAt(1)] && Filed(s, 2) == [ReorgAt(2)];
    assert WindowReorg(s, 0, ReorgAt(1)) && WindowReorg(s, 0, ReorgAt(2));
    ReorgsDeterministicIff(s, 0);
  }

  function ReorgAt(slot: Slot): Observation {
    Observation(slot, Reorg, 1_000, 0, false, 0, BeaconAPI, map[])
  }

  // -------------------------------------------------------- what Build refuses

  lemma {:induction false} CountConcat(a: seq<Observation>, b: seq<Observation>, kind: Kind)
    ensures Count(a + b, kind) == Count(a, kind) + Count(b, kind)
  {
    if b == [] {
      assert a + b == a;
    } else {
      assert (a + b)[..|a + b| - 1] == a + b[..|b| - 1];
      CountConcat(a, b[..|b| - 1], kind);
    }
  }

  lemma {:induction false} InsertCount(x: Observation, obs: seq<Observation>, kind: Kind)
    ensures Count(Insert(ObservationLess, x, obs), kind) == Count([x], kind) + Count(obs, kind)
  {
    if obs == [] || !ObservationLess(obs[0], x) {
      CountConcat([x], obs, kind);
    } else {
      InsertCount(x, obs[1..], kind);
      CountConcat([obs[0]], Insert(ObservationLess, x, obs[1..]), kind);
      CountConcat([obs[0]], obs[1..], kind);
      assert obs == [obs[0]] + obs[1..];
    }
  }

  lemma {:induction false} SortCount(obs: seq<Observation>, kind: Kind)
    ensures Count(Sort(ObservationLess, obs), kind) == Count(obs, kind)
  {
    if obs != [] {
      SortCount(obs[1..], kind);
      InsertCount(obs[0], Sort(ObservationLess, obs[1..]), kind);
      CountConcat([obs[0]], obs[1..], kind);
      assert obs == [obs[0]] + obs[1..];
    }
  }

  lemma SortMembers<T>(less: (T, T) -> bool, s: seq<T>)
    ensures forall x :: x in Sort(less, s) <==> x in s
  {
    SortMultiset(less, s);
    forall x ensures x in Sort(less, s) <==> x in s {
      InMultiset(Sort(less, s), x);
      InMultiset(s, x);
    }
  }

  lemma SortedAscends(obs: seq<Observation>)
    ensures Ascending(Sort(ObservationLess, obs))
  {
    ObservationOrder();
    SortSorted(ObservationLess, obs);
    var r := Sort(ObservationLess, obs);
    forall i, j | 0 <= i < j < |r| ensures r[i].at <= r[j].at {
      assert !ObservationLess(r[j], r[i]);
    }
  }

  /** The conditions on the records themselves, wherever and in whatever order they arrived. */
  ghost predicate Acceptable(s: State, slot: Slot, slotStart: Instant, pf: FloatParser) {
    && slotStart != 0
    && ScheduleValid(s.schedule)
    && (forall o | o in Filed(s, slot) :: ObservationValid(o, pf))
    && Count(Filed(s, slot), CollectionCompleted) <= 1
    && (slot in s.duties && s.duties[slot].kind == Attester ==>
          forall o | o in Filed(s, slot) && o.kind == CollectionCompleted ::
            CollectionWindowEnd(slot, slotStart, s.schedule.secondsPerSlot) <= o.at)
    && (forall m | m in s.samples :: SampleValid(m))
    && (forall o | WindowReorg(s, slot, o) :: ObservationValid(o, pf))
    && (slot in s.networks ==> BaselineValid(s.networks[slot]))
  }

  lemma DraftObservations(s: State, slot: Slot, slotStart: Instant, order: seq<Slot>, pf: FloatParser)
    requires WellFiled(s)
    ensures ObservationsValid(Draft(s, slot, slotStart, order).observations, slot, pf) <==>
            forall o | o in Filed(s, slot) :: ObservationValid(o, pf)
  {
    var filed := Filed(s, slot);
    SortMembers(ObservationLess, filed);
    SortedAscends(filed);
  }

  lemma DraftCompletion(s: State, slot: Slot, slotStart: Instant, order: seq<Slot>)
    ensures var t := Draft(s, slot, slotStart, order);
            && Count(t.observations, CollectionCompleted) == Count(Filed(s, slot), CollectionCompleted)
            && (t.collectionComplete <==> Count(t.observations, CollectionCompleted) > 0)
  {
    SortCount(Filed(s, slot), CollectionCompleted);
    CountSome(Sort(ObservationLess, Filed(s, slot)), CollectionCompleted);
  }

  lemma DraftWindow(s: State, slot: Slot, slotStart: Instant, order: seq<Slot>)
    ensures var t := Draft(s, slot, slotStart, order);
            WindowClosed(t) <==> forall o | o in Filed(s, slot) && o.kind == CollectionCompleted ::
              CollectionWindowEnd(slot, slotStart, s.schedule.secondsPerSlot) <= o.at
  {
    SortMembers(ObservationLess, Filed(s, slot));
    var t := Draft(s, slot, slotStart, order);
    var obs := t.observations;
    forall i | 0 <= i < |obs| ensures obs[i] in Filed(s, slot) {
      assert obs[i] in obs;
    }
    if WindowClosed(t) {
      forall o | o in Filed(s, slot) && o.kind == CollectionCompleted
        ensures CollectionWindowEnd(slot, slotStart, s.schedule.secondsPerSlot) <= o.at
      {
        var i :| 0 <= i < |obs| && obs[i] == o;
      }
    }
  }

  lemma DraftReorgs(s: State, slot: Slot, slotStart: Instant, order: seq<Slot>, pf: FloatParser)
    requires WellFiled(s) && Enumerates(order, s.observations.Keys)
    ensures ReorgsValid(Draft(s, slot, slotStart, order), pf) <==>
            forall o | WindowReorg(s, slot, o) :: ObservationValid(o, pf)
  {
    var w := WindowReorgs(s.observations, order, slot);
    var t := Draft(s, slot, slotStart, order);
    var r := t.reorgs;
    ReorgMembers(s, order, slot);
    SortMembers(ObservationLess, w);
    SortedAscends(w);
    forall i | 0 <= i < |r| ensures WindowReorg(s, slot, r[i]) {
      assert r[i] in r;
    }
    if ReorgsValid(t, pf) {
      forall o | WindowReorg(s, slot, o) ensures ObservationValid(o, pf) {
        var i :| 0 <= i < |r| && r[i] == o;
        assert ReorgValid(t, r[i], pf);
      }
    }
  }

  lemma DraftSamples(s: State, slot: Slot, slotStart: Instant, order: seq<Slot>)
    ensures var t := Draft(s, slot, slotStart, order);
            (forall i | 0 <= i < |t.samples| :: SampleValid(t.samples[i])) <==>
            forall m | m in s.samples :: SampleValid(m)
  {
    SortMembers(SampleLess, s.samples);
    var r := Draft(s, slot, slotStart, order).samples;
    forall i | 0 <= i < |r| ensures r[i] in s.samples {
      assert r[i] in r;
    }
    if forall i | 0 <= i < |r| :: SampleValid(r[i]) {
      forall m | m in s.samples ensures SampleValid(m) {
        var i :| 0 <= i < |r| && r[i] == m;
      }
    }
  }

  /** Build succeeds exactly when the records are acceptable one by one: sorting, filing and the
      completion flag already guarantee every other check of Timeline.Validate, for every map walk,
      ties or no ties. */
  lemma BuildSucceedsIff(s: State, slot: Slot, slotStart: Instant, order: seq<Slot>, pf: FloatParser)
    requires WellFiled(s) && Enumerates(order, s.observations.Keys)
    ensures Built(s, slot, slotStart, order, pf).Some? <==> Acceptable(s, slot, slotStart, pf)
  {
    DraftObservations(s, slot, slotStart, order, pf);
    DraftCompletion(s, slot, slotStart, order);
    DraftWindow(s, slot, slotStart, order);
    DraftReorgs(s, slot, slotStart, order, pf);
    DraftSamples(s, slot, slotStart, order);
  }

  // ------------------------------------------- what a built timeline holds

  lemma {:induction false} AddedCount(calls: seq<Call>, x: Observation)
    ensures multiset(ObservationsOf(calls))[x] == multiset(calls)[AddObservation(x)]
  {
    if calls != [] {
      var n := |calls| - 1;
      AddedCount(calls[..n], x);
      assert calls == calls[..n] + [calls[n]];
    }
  }

  lemma {:induction false} SampledCount(calls: seq<Call>, m: Sample)
    ensures multiset(SamplesOf(calls))[m] == multiset(calls)[AddSample(m)]
  {
    if calls != [] {
      var n := |calls| - 1;
      SampledCount(calls[..n], m);
      assert calls == calls[..n] + [calls[n]];
    }
  }

  predicate SetsDuty(c: Call, slot: Slot) {
    c.SetDuty? && c.d.slot == slot
  }

  predicate SetsNetwork(c: Call, slot: Slot) {
    c.SetNetwork? && c.n.slot == slot
  }

  /** Call i set this as the slot's duty, and no later call set another. */
  predicate LastDuty(calls: seq<Call>, slot: Slot, i: nat, d: Duty) {
    i < |calls| && calls[i] == SetDuty(d) && d.slot == slot && forall j | i < j < |calls| :: !SetsDuty(calls[j], slot)
  }

  predicate LastNetwork(calls: seq<Call>, slot: Slot, i: nat, n: Baseline) {
    && i < |calls| && calls[i] == SetNetwork(n) && n.slot == slot
    && forall j | i < j < |calls| :: !SetsNetwork(calls[j], slot)
  }

  ghost predicate DutyHeld(calls: seq<Call>, slot: Slot, duty: Option<Duty>) {
    match duty
    case None => forall j | 0 <= j < |calls| :: !SetsDuty(calls[j], slot)
    case Some(d) => exists i: nat :: LastDuty(calls, slot, i, d)
  }

  ghost predicate NetworkHeld(calls: seq<Call>, slot: Slot, network: Option<Baseline>) {
    match network
    case None => forall j | 0 <= j < |calls| :: !SetsNetwork(calls[j], slot)
    case Some(n) => exists i: nat :: LastNetwork(calls, slot, i, n)
  }

  lemma {:induction false} DutyIsLast(schedule: Schedule, calls: seq<Call>, slot: Slot)
    ensures DutyHeld(calls, slot, Lookup(Run(Empty(schedule), calls).duties, slot))
  {
    if calls != [] {
      var n := |calls| - 1;
      var was := Lookup(Run(Empty(schedule), calls[..n]).duties, slot);
      DutyIsLast(schedule, calls[..n], slot);
      if SetsDuty(calls[n], slot) {
        assert LastDuty(calls, slot, n, calls[n].d);
      } else if was.Some? {
        var i: nat :| LastDuty(calls[..n], slot, i, was.value);
        assert LastDuty(calls, slot, i, was.value);
      }
    }
  }

  lemma {:induction false} NetworkIsLast(schedule: Schedule, calls: seq<Call>, slot: Slot)
    ensures NetworkHeld(calls, slot, Lookup(Run(Empty(schedule), calls).networks, slot))
  {
    if calls != [] {
      var n := |calls| - 1;
      var was := Lookup(Run(Empty(schedule), calls[..n]).networks, slot);
      NetworkIsLast(schedule, calls[..n], slot);
      if SetsNetwork(calls[n], slot) {
        assert LastNetwork(calls, slot, n, calls[n].n);
      } else if was.Some? {
        var i: nat :| LastNetwork(calls[..n], slot, i, was.value);
        assert LastNetwork(calls, slot, i, was.value);
      }
    }
  }

  lemma FiledCount(schedule: Schedule, calls: seq<Call>, slot: Slot, x: Observation)
    ensures multiset(Filed(Run(Empty(schedule), calls), slot))[x] ==
            if x.slot == slot then multiset(calls)[AddObservation(x)] else 0
  {
    RunFiles(schedule, calls, slot);
    OfSlotCount(ObservationsOf(calls), slot, x);
    AddedCount(calls, x);
  }

  predicate ReorgOfWindow(x: Observation, slot: Slot) {
    x.kind == Reorg && slot < x.slot <= LastAttestationInclusionSlot(slot)
  }

  lemma ReorgCount(schedule: Schedule, calls: seq<Call>, slot: Slot, order: seq<Slot>, x: Observation)
    requires Enumerates(order, Run(Empty(schedule), calls).observations.Keys)
    ensures multiset(WindowReorgs(Run(Empty(schedule), calls).observations, order, slot))[x] ==
            if ReorgOfWindow(x, slot) then multiset(calls)[AddObservation(x)] else 0
  {
    var s := Run(Empty(schedule), calls);
    RunWellFiled(schedule, calls);
    WindowReorgsCount(s, order, slot, x);
    FiledCount(schedule, calls, x.slot, x);
  }

  /** The built timeline's lists hold every record as often as it was added: the slot's observations,
      the window's reorgs, all samples; and nothing else. */
  lemma BuiltRecords(schedule: Schedule, calls: seq<Call>, slot: Slot, slotStart: Instant, order: seq<Slot>,
                     pf: FloatParser)
    requires Enumerates(order, Run(Empty(schedule), calls).observations.Keys)
    requires Built(Run(Empty(schedule), calls), slot, slotStart, order, pf).Some?
    ensures var t := Built(Run(Empty(schedule), calls), slot, slotStart, order, pf).value;
            && (forall x :: multiset(t.observations)[x] ==
                            if x.slot == slot then multiset(calls)[AddObservation(x)] else 0)
            && (forall x :: multiset(t.reorgs)[x] ==
                            if ReorgOfWindow(x, slot) then multiset(calls)[AddObservation(x)] else 0)
            && forall m :: multiset(t.samples)[m] == multiset(calls)[AddSample(m)]
  {
    var s := Run(Empty(schedule), calls);
    SortMultiset(ObservationLess, Filed(s, slot));
    SortMultiset(ObservationLess, WindowReorgs(s.observations, order, slot));
    SortMultiset(SampleLess, s.samples);
    RunSamples(schedule, calls);
    forall x ensures multiset(Filed(s, slot))[x] == if x.slot == slot then multiset(calls)[AddObservation(x)] else 0 {
      FiledCount(schedule, calls, slot, x);
    }
    forall x ensures multiset(WindowReorgs(s.observations, order, slot))[x] ==
                     if ReorgOfWindow(x, slot) then multiset(calls)[AddObservation(x)] else 0 {
      ReorgCount(schedule, calls, slot, order, x);
    }
    forall m ensures multiset(s.samples)[m] == multiset(calls)[AddSample(m)] { SampledCount(calls, m); }
  }

  /** The rest of it: slot, start and schedule as given, the last duty and baseline set for the slot, and
      the completion flag exactly when a marker is among its observations. */
  lemma BuiltFrame(schedule: Schedule, calls: seq<Call>, slot: Slot, slotStart: Instant, order: seq<Slot>,
                   pf: FloatParser)
    requires Built(Run(Empty(schedule), calls), slot, slotStart, order, pf).Some?
    ensures var t := Built(Run(Empty(schedule), calls), slot, slotStart, order, pf).value;
            && t.slot == slot && t.slotStart == slotStart && t.schedule == schedule
            && DutyHeld(calls, slot, t.duty) && NetworkHeld(calls, slot, t.network)
            && (t.collectionComplete <==> exists o | o in t.observations :: o.kind == CollectionCompleted)
  {
    RunSamples(schedule, calls);
    DutyIsLast(schedule, calls, slot);
    NetworkIsLast(schedule, calls, slot);
    var t := Built(Run(Empty(schedule), calls), slot, slotStart, order, pf).value;
    if t.collectionComplete { assert FirstOf(t.observations, CollectionCompleted).value in t.observations; }
  }
}
