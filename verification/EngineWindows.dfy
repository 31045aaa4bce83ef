/** Engine API counter windows between consecutive heads, and the bounded set of slots already
    handled (internal/app/blocktiming.go, internal/source/promscrape/engine.go). */
module EngineWindows {
  import opened Text
  import opened Domain
  import opened Sets

  // ----------------------------------------------------- counter windows

  datatype Counter = Counter(count: Slot, sumMs: real)

  datatype Counters = Counters(sampledAt: Instant, newPayload: Counter, forkchoiceUpdated: Counter)
  {
    function Of(m: Method): Counter {
      if m == NewPayload then newPayload else forkchoiceUpdated
    }
  }

  datatype Method = NewPayload | ForkchoiceUpdated

  datatype Window = Window(at: Instant, of: Method, count: Slot, durationMs: real)

  predicate Advanced(before: Counter, after: Counter) {
    before.count < after.count && before.sumMs <= after.sumMs
  }

  function WindowOf(m: Method, before: Counters, after: Counters): Window
    requires Advanced(before.Of(m), after.Of(m))
  {
    Window(after.sampledAt, m, after.Of(m).count - before.Of(m).count, after.Of(m).sumMs - before.Of(m).sumMs)
  }

  predicate Comparable(before: Counters, after: Counters) {
    && before.sampledAt != 0 && before.sampledAt <= after.sampledAt
    && Advanced(before.newPayload, after.newPayload) && Advanced(before.forkchoiceUpdated, after.forkchoiceUpdated)
  }

  /** One window per method, or None when the two snapshots cannot be compared. */
  function CallsBetween(before: Counters, after: Counters): Option<seq<Window>> {
    if Comparable(before, after)
    then Some([WindowOf(NewPayload, before, after), WindowOf(ForkchoiceUpdated, before, after)])
    else None
  }

  /** The windows two snapshots give: both counters advanced, neither duration went back, and each method
      has what it gained, dated at the second snapshot. */
  predicate WindowsAre(before: Counters, after: Counters, calls: seq<Window>) {
    && before.sampledAt != 0 && before.sampledAt <= after.sampledAt
    && before.newPayload.count < after.newPayload.count
    && before.newPayload.sumMs <= after.newPayload.sumMs
    && before.forkchoiceUpdated.count < after.forkchoiceUpdated.count
    && before.forkchoiceUpdated.sumMs <= after.forkchoiceUpdated.sumMs
    && calls == [Window(after.sampledAt, NewPayload, after.newPayload.count - before.newPayload.count,
                        after.newPayload.sumMs - before.newPayload.sumMs),
                 Window(after.sampledAt, ForkchoiceUpdated,
                        after.forkchoiceUpdated.count - before.forkchoiceUpdated.count,
                        after.forkchoiceUpdated.sumMs - before.forkchoiceUpdated.sumMs)]
  }

  ghost predicate NoWindows(before: Counters, after: Counters) {
    forall calls :: !WindowsAre(before, after, calls)
  }

  lemma WindowsIff(before: Counters, after: Counters, calls: seq<Window>)
    ensures CallsBetween(before, after) == Some(calls) <==> WindowsAre(before, after, calls)
  {
  }

  method EngineCallsBetween(before: Counters, after: Counters) returns (r: Option<seq<Window>>)
    ensures r == CallsBetween(before, after)
  {
    if before.sampledAt == 0 || after.sampledAt == 0 || after.sampledAt < before.sampledAt { return None; }
    var calls: seq<Window> := [];
    var methods := [NewPayload, ForkchoiceUpdated];
    for i := 0 to 2
      invariant |calls| == i
      invariant forall j | 0 <= j < i :: Advanced(before.Of(methods[j]), after.Of(methods[j])) &&
                                         calls[j] == WindowOf(methods[j], before, after)
    {
      var was, now := before.Of(methods[i]), after.Of(methods[i]);
      if now.count <= was.count { return None; }
      var duration := now.sumMs - was.sumMs;
      if duration < 0.0 { return None; }
      calls := calls + [Window(after.sampledAt, methods[i], now.count - was.count, duration)];
    }
    assert methods[0] == NewPayload && methods[1] == ForkchoiceUpdated;
    assert calls == [calls[0], calls[1]];
    r := Some(calls);
  }

  // ------------------------------------------------------------- tracker

  datatype Track = Cold | Warm(slot: Slot, counters: Counters)

  /** Nothing yet or a gap; snapshots that cannot be compared; a window for the slot. */
  datatype Outcome = Warming | Ambiguous | Emitted(slot: Slot, calls: seq<Window>)

  function Advance(t: Track, slot: Slot, after: Counters): Outcome {
    if t.Cold? || slot != t.slot + 1 then Warming
    else match CallsBetween(t.counters, after)
      case None => Ambiguous
      case Some(calls) => Emitted(slot, calls)
  }

  class EngineWindowTracker {
    var ready: bool
    var slot: Slot
    var counters: Counters

    constructor ()
      ensures State() == Cold
    {
      ready := false;
      slot, counters := 0, Counters(0, Counter(0, 0.0), Counter(0, 0.0));
    }

    function State(): Track
      reads this
    {
      if ready then Warm(slot, counters) else Cold
    }

    method AdvanceTo(to: Slot, after: Counters) returns (r: Outcome)
      modifies this
      ensures r == Advance(old(State()), to, after)
      ensures State() == Warm(to, after)
    {
      if !ready {
        ready, slot, counters := true, to, after;
        return Warming;
      }
      var previous, before := slot, counters;
      slot, counters := to, after;
      if to <= previous || Wrap64(to - previous) != 1 { return Warming; }
      var calls := EngineCallsBetween(before, after);
      r := if calls.None? then Ambiguous else Emitted(to, calls.value);
    }

    /** A failed scrape starts the tracker afresh. */
    method Reset()
      modifies this
      ensures State() == Cold
    {
      ready := false;
    }
  }

  /** One head that was not a duplicate: its counters were scraped, or the scrape failed. */
  datatype Event = Sampled(slot: Slot, counters: Counters) | ScrapeFailed

  /** The tracker after a run of events. */
  function After(events: seq<Event>): Track {
    if events == [] then Cold
    else match events[|events| - 1]
      case Sampled(slot, counters) => Warm(slot, counters)
      case ScrapeFailed => Cold
  }

  /** What event i of a run produced. */
  function OutcomeAt(events: seq<Event>, i: nat): Outcome
    requires i < |events|
  {
    match events[i]
    case Sampled(slot, counters) => Advance(After(events[..i]), slot, counters)
    case ScrapeFailed => Warming
  }

  /** The object's state and outcomes are those of the run, event by event. */
  method Replay(events: seq<Event>) returns (outcomes: seq<Outcome>)
    ensures |outcomes| == |events| && forall i | 0 <= i < |events| :: outcomes[i] == OutcomeAt(events, i)
  {
    var tracker := new EngineWindowTracker();
    outcomes := [];
    for i := 0 to |events|
      invariant |outcomes| == i && forall j | 0 <= j < i :: outcomes[j] == OutcomeAt(events, j)
      invariant fresh(tracker) && tracker.State() == After(events[..i])
    {
      match events[i] {
        case Sampled(slot, counters) =>
          var r := tracker.AdvanceTo(slot, counters);
          outcomes := outcomes + [r];
        case ScrapeFailed =>
          tracker.Reset();
          outcomes := outcomes + [Warming];
      }
    }
  }

  /** Event i is a scrape one slot after the scrape that is event i - 1. */
  predicate Consecutive(events: seq<Event>, i: nat) {
    0 < i < |events| && events[i].Sampled? && events[i - 1].Sampled? && events[i].slot == events[i - 1].slot + 1
  }

  lemma OutcomeIs(events: seq<Event>, i: nat)
    requires i < |events|
    ensures OutcomeAt(events, i) ==
            if !Consecutive(events, i) then Warming
            else match CallsBetween(events[i - 1].counters, events[i].counters)
              case None => Ambiguous
              case Some(calls) => Emitted(events[i].slot, calls)
  {
    if i > 0 { assert events[..i][|events[..i]| - 1] == events[i - 1]; }
  }

  /** A window is emitted for slot s exactly when the event just before was a scrape at slot s - 1 and
      the two snapshots give those windows. */
  lemma EmittedIff(events: seq<Event>, i: nat, slot: Slot, calls: seq<Window>)
    requires i < |events|
    ensures OutcomeAt(events, i) == Emitted(slot, calls) <==>
            && Consecutive(events, i) && events[i].slot == slot
            && WindowsAre(events[i - 1].counters, events[i].counters, calls)
  {
    OutcomeIs(events, i);
    if Consecutive(events, i) { WindowsIff(events[i - 1].counters, events[i].counters, calls); }
  }

  /** It is given up as ambiguous exactly when there was such a scrape and the snapshots give none. */
  lemma AmbiguousIff(events: seq<Event>, i: nat)
    requires i < |events|
    ensures OutcomeAt(events, i) == Ambiguous <==>
            && Consecutive(events, i)
            && NoWindows(events[i - 1].counters, events[i].counters)
  {
    OutcomeIs(events, i);
    if Consecutive(events, i) {
      var before, after := events[i - 1].counters, events[i].counters;
      forall calls ensures CallsBetween(before, after) == Some(calls) <==> WindowsAre(before, after, calls) {
        WindowsIff(before, after, calls);
      }
    }
  }

  /** Every event from a + 1 to b emitted. */
  ghost predicate AllEmitted(events: seq<Event>, a: nat, b: nat)
    requires a <= b < |events|
  {
    forall i | a < i <= b :: OutcomeAt(events, i).Emitted?
  }

  function CountOf(o: Outcome, m: Method): int {
    if o.Emitted? && |o.calls| == 2 then (if m == NewPayload then o.calls[0].count else o.calls[1].count) else 0
  }

  function DurationOf(o: Outcome, m: Method): real {
    if o.Emitted? && |o.calls| == 2 then (if m == NewPayload then o.calls[0].durationMs else o.calls[1].durationMs)
    else 0.0
  }

  function TotalCount(events: seq<Event>, a: nat, b: nat, m: Method): int
    requires a <= b < |events|
    decreases b
  {
    if a == b then 0 else TotalCount(events, a, b - 1, m) + CountOf(OutcomeAt(events, b), m)
  }

  function TotalDuration(events: seq<Event>, a: nat, b: nat, m: Method): real
    requires a <= b < |events|
    decreases b
  {
    if a == b then 0.0 else TotalDuration(events, a, b - 1, m) + DurationOf(OutcomeAt(events, b), m)
  }

  lemma OneWindow(events: seq<Event>, i: nat, m: Method)
    requires i < |events| && OutcomeAt(events, i).Emitted?
    ensures i > 0 && events[i].Sampled? && events[i - 1].Sampled? && events[i].slot == events[i - 1].slot + 1
    ensures CountOf(OutcomeAt(events, i), m) == events[i].counters.Of(m).count - events[i - 1].counters.Of(m).count
    ensures DurationOf(OutcomeAt(events, i), m) == events[i].counters.Of(m).sumMs - events[i - 1].counters.Of(m).sumMs
  {
    var o := OutcomeAt(events, i);
    EmittedIff(events, i, o.slot, o.calls);
  }

  /** Over any stretch of consecutive emitting slots, the counts and durations emitted add up exactly
      to the last snapshot minus the first, and the slots run without a gap. */
  lemma {:induction false} WindowsAddUp(events: seq<Event>, a: nat, b: nat, m: Method)
    requires a < b < |events| && AllEmitted(events, a, b)
    ensures events[a].Sampled? && events[b].Sampled? && events[b].slot == events[a].slot + (b - a)
    ensures TotalCount(events, a, b, m) == events[b].counters.Of(m).count - events[a].counters.Of(m).count
    ensures TotalDuration(events, a, b, m) == events[b].counters.Of(m).sumMs - events[a].counters.Of(m).sumMs
    decreases b
  {
    OneWindow(events, b, m);
    if a < b - 1 { WindowsAddUp(events, a, b - 1, m); }
  }

  // ----------------------------------------------------------- dedupe set

  const KEPT: nat := 64

  predicate IsOldest(s: set<Slot>, x: Slot) {
    x in s && forall y | y in s :: x <= y
  }

  /** The scan over the set, in whatever order the runtime walks it. */
  method Oldest(s: set<Slot>, head: Slot) returns (x: Slot)
    requires head in s
    ensures IsOldest(s, x)
  {
    x := head;
    var left := s;
    while left != {}
      invariant left <= s && x in s && forall y | y in s && y !in left :: x <= y
      decreases |left|
    {
      var y :| y in left;
      if y < x { x := y; }
      left := left - {y};
    }
  }

  /** One received head: whether it is a duplicate, and the set afterwards. */
  method Receive(processed: set<Slot>, head: Slot) returns (duplicate: bool, after: set<Slot>)
    ensures Step(processed, head, duplicate, after)
  {
    if head in processed { return true, processed; }
    duplicate, after := false, processed + {head};
    if |after| > KEPT {
      var oldest := Oldest(after, head);
      after := after - {oldest};
    }
  }

  ghost predicate Step(processed: set<Slot>, head: Slot, duplicate: bool, after: set<Slot>) {
    && (duplicate <==> head in processed)
    && (if head in processed then after == processed
        else if |processed + {head}| <= KEPT then after == processed + {head}
        else exists x :: IsOldest(processed + {head}, x) && after == processed + {head} - {x})
  }

  /** `kept` is the 64 largest of `all`, or all of it. */
  ghost predicate Largest(all: set<Slot>, kept: set<Slot>) {
    && kept <= all
    && |kept| <= KEPT
    && (kept != all ==> |kept| == KEPT)
    && forall x, y | x in all && x !in kept && y in kept :: x < y
  }

  lemma StepKeepsLargest(all: set<Slot>, kept: set<Slot>, head: Slot, duplicate: bool, after: set<Slot>)
    requires Largest(all, kept) && Step(kept, head, duplicate, after)
    ensures Largest(all + {head}, after)
  {
    var grown := kept + {head};
    if head in kept {
      assert all + {head} == all;
    } else if |grown| <= KEPT {
      assert |grown| == |kept| + 1;
      assert kept == all;
    } else {
      var x :| IsOldest(grown, x) && after == grown - {x};
      EvictionKeepsLargest(all, kept, head, x);
    }
  }

  lemma EvictionKeepsLargest(all: set<Slot>, kept: set<Slot>, head: Slot, x: Slot)
    requires Largest(all, kept) && head !in kept && |kept + {head}| > KEPT && IsOldest(kept + {head}, x)
    ensures Largest(all + {head}, kept + {head} - {x})
  {
    var grown, after := kept + {head}, kept + {head} - {x};
    assert |grown| == |kept| + 1 && |after| == |grown| - 1;
    forall s, y | s in all + {head} && s !in after && y in after ensures s < y {
      assert x <= y;
      if s != x {
        assert s in all && s !in kept;
        assert y == head || y in kept;
        assert x == head || x in kept;
      }
    }
  }

  /** A run of received heads, with the set after each. */
  ghost predicate IsRun(heads: seq<Slot>, sets: seq<set<Slot>>, duplicates: seq<bool>) {
    && |sets| == |heads| + 1 && |duplicates| == |heads| && sets[0] == {}
    && forall i | 0 <= i < |heads| :: Step(sets[i], heads[i], duplicates[i], sets[i + 1])
  }

  function Seen(heads: seq<Slot>): set<Slot> {
    set s | s in heads
  }

  lemma SeenGrows(heads: seq<Slot>, n: nat)
    requires 0 < n <= |heads|
    ensures Seen(heads[..n]) == Seen(heads[..n - 1]) + {heads[n - 1]}
  {
    assert heads[..n] == heads[..n - 1] + [heads[n - 1]];
  }

  lemma {:induction false} RunKeepsLargest(heads: seq<Slot>, sets: seq<set<Slot>>, duplicates: seq<bool>, n: nat)
    requires IsRun(heads, sets, duplicates) && n <= |heads|
    ensures Largest(Seen(heads[..n]), sets[n])
  {
    if n > 0 {
      RunKeepsLargest(heads, sets, duplicates, n - 1);
      SeenGrows(heads, n);
      var i := n - 1;
      assert Step(sets[i], heads[i], duplicates[i], sets[i + 1]);
      StepKeepsLargest(Seen(heads[..i]), sets[i], heads[i], duplicates[i], sets[n]);
    }
  }

  function Above(all: set<Slot>, x: Slot): set<Slot> {
    set s | s in all && s > x
  }

  lemma KeptIff(all: set<Slot>, kept: set<Slot>, x: Slot)
    requires Largest(all, kept)
    ensures x in kept <==> x in all && |Above(all, x)| < KEPT
  {
    if x in kept {
      assert Above(all, x) <= kept - {x};
      SubsetSize(Above(all, x), kept - {x});
    } else if x in all {
      assert kept <= Above(all, x);
      SubsetSize(kept, Above(all, x));
    }
  }

  /** A head is dropped as a duplicate exactly when it was received before and fewer than 64 distinct
      later slots have been received since the start: an older repeat is processed again. */
  lemma DuplicateIff(heads: seq<Slot>, sets: seq<set<Slot>>, duplicates: seq<bool>, n: nat)
    requires IsRun(heads, sets, duplicates) && n < |heads|
    ensures duplicates[n] <==> heads[n] in heads[..n] && |Above(Seen(heads[..n]), heads[n])| < KEPT
  {
    RunKeepsLargest(heads, sets, duplicates, n);
    KeptIff(Seen(heads[..n]), sets[n], heads[n]);
    assert Step(sets[n], heads[n], duplicates[n], sets[n + 1]);
  }

  lemma {:induction false} SomeOldest(s: set<Slot>) returns (x: Slot)
    requires s != {}
    ensures IsOldest(s, x)
    decreases |s|
  {
    x :| x in s;
    var rest := s - {x};
    assert forall y | y in s :: y == x || y in rest;
    if rest != {} {
      var y := SomeOldest(rest);
      x := if x < y then x else y;
    }
  }

  lemma NextSet(processed: set<Slot>, head: Slot) returns (duplicate: bool, after: set<Slot>)
    ensures Step(processed, head, duplicate, after)
  {
    duplicate, after := head in processed, processed + {head};
    if !duplicate && |after| > KEPT {
      var x := SomeOldest(processed + {head});
      after := processed + {head} - {x};
    } else if duplicate {
      after := processed;
    }
  }

  /** Every list of heads has a run. */
  lemma {:induction false} RunOf(heads: seq<Slot>) returns (sets: seq<set<Slot>>, duplicates: seq<bool>)
    ensures IsRun(heads, sets, duplicates)
    decreases |heads|
  {
    sets, duplicates := [{}], [];
    if heads != [] {
      var n := |heads| - 1;
      var front := heads[..n];
      var s, d := RunOf(front);
      var duplicate, after := NextSet(s[n], heads[n]);
      sets, duplicates := s + [after], d + [duplicate];
      forall i | 0 <= i < |heads| ensures Step(sets[i], heads[i], duplicates[i], sets[i + 1]) {
        if i < n { assert Step(s[i], front[i], d[i], s[i + 1]); }
      }
    }
  }

  /** Slots 0 to n - 1, in order. */
  function UpTo(n: nat): (r: seq<Slot>)
    requires n <= MAX_UINT64
    ensures |r| == n && forall i | 0 <= i < n :: r[i] == i
  {
    if n == 0 then [] else UpTo(n - 1) + [n - 1]
  }

  lemma {:induction false} AboveZero(n: nat)
    requires 0 < n <= MAX_UINT64
    ensures |Above(Seen(UpTo(n)), 0)| == n - 1
  {
    var zero: Slot := 0;
    if n == 1 {
      assert Above(Seen(UpTo(1)), zero) == {};
    } else {
      AboveZero(n - 1);
      var last: Slot := n - 1;
      var before := Above(Seen(UpTo(n - 1)), zero);
      assert Above(Seen(UpTo(n)), zero) == before + {last};
      assert last !in before;
    }
  }

  /** Heads 0 to n - 1 and then 0 again: the repeat is dropped for n up to 64 and processed a second
      time from 65 on. */
  lemma RepeatAfter(n: nat) returns (sets: seq<set<Slot>>, duplicates: seq<bool>)
    requires 0 < n <= MAX_UINT64
    ensures IsRun(UpTo(n) + [0], sets, duplicates) && (duplicates[n] <==> n <= KEPT)
  {
    var heads: seq<Slot> := UpTo(n) + [0];
    sets, duplicates := RunOf(heads);
    DuplicateIff(heads, sets, duplicates, n);
    assert heads[..n] == UpTo(n) && UpTo(n)[0] == 0;
    AboveZero(n);
  }
}
