/** The beacon client's single-flight caches (internal/source/beaconapi: blocks.go,
    canonical_roots.go, heads.go, attestation_bits.go).

    All five follow one protocol.  A caller either waits on a mapped entry (in flight, or complete
    and younger than the TTL) or maps a new entry and fetches; when the fetch ends the entry's
    fields are filled in, `ready` is closed, and the entry is removed on error or the cache is
    trimmed on success.  The caches differ in their limits, in whether a caller carries a tag that
    must match the entry's (the committee cache's expected count), and in whether the delete on
    error checks that the entry is still the mapped one.  Each critical section is one step; time
    is a nondecreasing integer; fetch results are arbitrary.
 */
module FlightCache {
  import opened Text
  import opened Sets
  import Domain

  type Key = nat      // a slot
  type Tag = nat      // expectedCount; always 0 in the untagged caches
  type EntryId = nat  // identity of an entry object: its allocation rank

  datatype Params = Params(
    fetchLimit: Option<nat>,  // with this many entries mapped, fetch without caching
    keep: nat,                // trim target
    ttl: Option<nat>,
    tagged: bool,             // callers carry a tag
    guarded: bool)            // delete on error only if still mapped to this entry

  const BLOCKS := Params(Some(192), 128, Some(60 * Domain.SECOND), false, false)
  const CANONICAL_ROOTS := Params(Some(64), 16, Some(2 * Domain.SECOND), false, false)
  const HEAD_POLLS := Params(Some(64), 8, None, false, false)
  const COMMITTEES := Params(None, 64, Some(60 * Domain.SECOND), true, true)
  const LATEST_HEAD := Params(None, 1, Some(Domain.SECOND / 5), false, true)  // one key only

  /** The code never deletes unguarded where two tags can meet on one key. */
  predicate WellFormed(p: Params) {
    p.tagged ==> p.guarded
  }

  /** What a fetch brought back.  A found body is validated before anyone sees it. */
  datatype Body = Body(found: bool, wellFormed: bool, payload: nat)
  datatype Outcome = Ok(body: Body) | Err(reason: Reason)

  /** A fetch runs under its own caller's context, so that context's cancellation can end it. */
  datatype Reason = Failed | Cancelled

  function Validated(raw: Outcome): Outcome {
    if raw.Ok? && raw.body.found && !raw.body.wellFormed then Err(Failed) else raw
  }

  datatype Entry = Entry(key: Key, tag: Tag, shared: bool, complete: bool, outcome: Outcome, fetched: int)

  datatype Phase =
    | Waiting(entry: EntryId)
    | Fetching(entry: EntryId)
    | Answered(entry: EntryId, answer: Outcome)
    | Left                                       // returned its own context error

  datatype Call = Call(key: Key, tag: Tag, askedAt: int, phase: Phase)

  datatype State = State(now: int, cache: map<Key, EntryId>, entries: seq<Entry>, calls: seq<Call>)

  datatype Step =
    | Tick(dt: nat)
    | Ask(key: Key, tag: Tag)
    | Finish(call: nat, raw: Outcome)
    | Deliver(call: nat)
    | Leave(call: nat)

  predicate Initial(s: State) {
    s.cache == map[] && s.entries == [] && s.calls == []
  }

  predicate Fresh(p: Params, at: int, fetched: int) {
    p.ttl.Some? ==> at - fetched < p.ttl.value
  }

  predicate Mapped(cache: map<Key, EntryId>, entries: seq<Entry>) {
    forall k | k in cache :: cache[k] < |entries| && entries[cache[k]].key == k && entries[cache[k]].shared
  }

  predicate Hit(p: Params, s: State, key: Key, tag: Tag)
    requires Mapped(s.cache, s.entries)
  {
    key in s.cache &&
    var e := s.entries[s.cache[key]];
    e.tag == tag && (!e.complete || Fresh(p, s.now, e.fetched))
  }

  predicate Enabled(p: Params, s: State, step: Step) {
    && Mapped(s.cache, s.entries)
    && match step
       case Tick(_) => true
       case Ask(_, tag) => p.tagged || tag == 0
       case Finish(c, _) => c < |s.calls| && s.calls[c].phase.Fetching? && s.calls[c].phase.entry < |s.entries|
       case Deliver(c) =>
         c < |s.calls| && s.calls[c].phase.Waiting? && s.calls[c].phase.entry < |s.entries| &&
         s.entries[s.calls[c].phase.entry].complete
       case Leave(c) => c < |s.calls| && s.calls[c].phase.Waiting?
  }

  // ------------------------------------------------------------- trimming

  ghost predicate IsLeast(ks: set<Key>, k: Key) {
    k in ks && forall j | j in ks :: k <= j
  }

  ghost function Least(ks: set<Key>): (k: Key)
    requires ks != {}
    ensures IsLeast(ks, k)
  {
    LeastExists(ks);
    var k :| IsLeast(ks, k);
    k
  }

  lemma {:induction false} LeastExists(ks: set<Key>)
    requires ks != {}
    ensures exists k :: IsLeast(ks, k)
    decreases |ks|
  {
    var x :| x in ks;
    var rest := ks - {x};
    assert forall j | j in ks :: j == x || j in rest;
    if rest == {} {
      assert IsLeast(ks, x);
    } else {
      LeastExists(rest);
      var k :| IsLeast(rest, k);
      assert IsLeast(ks, if x < k then x else k);
    }
  }

  function Completed(cache: map<Key, EntryId>, entries: seq<Entry>): set<Key>
    requires Mapped(cache, entries)
  {
    set k | k in cache && entries[cache[k]].complete
  }

  /** Deletes the lowest completed slot until at most `keep` entries are mapped, or none of those
      mapped is complete. */
  ghost function Trim(cache: map<Key, EntryId>, entries: seq<Entry>, keep: nat): map<Key, EntryId>
    requires Mapped(cache, entries)
    decreases |cache|
  {
    var done := Completed(cache, entries);
    if |cache| <= keep || done == {} then cache
    else Trim(cache - {Least(done)}, entries, keep)
  }

  /** `t` keeps everything in flight, drops only completed entries, and drops lower slots first. */
  ghost predicate TrimmedFrom(cache: map<Key, EntryId>, t: map<Key, EntryId>, entries: seq<Entry>)
    requires Mapped(cache, entries)
  {
    && (forall k | k in t :: k in cache && t[k] == cache[k])
    && (forall k | k in cache && k !in t :: entries[cache[k]].complete)
    && (forall k, j | k in cache && k !in t && j in t && entries[cache[j]].complete :: k < j)
  }

  lemma DropLeast(cache: map<Key, EntryId>, t: map<Key, EntryId>, entries: seq<Entry>, least: Key)
    requires Mapped(cache, entries) && IsLeast(Completed(cache, entries), least)
    requires Mapped(cache - {least}, entries) && TrimmedFrom(cache - {least}, t, entries)
    ensures TrimmedFrom(cache, t, entries)
  {
    var smaller := cache - {least};
    forall k, j | k in cache && k !in t && j in t && entries[cache[j]].complete ensures k < j {
      assert j in smaller && j in Completed(cache, entries);
      if k != least { assert k in smaller; }
    }
  }

  /** Trimming removes only completed entries, lowest slots first, no more than needed, and stops
      only within the limit or with everything left in flight.  These clauses fix the result. */
  lemma {:induction false} TrimExactly(cache: map<Key, EntryId>, entries: seq<Entry>, keep: nat)
    requires Mapped(cache, entries)
    ensures var t := Trim(cache, entries, keep);
            && TrimmedFrom(cache, t, entries)
            && Mapped(t, entries)
            && (|t| <= keep || Completed(t, entries) == {})
            && (t != cache ==> |t| >= keep)
    decreases |cache|
  {
    var done := Completed(cache, entries);
    if !(|cache| <= keep || done == {}) {
      var least := Least(done);
      var smaller := cache - {least};
      assert smaller.Keys == cache.Keys - {least};
      assert |smaller| == |cache| - 1;
      TrimExactly(smaller, entries, keep);
      DropLeast(cache, Trim(smaller, entries, keep), entries, least);
    }
  }

  // ------------------------------------------------------ critical sections

  function AskSection(p: Params, s: State, key: Key, tag: Tag): State
    requires Mapped(s.cache, s.entries)
  {
    if Hit(p, s, key, tag) then
      s.(calls := s.calls + [Call(key, tag, s.now, Waiting(s.cache[key]))])
    else
      var id := |s.entries|;
      var cache := s.cache - {key};
      var shared := !(p.fetchLimit.Some? && |cache| >= p.fetchLimit.value);
      s.(cache := if shared then cache[key := id] else cache,
         entries := s.entries + [Entry(key, tag, shared, false, Err(Failed), 0)],
         calls := s.calls + [Call(key, tag, s.now, Fetching(id))])
  }

  ghost function CacheAfter(p: Params, s: State, e: EntryId, entries: seq<Entry>, out: Outcome): map<Key, EntryId>
    requires e < |s.entries| && Mapped(s.cache, entries)
  {
    var key := s.entries[e].key;
    if !s.entries[e].shared then s.cache
    else if out.Ok? then Trim(s.cache, entries, p.keep)
    else if p.guarded && !(key in s.cache && s.cache[key] == e) then s.cache
    else s.cache - {key}
  }

  function Filled(s: State, e: EntryId, out: Outcome): seq<Entry>
    requires e < |s.entries|
  {
    s.entries[e := s.entries[e].(complete := true, outcome := out, fetched := s.now)]
  }

  ghost function FinishSection(p: Params, s: State, c: nat, raw: Outcome): State
    requires Enabled(p, s, Finish(c, raw))
  {
    var e := s.calls[c].phase.entry;
    var out := Validated(raw);
    var entries := Filled(s, e, out);
    s.(entries := entries,
       cache := CacheAfter(p, s, e, entries, out),
       calls := s.calls[c := s.calls[c].(phase := Answered(e, out))])
  }

  ghost function Apply(p: Params, s: State, step: Step): State
    requires Enabled(p, s, step)
  {
    match step
    case Tick(dt) => s.(now := s.now + dt)
    case Ask(key, tag) => AskSection(p, s, key, tag)
    case Finish(c, raw) => FinishSection(p, s, c, raw)
    case Deliver(c) =>
      var e := s.calls[c].phase.entry;
      s.(calls := s.calls[c := s.calls[c].(phase := Answered(e, s.entries[e].outcome))])
    case Leave(c) => s.(calls := s.calls[c := s.calls[c].(phase := Left)])
  }

  ghost predicate IsRun(p: Params, s: State, steps: seq<Step>)
    decreases |steps|
  {
    steps != [] ==> Enabled(p, s, steps[0]) && IsRun(p, Apply(p, s, steps[0]), steps[1..])
  }

  ghost function RunFrom(p: Params, s: State, steps: seq<Step>): State
    requires IsRun(p, s, steps)
    decreases |steps|
  {
    if steps == [] then s else RunFrom(p, Apply(p, s, steps[0]), steps[1..])
  }

  // ------------------------------------------------------------ invariants

  /** Only validated successes stay mapped once complete. */
  predicate ErrorsDropped(s: State)
    requires Mapped(s.cache, s.entries)
  {
    forall k | k in s.cache && s.entries[s.cache[k]].complete :: s.entries[s.cache[k]].outcome.Ok?
  }

  predicate Entries(s: State) {
    forall e | 0 <= e < |s.entries| && s.entries[e].complete ::
      && s.entries[e].fetched <= s.now
      && Validated(s.entries[e].outcome) == s.entries[e].outcome
  }

  /** The entry a call looks at was made for the call's own key and tag; it was in flight when the
      call asked, or younger than the TTL. */
  predicate CallSound(p: Params, s: State, c: Call) {
    c.askedAt <= s.now &&
    (c.phase.Left? ||
     (&& c.phase.entry < |s.entries|
      && var e := s.entries[c.phase.entry];
      && e.key == c.key && e.tag == c.tag
      && (e.complete ==> c.askedAt <= e.fetched || Fresh(p, c.askedAt, e.fetched))
      && (c.phase.Fetching? ==> !e.complete)
      && (c.phase.Answered? ==> e.complete && e.outcome == c.phase.answer)))
  }

  predicate CallsSound(p: Params, s: State) {
    forall c | 0 <= c < |s.calls| :: CallSound(p, s, s.calls[c])
  }

  /** Each entry has at most one fetcher, so its fields are written once. */
  predicate OneFetcher(s: State) {
    forall c, d | 0 <= c < d < |s.calls| && s.calls[c].phase.Fetching? && s.calls[d].phase.Fetching? ::
      s.calls[c].phase.entry != s.calls[d].phase.entry
  }

  /** The map's bounds: never more than the fetch limit, never more than `keep` completed. */
  predicate Bounded(p: Params, s: State)
    requires Mapped(s.cache, s.entries)
  {
    && (p.fetchLimit.Some? ==> |s.cache| <= p.fetchLimit.value)
    && |Completed(s.cache, s.entries)| <= p.keep
  }

  /** In the untagged caches an in-flight shared entry stays mapped until its own fetch ends. */
  predicate InFlightMapped(s: State) {
    forall e | 0 <= e < |s.entries| && s.entries[e].shared && !s.entries[e].complete ::
      s.entries[e].key in s.cache && s.cache[s.entries[e].key] == e
  }

  predicate Untagged(s: State) {
    forall e | 0 <= e < |s.entries| :: s.entries[e].tag == 0
  }

  predicate Inv(p: Params, s: State) {
    && Mapped(s.cache, s.entries) && ErrorsDropped(s) && Entries(s) && CallsSound(p, s) && OneFetcher(s)
    && Bounded(p, s)
    && (!p.tagged ==> InFlightMapped(s) && Untagged(s))
  }

  lemma AskCalls(p: Params, s: State, key: Key, tag: Tag)
    requires Inv(p, s) && Enabled(p, s, Ask(key, tag))
    ensures var t := Apply(p, s, Ask(key, tag));
            Entries(t) && CallsSound(p, t) && OneFetcher(t)
  {
    var t := Apply(p, s, Ask(key, tag));
    forall c | 0 <= c < |t.calls| ensures CallSound(p, t, t.calls[c]) {
      if c < |s.calls| {
        assert t.calls[c] == s.calls[c];
        assert CallSound(p, s, s.calls[c]);
      }
    }
    forall c, d | 0 <= c < d < |t.calls| && t.calls[c].phase.Fetching? && t.calls[d].phase.Fetching?
      ensures t.calls[c].phase.entry != t.calls[d].phase.entry
    {
      assert t.calls[c] == s.calls[c] && CallSound(p, s, s.calls[c]);
      if d < |s.calls| { assert t.calls[d] == s.calls[d]; }
    }
  }

  lemma AskKeeps(p: Params, s: State, key: Key, tag: Tag)
    requires Inv(p, s) && Enabled(p, s, Ask(key, tag))
    ensures Inv(p, Apply(p, s, Ask(key, tag)))
  {
    AskCalls(p, s, key, tag);
    if !Hit(p, s, key, tag) { AskMissMap(p, s, key, tag); }
  }

  /** Unmapping a key keeps the map well formed and shrinks it. */
  lemma DropKey(cache: map<Key, EntryId>, entries: seq<Entry>, key: Key)
    requires Mapped(cache, entries)
    ensures var t := cache - {key};
            && Mapped(t, entries) && |t| <= |cache| && t.Keys == cache.Keys - {key}
            && |Completed(t, entries)| <= |Completed(cache, entries)|
  {
    var t := cache - {key};
    assert t.Keys == cache.Keys - {key};
    SubsetSize(t.Keys, cache.Keys);
    SubsetSize(Completed(t, entries), Completed(cache, entries));
  }

  /** A new entry, mapped or not, leaves the completed ones as they were. */
  lemma AddEntry(cache: map<Key, EntryId>, entries: seq<Entry>, e: Entry)
    requires Mapped(cache, entries) && !e.complete && e.key !in cache
    ensures Mapped(cache, entries + [e]) && Completed(cache, entries + [e]) == Completed(cache, entries)
    ensures e.shared ==>
              var t := cache[e.key := |entries|];
              && Mapped(t, entries + [e]) && |t| == |cache| + 1
              && Completed(t, entries + [e]) == Completed(cache, entries)
  {
    assert forall i | 0 <= i < |entries| :: (entries + [e])[i] == entries[i];
    assert (cache[e.key := |entries|]).Keys == cache.Keys + {e.key};
  }

  lemma AskMissMap(p: Params, s: State, key: Key, tag: Tag)
    requires Inv(p, s) && Enabled(p, s, Ask(key, tag)) && !Hit(p, s, key, tag)
    ensures var t := Apply(p, s, Ask(key, tag));
            && Mapped(t.cache, t.entries) && ErrorsDropped(t) && Bounded(p, t)
            && (!p.tagged ==> InFlightMapped(t) && Untagged(t))
  {
    MissMapped(p, s, key, tag);
    if !p.tagged { MissInFlight(p, s, key); }
  }

  lemma MissMapped(p: Params, s: State, key: Key, tag: Tag)
    requires Mapped(s.cache, s.entries) && ErrorsDropped(s) && Bounded(p, s) && !Hit(p, s, key, tag)
    ensures var t := AskSection(p, s, key, tag);
            Mapped(t.cache, t.entries) && ErrorsDropped(t) && Bounded(p, t)
  {
    var t := AskSection(p, s, key, tag);
    DropKey(s.cache, s.entries, key);
    AddEntry(s.cache - {key}, s.entries, t.entries[|s.entries|]);
    forall k | k in t.cache && t.entries[t.cache[k]].complete ensures t.entries[t.cache[k]].outcome.Ok? {
      assert k in s.cache && t.cache[k] == s.cache[k] && t.entries[t.cache[k]] == s.entries[s.cache[k]];
    }
  }

  lemma MissInFlight(p: Params, s: State, key: Key)
    requires Mapped(s.cache, s.entries) && InFlightMapped(s) && Untagged(s) && !p.tagged && !Hit(p, s, key, 0)
    ensures InFlightMapped(AskSection(p, s, key, 0)) && Untagged(AskSection(p, s, key, 0))
  {
    var t := AskSection(p, s, key, 0);
    forall e | 0 <= e < |t.entries| && t.entries[e].shared && !t.entries[e].complete
      ensures t.entries[e].key in t.cache && t.cache[t.entries[e].key] == e
    {
      if e < |s.entries| { assert t.entries[e] == s.entries[e]; }
    }
  }

  lemma FinishOk(p: Params, s: State, e: EntryId, out: Outcome)
    requires Mapped(s.cache, s.entries) && ErrorsDropped(s) && Bounded(p, s) && e < |s.entries| && out.Ok?
    ensures var entries := Filled(s, e, out);
            && Mapped(s.cache, entries)
            && var t := Trim(s.cache, entries, p.keep);
            && Mapped(t, entries) && TrimmedFrom(s.cache, t, entries)
            && (forall k | k in t && entries[t[k]].complete :: entries[t[k]].outcome.Ok?)
            && |t| <= |s.cache| && |Completed(t, entries)| <= p.keep
  {
    var entries := Filled(s, e, out);
    TrimExactly(s.cache, entries, p.keep);
    var t := Trim(s.cache, entries, p.keep);
    assert t.Keys <= s.cache.Keys;
    SubsetSize(t.Keys, s.cache.Keys);
    SubsetSize(Completed(t, entries), t.Keys);
  }

  /** With `cache` free of entry `e`, completing `e` changes nothing the cache can see. */
  lemma FinishUnmapped(cache: map<Key, EntryId>, s: State, e: EntryId, out: Outcome)
    requires Mapped(cache, s.entries) && e < |s.entries| && forall k | k in cache :: cache[k] != e
    ensures Mapped(cache, Filled(s, e, out)) && Completed(cache, Filled(s, e, out)) == Completed(cache, s.entries)
  {
  }

  lemma FinishMap(p: Params, s: State, c: nat, raw: Outcome)
    requires WellFormed(p) && Inv(p, s) && Enabled(p, s, Finish(c, raw))
    ensures var t := Apply(p, s, Finish(c, raw));
            && Mapped(t.cache, t.entries) && ErrorsDropped(t) && Bounded(p, t)
  {
    var t := Apply(p, s, Finish(c, raw));
    var e := s.calls[c].phase.entry;
    assert CallSound(p, s, s.calls[c]);
    if s.entries[e].shared && Validated(raw).Ok? {
      FinishOk(p, s, e, Validated(raw));
    } else {
      DropKey(s.cache, s.entries, s.entries[e].key);
      FinishUnmapped(t.cache, s, e, Validated(raw));
    }
  }

  lemma FinishInFlight(p: Params, s: State, c: nat, raw: Outcome)
    requires !p.tagged && Inv(p, s) && Enabled(p, s, Finish(c, raw))
    ensures InFlightMapped(Apply(p, s, Finish(c, raw))) && Untagged(Apply(p, s, Finish(c, raw)))
  {
    var t := Apply(p, s, Finish(c, raw));
    var e := s.calls[c].phase.entry;
    assert CallSound(p, s, s.calls[c]);
    if s.entries[e].shared && Validated(raw).Ok? { FinishOk(p, s, e, Validated(raw)); }
    forall i | 0 <= i < |t.entries| && t.entries[i].shared && !t.entries[i].complete
      ensures t.entries[i].key in t.cache && t.cache[t.entries[i].key] == i
    {
      assert i != e && t.entries[i] == s.entries[i];
    }
  }

  lemma FinishCalls(p: Params, s: State, c: nat, raw: Outcome)
    requires Inv(p, s) && Enabled(p, s, Finish(c, raw))
    ensures var t := Apply(p, s, Finish(c, raw));
            Entries(t) && CallsSound(p, t) && OneFetcher(t)
  {
    var t := Apply(p, s, Finish(c, raw));
    var e := s.calls[c].phase.entry;
    forall d | 0 <= d < |t.calls| ensures CallSound(p, t, t.calls[d]) {
      assert CallSound(p, s, s.calls[d]) && CallSound(p, s, s.calls[c]);
    }
  }

  lemma QuietKeeps(p: Params, s: State, step: Step)
    requires Inv(p, s) && Enabled(p, s, step) && (step.Tick? || step.Deliver? || step.Leave?)
    ensures Inv(p, Apply(p, s, step))
  {
    var t := Apply(p, s, step);
    forall c | 0 <= c < |t.calls| ensures CallSound(p, t, t.calls[c]) {
      assert CallSound(p, s, s.calls[c]);
    }
    assert OneFetcher(t) by {
      assert forall c | 0 <= c < |t.calls| && t.calls[c].phase.Fetching? :: t.calls[c] == s.calls[c];
    }
  }

  lemma StepKeeps(p: Params, s: State, step: Step)
    requires WellFormed(p) && Inv(p, s) && Enabled(p, s, step)
    ensures Inv(p, Apply(p, s, step))
  {
    match step
    case Ask(key, tag) => AskKeeps(p, s, key, tag);
    case Finish(c, raw) =>
      FinishMap(p, s, c, raw);
      FinishCalls(p, s, c, raw);
      if !p.tagged { FinishInFlight(p, s, c, raw); }
    case _ => QuietKeeps(p, s, step);
  }

  /** Every reachable state of every cache satisfies the invariant. */
  lemma {:induction false} RunKeeps(p: Params, s: State, steps: seq<Step>)
    requires WellFormed(p) && Inv(p, s) && IsRun(p, s, steps)
    ensures Inv(p, RunFrom(p, s, steps))
    decreases |steps|
  {
    if steps != [] {
      StepKeeps(p, s, steps[0]);
      RunKeeps(p, Apply(p, s, steps[0]), steps[1..]);
    }
  }

  // ------------------------------------------------------------- theorems

  /** Whatever a caller is handed in any run was fetched for its own slot with its own tag, was
      validated, is the entry's final outcome, and was in flight or younger than one TTL when the
      caller asked. */
  lemma AnswersAreSound(p: Params, s: State, steps: seq<Step>, c: nat)
    requires WellFormed(p) && Initial(s) && IsRun(p, s, steps)
    requires c < |RunFrom(p, s, steps).calls| && RunFrom(p, s, steps).calls[c].phase.Answered?
    ensures var t := RunFrom(p, s, steps);
            var call := t.calls[c];
            && call.phase.entry < |t.entries|
            && var e := t.entries[call.phase.entry];
            && e.complete && e.outcome == call.phase.answer
            && e.key == call.key && e.tag == call.tag
            && (call.phase.answer.Ok? && call.phase.answer.body.found ==> call.phase.answer.body.wellFormed)
            && (call.askedAt <= e.fetched || Fresh(p, call.askedAt, e.fetched))
  {
    assert Completed(s.cache, s.entries) == {};
    RunKeeps(p, s, steps);
    var t := RunFrom(p, s, steps);
    assert CallSound(p, t, t.calls[c]);
  }

  /** In any run the map stays within its limits and holds no error, for every cache; and in the
      untagged ones an in-flight entry stays mapped until its own fetch ends. */
  lemma CacheStaysBounded(p: Params, s: State, steps: seq<Step>)
    requires WellFormed(p) && Initial(s) && IsRun(p, s, steps)
    ensures var t := RunFrom(p, s, steps);
            && Mapped(t.cache, t.entries) && ErrorsDropped(t)
            && (p.fetchLimit.Some? ==> |t.cache| <= p.fetchLimit.value)
            && |Completed(t.cache, t.entries)| <= p.keep
            && (!p.tagged ==> InFlightMapped(t))
  {
    assert Completed(s.cache, s.entries) == {};
    RunKeeps(p, s, steps);
  }

  /** Once an entry is complete no step changes it, so a waiter that reads it without the lock,
      after `ready` closed, reads final fields. */
  lemma CompleteIsFinal(p: Params, s: State, step: Step, e: EntryId)
    requires Inv(p, s) && Enabled(p, s, step)
    requires e < |s.entries| && s.entries[e].complete
    ensures e < |Apply(p, s, step).entries| && Apply(p, s, step).entries[e] == s.entries[e]
  {
    if step.Finish? { assert CallSound(p, s, s.calls[step.call]); }
  }

  lemma {:induction false} CompleteStaysFinal(p: Params, s: State, steps: seq<Step>, e: EntryId)
    requires WellFormed(p) && Inv(p, s) && IsRun(p, s, steps)
    requires e < |s.entries| && s.entries[e].complete
    ensures e < |RunFrom(p, s, steps).entries| && RunFrom(p, s, steps).entries[e] == s.entries[e]
    decreases |steps|
  {
    if steps != [] {
      CompleteIsFinal(p, s, steps[0], e);
      StepKeeps(p, s, steps[0]);
      CompleteStaysFinal(p, Apply(p, s, steps[0]), steps[1..], e);
    }
  }

  /** A failing fetch removes its own entry and nothing else; in particular a superseded fetch
      leaves its replacement mapped. */
  lemma FailureRemovesOnlyItself(p: Params, s: State, steps: seq<Step>, c: nat, raw: Outcome)
    requires WellFormed(p) && Initial(s) && IsRun(p, s, steps)
    requires Enabled(p, RunFrom(p, s, steps), Finish(c, raw)) && Validated(raw).Err?
    ensures var t := RunFrom(p, s, steps);
            var u := Apply(p, t, Finish(c, raw));
            forall k | k in t.cache ::
              if t.cache[k] == t.calls[c].phase.entry then k !in u.cache
              else k in u.cache && u.cache[k] == t.cache[k]
  {
    assert Completed(s.cache, s.entries) == {};
    RunKeeps(p, s, steps);
    var t := RunFrom(p, s, steps);
    assert CallSound(p, t, t.calls[c]);
  }

  /** The unguarded delete of the untagged caches does what a guarded one would, in every
      reachable state. */
  lemma UnguardedDeleteIsSafe(p: Params, s: State, steps: seq<Step>, c: nat, raw: Outcome)
    requires !p.tagged && Initial(s) && IsRun(p, s, steps)
    requires Enabled(p, RunFrom(p, s, steps), Finish(c, raw))
    ensures var t := RunFrom(p, s, steps);
            Apply(p.(guarded := false), t, Finish(c, raw)) == Apply(p.(guarded := true), t, Finish(c, raw))
  {
    assert Completed(s.cache, s.entries) == {};
    RunKeeps(p, s, steps);
    var t := RunFrom(p, s, steps);
    assert CallSound(p, t, t.calls[c]);
  }

  /** Untagged caches are single-flight: two cached fetches of one slot are never in flight
      together. */
  lemma SingleFlight(p: Params, s: State, steps: seq<Step>, c: nat, d: nat)
    requires WellFormed(p) && !p.tagged && Initial(s) && IsRun(p, s, steps)
    requires var t := RunFrom(p, s, steps);
             && c < d < |t.calls| && t.calls[c].phase.Fetching? && t.calls[d].phase.Fetching?
             && t.calls[c].phase.entry < |t.entries| && t.calls[d].phase.entry < |t.entries|
             && t.entries[t.calls[c].phase.entry].shared && t.entries[t.calls[d].phase.entry].shared
    ensures var t := RunFrom(p, s, steps); t.calls[c].key != t.calls[d].key
  {
    assert Completed(s.cache, s.entries) == {};
    RunKeeps(p, s, steps);
    var t := RunFrom(p, s, steps);
    assert CallSound(p, t, t.calls[c]) && CallSound(p, t, t.calls[d]);
  }

  // ------------------------------------------------ single flight, key by key

  /** The state before step n of a run. */
  ghost function StateAt(p: Params, s: State, steps: seq<Step>, n: nat): State
    requires IsRun(p, s, steps) && n <= |steps|
    decreases n
  {
    if n == 0 then s else StateAt(p, Apply(p, s, steps[0]), steps[1..], n - 1)
  }

  lemma {:induction false} StateAtStep(p: Params, s: State, steps: seq<Step>, n: nat)
    requires IsRun(p, s, steps) && n < |steps|
    ensures Enabled(p, StateAt(p, s, steps, n), steps[n])
    ensures StateAt(p, s, steps, n + 1) == Apply(p, StateAt(p, s, steps, n), steps[n])
    decreases n
  {
    if n > 0 { StateAtStep(p, Apply(p, s, steps[0]), steps[1..], n - 1); }
  }

  lemma {:induction false} StateAtEnd(p: Params, s: State, steps: seq<Step>)
    requires IsRun(p, s, steps)
    ensures StateAt(p, s, steps, |steps|) == RunFrom(p, s, steps)
    decreases |steps|
  {
    if steps != [] { StateAtEnd(p, Apply(p, s, steps[0]), steps[1..]); }
  }

  lemma {:induction false} StateAtKeeps(p: Params, s: State, steps: seq<Step>, n: nat)
    requires WellFormed(p) && Inv(p, s) && IsRun(p, s, steps) && n <= |steps|
    ensures Inv(p, StateAt(p, s, steps, n))
    decreases n
  {
    if n > 0 {
      StepKeeps(p, s, steps[0]);
      StateAtKeeps(p, Apply(p, s, steps[0]), steps[1..], n - 1);
    }
  }

  lemma InitialInv(p: Params, s: State)
    requires Initial(s)
    ensures Inv(p, s)
  {
    assert Completed(s.cache, s.entries) == {};
  }

  /** A cached fetch of the key that has not ended. */
  predicate InFlight(s: State, key: Key, e: EntryId) {
    e < |s.entries| && s.entries[e].key == key && s.entries[e].shared && !s.entries[e].complete
  }

  ghost predicate SingleFor(s: State, key: Key) {
    forall e, f: nat | InFlight(s, key, e) && InFlight(s, key, f) :: e == f
  }

  ghost predicate FlightsMapped(s: State, key: Key) {
    forall e: nat | InFlight(s, key, e) :: key in s.cache && s.cache[key] == e
  }

  /** A caller with another tag replaces a mapped entry that is still in flight. */
  predicate Supersedes(s: State, step: Step, key: Key) {
    step.Ask? && step.key == key && key in s.cache &&
    s.cache[key] < |s.entries| && !s.entries[s.cache[key]].complete && s.entries[s.cache[key]].tag != step.tag
  }

  lemma AskKeepsMapped(p: Params, s: State, step: Step, key: Key)
    requires Inv(p, s) && Enabled(p, s, step) && step.Ask? && FlightsMapped(s, key) && !Supersedes(s, step, key)
    ensures FlightsMapped(Apply(p, s, step), key)
  {
    var t := Apply(p, s, step);
    forall e: nat | InFlight(t, key, e) ensures key in t.cache && t.cache[key] == e {
      if e < |s.entries| {
        assert t.entries[e] == s.entries[e] && InFlight(s, key, e);
      }
    }
  }

  lemma FinishKeepsMapped(p: Params, s: State, step: Step, key: Key)
    requires WellFormed(p) && Inv(p, s) && Enabled(p, s, step) && step.Finish? && FlightsMapped(s, key)
    ensures FlightsMapped(Apply(p, s, step), key)
  {
    var t := Apply(p, s, step);
    var e := s.calls[step.call].phase.entry;
    var out := Validated(step.raw);
    assert CallSound(p, s, s.calls[step.call]);
    if s.entries[e].shared && out.Ok? { FinishOk(p, s, e, out); }
    forall i: nat | InFlight(t, key, i) ensures key in t.cache && t.cache[key] == i {
      assert i != e && t.entries[i] == s.entries[i] && InFlight(s, key, i);
      if !p.tagged && s.entries[e].shared { assert s.entries[e].key in s.cache && s.cache[s.entries[e].key] == e; }
    }
  }

  lemma StepKeepsMapped(p: Params, s: State, step: Step, key: Key)
    requires WellFormed(p) && Inv(p, s) && Enabled(p, s, step) && FlightsMapped(s, key) && !Supersedes(s, step, key)
    ensures FlightsMapped(Apply(p, s, step), key)
  {
    match step
    case Ask(_, _) => AskKeepsMapped(p, s, step, key);
    case Finish(_, _) => FinishKeepsMapped(p, s, step, key);
    case _ =>
      var t := Apply(p, s, step);
      assert t.entries == s.entries && t.cache == s.cache;
      assert forall e: nat :: InFlight(t, key, e) == InFlight(s, key, e);
  }

  /** The entry a lookup would make is cached. */
  predicate Cacheable(p: Params, s: State, key: Key) {
    !(p.fetchLimit.Some? && |s.cache - {key}| >= p.fetchLimit.value)
  }

  /** What a lookup adds to the flights of its key. */
  lemma AskFlights(p: Params, s: State, key: Key, tag: Tag, e: EntryId)
    requires Mapped(s.cache, s.entries) && Enabled(p, s, Ask(key, tag))
    ensures InFlight(Apply(p, s, Ask(key, tag)), key, e) <==>
            InFlight(s, key, e) || (e == |s.entries| && !Hit(p, s, key, tag) && Cacheable(p, s, key))
  {
    var t := Apply(p, s, Ask(key, tag));
    if e < |s.entries| { assert t.entries[e] == s.entries[e]; }
  }

  ghost predicate Flying(s: State, key: Key) {
    exists e: nat :: InFlight(s, key, e)
  }

  /** From a state where the key is single-flight, a lookup breaks that exactly when it misses, its own
      fetch is cached, and some cached fetch of the key has not ended. */
  lemma AskBreaksIff(p: Params, s: State, key: Key, tag: Tag)
    requires Mapped(s.cache, s.entries) && Enabled(p, s, Ask(key, tag)) && SingleFor(s, key)
    ensures !SingleFor(Apply(p, s, Ask(key, tag)), key) <==>
            !Hit(p, s, key, tag) && Cacheable(p, s, key) && Flying(s, key)
  {
    var t := Apply(p, s, Ask(key, tag));
    forall e: nat ensures InFlight(t, key, e) <==>
                          InFlight(s, key, e) || (e == |s.entries| && !Hit(p, s, key, tag) && Cacheable(p, s, key))
    {
      AskFlights(p, s, key, tag, e);
    }
    if Flying(s, key) && !Hit(p, s, key, tag) && Cacheable(p, s, key) {
      var e: nat :| InFlight(s, key, e);
      assert InFlight(t, key, e) && InFlight(t, key, |s.entries|);
    }
  }

  /** As long as no fetch of the key was ever superseded, that is exactly when the mapped entry is in
      flight with another tag. */
  lemma AskBreaksBySuperseding(p: Params, s: State, key: Key, tag: Tag)
    requires Inv(p, s) && Enabled(p, s, Ask(key, tag)) && FlightsMapped(s, key)
    ensures !SingleFor(Apply(p, s, Ask(key, tag)), key) <==> Supersedes(s, Ask(key, tag), key)
  {
    if Supersedes(s, Ask(key, tag), key) {
      SupersedingBreaks(p, s, Ask(key, tag), key);
    } else {
      AskKeepsMapped(p, s, Ask(key, tag), key);
    }
  }

  lemma MappedIsCacheable(p: Params, s: State, key: Key)
    requires Mapped(s.cache, s.entries) && Bounded(p, s) && key in s.cache
    ensures Cacheable(p, s, key)
  {
    var smaller := s.cache - {key};
    assert smaller.Keys == s.cache.Keys - {key};
    assert |smaller.Keys| == |s.cache.Keys| - 1;
  }

  lemma SupersedingBreaks(p: Params, s: State, step: Step, key: Key)
    requires Inv(p, s) && Enabled(p, s, step) && Supersedes(s, step, key)
    ensures !SingleFor(Apply(p, s, step), key)
  {
    var t, e := Apply(p, s, step), s.cache[key];
    MappedIsCacheable(p, s, key);
    assert t.entries[e] == s.entries[e];
    assert InFlight(t, key, e) && InFlight(t, key, |s.entries|);
  }

  lemma {:induction false} UnsupersededStaysMapped(p: Params, s: State, steps: seq<Step>, key: Key, n: nat)
    requires WellFormed(p) && Inv(p, s) && FlightsMapped(s, key) && IsRun(p, s, steps) && n <= |steps|
    requires NeverSuperseded(p, s, steps, key)
    ensures FlightsMapped(StateAt(p, s, steps, n), key)
    decreases n
  {
    if n > 0 {
      UnsupersededStaysMapped(p, s, steps, key, n - 1);
      StateAtKeeps(p, s, steps, n - 1);
      StateAtStep(p, s, steps, n - 1);
      StepKeepsMapped(p, StateAt(p, s, steps, n - 1), steps[n - 1], key);
    }
  }

  ghost predicate AlwaysSingle(p: Params, s: State, steps: seq<Step>, key: Key)
    requires IsRun(p, s, steps)
  {
    forall n: nat | n <= |steps| :: SingleFor(StateAt(p, s, steps, n), key)
  }

  ghost predicate NeverSuperseded(p: Params, s: State, steps: seq<Step>, key: Key)
    requires IsRun(p, s, steps)
  {
    forall n: nat | n < |steps| :: !Supersedes(StateAt(p, s, steps, n), steps[n], key)
  }

  /** In every run of every cache a key stays single-flight throughout exactly when no caller ever
      replaces an in-flight entry of that key by asking with another tag. */
  lemma SingleFlightIff(p: Params, s: State, steps: seq<Step>, key: Key)
    requires WellFormed(p) && Initial(s) && IsRun(p, s, steps)
    ensures AlwaysSingle(p, s, steps, key) <==> NeverSuperseded(p, s, steps, key)
  {
    if NeverSuperseded(p, s, steps, key) {
      InitialInv(p, s);
      forall n: nat | n <= |steps| ensures SingleFor(StateAt(p, s, steps, n), key) {
        UnsupersededStaysMapped(p, s, steps, key, n);
      }
    } else {
      var n: nat :| n < |steps| && Supersedes(StateAt(p, s, steps, n), steps[n], key);
      InitialInv(p, s);
      StateAtKeeps(p, s, steps, n);
      StateAtStep(p, s, steps, n);
      SupersedingBreaks(p, StateAt(p, s, steps, n), steps[n], key);
      assert !SingleFor(StateAt(p, s, steps, n + 1), key);
    }
  }

  /** Every lookup of the key in the run carries this tag. */
  predicate OneTag(steps: seq<Step>, key: Key, tag: Tag) {
    forall n | 0 <= n < |steps| && steps[n].Ask? && steps[n].key == key :: steps[n].tag == tag
  }

  predicate KeyTagged(s: State, key: Key, tag: Tag) {
    forall e | 0 <= e < |s.entries| && s.entries[e].key == key :: s.entries[e].tag == tag
  }

  lemma StepKeepsTag(p: Params, s: State, step: Step, key: Key, tag: Tag)
    requires Enabled(p, s, step) && KeyTagged(s, key, tag) && (step.Ask? && step.key == key ==> step.tag == tag)
    ensures KeyTagged(Apply(p, s, step), key, tag)
  {
    var t := Apply(p, s, step);
    forall e | 0 <= e < |t.entries| && t.entries[e].key == key ensures t.entries[e].tag == tag {
      if e < |s.entries| { assert t.entries[e].tag == s.entries[e].tag && t.entries[e].key == s.entries[e].key; }
    }
  }

  lemma {:induction false} OneTagEntries(p: Params, s: State, steps: seq<Step>, key: Key, tag: Tag, n: nat)
    requires KeyTagged(s, key, tag) && IsRun(p, s, steps) && n <= |steps| && OneTag(steps, key, tag)
    ensures KeyTagged(StateAt(p, s, steps, n), key, tag)
    decreases n
  {
    if n > 0 {
      OneTagEntries(p, s, steps, key, tag, n - 1);
      StateAtStep(p, s, steps, n - 1);
      StepKeepsTag(p, StateAt(p, s, steps, n - 1), steps[n - 1], key, tag);
    }
  }

  /** Callers that agree on the tag share one flight, in every cache, the committee cache included. */
  lemma AgreeingCallersShareFlight(p: Params, s: State, steps: seq<Step>, key: Key, tag: Tag)
    requires WellFormed(p) && Initial(s) && IsRun(p, s, steps) && OneTag(steps, key, tag)
    ensures AlwaysSingle(p, s, steps, key)
  {
    forall n: nat | n < |steps| ensures !Supersedes(StateAt(p, s, steps, n), steps[n], key) {
      OneTagEntries(p, s, steps, key, tag, n);
      StateAtStep(p, s, steps, n);
    }
    SingleFlightIff(p, s, steps, key);
  }

  /** Each entry not yet complete has a caller fetching it. */
  predicate Fetched(s: State) {
    forall e: nat | e < |s.entries| && !s.entries[e].complete ::
      exists c | 0 <= c < |s.calls| :: s.calls[c].phase == Fetching(e)
  }

  lemma StepKeepsFetched(p: Params, s: State, step: Step)
    requires Enabled(p, s, step) && Fetched(s)
    ensures Fetched(Apply(p, s, step))
  {
    var t := Apply(p, s, step);
    forall e: nat | e < |t.entries| && !t.entries[e].complete
      ensures exists c | 0 <= c < |t.calls| :: t.calls[c].phase == Fetching(e) {
      if e < |s.entries| {
        var c :| 0 <= c < |s.calls| && s.calls[c].phase == Fetching(e);
        assert t.calls[c].phase == Fetching(e);
      } else {
        assert t.calls[|s.calls|].phase == Fetching(e);
      }
    }
  }

  /** In every reachable state an entry in flight has a caller fetching it, so single flight of the
      entries is single flight of the requests. */
  lemma {:induction false} FlightsHaveFetchers(p: Params, s: State, steps: seq<Step>, n: nat)
    requires Fetched(s) && IsRun(p, s, steps) && n <= |steps|
    ensures Fetched(StateAt(p, s, steps, n))
    decreases n
  {
    if n > 0 {
      FlightsHaveFetchers(p, s, steps, n - 1);
      StateAtStep(p, s, steps, n - 1);
      StepKeepsFetched(p, StateAt(p, s, steps, n - 1), steps[n - 1]);
    }
  }

  /** Two callers fetching cached entries of the key at once. */
  predicate Overlap(s: State, key: Key, c: nat, d: nat) {
    && c < |s.calls| && d < |s.calls| && c != d && s.calls[c].phase.Fetching? && s.calls[d].phase.Fetching?
    && InFlight(s, key, s.calls[c].phase.entry) && InFlight(s, key, s.calls[d].phase.entry)
  }

  /** Single flight of the entries is single flight of the requests. */
  lemma SingleForCalls(s: State, key: Key)
    requires OneFetcher(s) && Fetched(s)
    ensures SingleFor(s, key) <==> forall c: nat, d: nat :: !Overlap(s, key, c, d)
  {
    if !SingleFor(s, key) {
      var e, f: nat :| InFlight(s, key, e) && InFlight(s, key, f) && e != f;
      var c :| 0 <= c < |s.calls| && s.calls[c].phase == Fetching(e);
      var d :| 0 <= d < |s.calls| && s.calls[d].phase == Fetching(f);
      assert Overlap(s, key, c, d);
    }
  }

  /** So no two requests for one slot and count overlap when the callers of that slot agree. */
  lemma AgreeingCallersFetchOnce(p: Params, s: State, steps: seq<Step>, key: Key, tag: Tag, c: nat, d: nat)
    requires WellFormed(p) && Initial(s) && IsRun(p, s, steps) && OneTag(steps, key, tag)
    ensures !Overlap(RunFrom(p, s, steps), key, c, d)
  {
    AgreeingCallersShareFlight(p, s, steps, key, tag);
    StateAtEnd(p, s, steps);
    InitialInv(p, s);
    StateAtKeeps(p, s, steps, |steps|);
    FlightsHaveFetchers(p, s, steps, |steps|);
    SingleForCalls(RunFrom(p, s, steps), key);
  }

  // ----------------------------------------------- where an answer comes from

  /** Step i ends the fetch that caller d runs for entry e. */
  ghost predicate EndsFlight(p: Params, s: State, steps: seq<Step>, e: EntryId, i: nat, d: nat)
    requires IsRun(p, s, steps)
  {
    && i < |steps| && steps[i].Finish? && steps[i].call == d
    && d < |StateAt(p, s, steps, i).calls| && StateAt(p, s, steps, i).calls[d].phase == Fetching(e)
  }

  predicate HasOutcome(s: State, e: EntryId, out: Outcome) {
    e < |s.entries| && s.entries[e].complete && s.entries[e].outcome == out
  }

  /** A fetch that is running has not ended. */
  predicate FetchesRunning(s: State) {
    forall c | 0 <= c < |s.calls| && s.calls[c].phase.Fetching? ::
      s.calls[c].phase.entry < |s.entries| && !s.entries[s.calls[c].phase.entry].complete
  }

  lemma StateAtRunning(p: Params, s: State, steps: seq<Step>, n: nat)
    requires WellFormed(p) && Initial(s) && IsRun(p, s, steps) && n <= |steps|
    ensures FetchesRunning(StateAt(p, s, steps, n))
  {
    InitialInv(p, s);
    StateAtKeeps(p, s, steps, n);
    var t := StateAt(p, s, steps, n);
    forall c | 0 <= c < |t.calls| && t.calls[c].phase.Fetching?
      ensures t.calls[c].phase.entry < |t.entries| && !t.entries[t.calls[c].phase.entry].complete
    {
      assert CallSound(p, t, t.calls[c]);
    }
  }

  /** The only step that gives an entry its outcome is the end of its own fetch, and none takes it back. */
  lemma OutcomeStep(p: Params, s: State, step: Step, e: EntryId, out: Outcome)
    requires Enabled(p, s, step) && FetchesRunning(s)
    ensures HasOutcome(Apply(p, s, step), e, out) <==>
            || HasOutcome(s, e, out)
            || (step.Finish? && s.calls[step.call].phase == Fetching(e) && Validated(step.raw) == out)
  {
  }

  /** A complete entry was completed by one step, the end of its own fetch. */
  lemma {:induction false} OutcomeHasFetch(p: Params, s: State, steps: seq<Step>, e: EntryId, out: Outcome, n: nat)
    returns (i: nat, d: nat)
    requires WellFormed(p) && Initial(s) && IsRun(p, s, steps) && n <= |steps| &&
             HasOutcome(StateAt(p, s, steps, n), e, out)
    ensures i < n && EndsFlight(p, s, steps, e, i, d) && Validated(steps[i].raw) == out
    decreases n
  {
    StateAtRunning(p, s, steps, n - 1);
    StateAtStep(p, s, steps, n - 1);
    OutcomeStep(p, StateAt(p, s, steps, n - 1), steps[n - 1], e, out);
    if HasOutcome(StateAt(p, s, steps, n - 1), e, out) {
      i, d := OutcomeHasFetch(p, s, steps, e, out, n - 1);
    } else {
      i, d := n - 1, steps[n - 1].call;
    }
  }

  lemma {:induction false} EndedStays(p: Params, s: State, steps: seq<Step>, e: EntryId, i: nat, d: nat, n: nat)
    requires WellFormed(p) && Initial(s) && IsRun(p, s, steps) && EndsFlight(p, s, steps, e, i, d) && i < n <= |steps|
    ensures HasOutcome(StateAt(p, s, steps, n), e, Validated(steps[i].raw))
    decreases n
  {
    StateAtRunning(p, s, steps, n - 1);
    StateAtStep(p, s, steps, n - 1);
    OutcomeStep(p, StateAt(p, s, steps, n - 1), steps[n - 1], e, Validated(steps[i].raw));
    if i < n - 1 { EndedStays(p, s, steps, e, i, d, n - 1); }
  }

  lemma FetchingBefore(p: Params, s: State, step: Step, d: nat, e: EntryId)
    requires Enabled(p, s, step) && e < |s.entries|
    requires d < |Apply(p, s, step).calls| && Apply(p, s, step).calls[d].phase == Fetching(e)
    ensures d < |s.calls| && s.calls[d].phase == Fetching(e)
  {
  }

  lemma EntriesGrow(p: Params, s: State, step: Step)
    requires Enabled(p, s, step)
    ensures |s.entries| <= |Apply(p, s, step).entries|
  {
  }

  /** A caller fetching an entry has been fetching it ever since the entry exists. */
  lemma {:induction false} FetchingEarlier(p: Params, s: State, steps: seq<Step>, d: nat, e: EntryId, n: nat, m: nat)
    requires IsRun(p, s, steps) && n <= m <= |steps| && e < |StateAt(p, s, steps, n).entries|
    requires d < |StateAt(p, s, steps, m).calls| && StateAt(p, s, steps, m).calls[d].phase == Fetching(e)
    ensures d < |StateAt(p, s, steps, n).calls| && StateAt(p, s, steps, n).calls[d].phase == Fetching(e)
    decreases m
  {
    if n < m {
      EntriesStay(p, s, steps, n, m - 1);
      StateAtStep(p, s, steps, m - 1);
      FetchingBefore(p, StateAt(p, s, steps, m - 1), steps[m - 1], d, e);
      FetchingEarlier(p, s, steps, d, e, n, m - 1);
    }
  }

  lemma {:induction false} EntriesStay(p: Params, s: State, steps: seq<Step>, n: nat, m: nat)
    requires IsRun(p, s, steps) && n <= m <= |steps|
    ensures |StateAt(p, s, steps, n).entries| <= |StateAt(p, s, steps, m).entries|
    decreases m
  {
    if n < m {
      EntriesStay(p, s, steps, n, m - 1);
      StateAtStep(p, s, steps, m - 1);
      EntriesGrow(p, StateAt(p, s, steps, m - 1), steps[m - 1]);
    }
  }

  ghost predicate FetchesAt(p: Params, s: State, steps: seq<Step>, c: nat, e: EntryId, n: nat)
    requires IsRun(p, s, steps)
  {
    n <= |steps| && c < |StateAt(p, s, steps, n).calls| && StateAt(p, s, steps, n).calls[c].phase == Fetching(e)
  }

  /** Each entry is fetched by one caller, over the whole run. */
  lemma OneFetcherEver(p: Params, s: State, steps: seq<Step>, c: nat, d: nat, e: EntryId, n: nat, m: nat)
    requires WellFormed(p) && Initial(s) && IsRun(p, s, steps) && n <= m
    requires FetchesAt(p, s, steps, c, e, n) && FetchesAt(p, s, steps, d, e, m)
    ensures c == d
  {
    InitialInv(p, s);
    StateAtKeeps(p, s, steps, n);
    var t := StateAt(p, s, steps, n);
    assert CallSound(p, t, t.calls[c]);
    FetchingEarlier(p, s, steps, d, e, n, m);
  }

  ghost predicate NeverFetches(p: Params, s: State, steps: seq<Step>, c: nat, e: EntryId)
    requires IsRun(p, s, steps)
  {
    forall n: nat :: !FetchesAt(p, s, steps, c, e, n)
  }

  /** Another caller's cancelled fetch of entry e. */
  ghost predicate CancelledByOther(p: Params, s: State, steps: seq<Step>, c: nat, e: EntryId)
    requires IsRun(p, s, steps)
  {
    exists i: nat, d: nat :: d != c && EndsFlight(p, s, steps, e, i, d) && steps[i].raw == Err(Cancelled)
  }

  lemma OtherCancelledBorrows(p: Params, s: State, steps: seq<Step>, c: nat, e: EntryId, i: nat, d: nat)
    requires WellFormed(p) && Initial(s) && IsRun(p, s, steps)
    requires d != c && EndsFlight(p, s, steps, e, i, d)
    ensures NeverFetches(p, s, steps, c, e)
  {
    forall n: nat | FetchesAt(p, s, steps, c, e, n) ensures false {
      if n <= i { OneFetcherEver(p, s, steps, c, d, e, n, i); } else { OneFetcherEver(p, s, steps, d, c, e, i, n); }
    }
  }

  /** In every run, a caller that stayed is answered with a cancellation that is not its own exactly when
      the fetch it was waiting on belonged to another caller and ended in that caller's cancellation. */
  lemma BorrowedCancellationIff(p: Params, s: State, steps: seq<Step>, c: nat)
    requires WellFormed(p) && Initial(s) && IsRun(p, s, steps)
    requires c < |RunFrom(p, s, steps).calls| && RunFrom(p, s, steps).calls[c].phase.Answered?
    ensures var call := RunFrom(p, s, steps).calls[c].phase;
            call.answer == Err(Cancelled) && NeverFetches(p, s, steps, c, call.entry) <==>
            CancelledByOther(p, s, steps, c, call.entry)
  {
    StateAtEnd(p, s, steps);
    InitialInv(p, s);
    StateAtKeeps(p, s, steps, |steps|);
    var t := RunFrom(p, s, steps);
    var e := t.calls[c].phase.entry;
    assert CallSound(p, t, t.calls[c]);
    if t.calls[c].phase.answer == Err(Cancelled) && NeverFetches(p, s, steps, c, e) {
      var i, d := OutcomeHasFetch(p, s, steps, e, Err(Cancelled), |steps|);
      assert FetchesAt(p, s, steps, d, e, i);
    }
    forall i: nat, d: nat | d != c && EndsFlight(p, s, steps, e, i, d) && steps[i].raw == Err(Cancelled)
      ensures t.calls[c].phase.answer == Err(Cancelled) && NeverFetches(p, s, steps, c, e)
    {
      EndedStays(p, s, steps, e, i, d, |steps|);
      OtherCancelledBorrows(p, s, steps, c, e, i, d);
    }
  }

  lemma RunCons(p: Params, s: State, step: Step, rest: seq<Step>)
    requires Enabled(p, s, step) && IsRun(p, Apply(p, s, step), rest)
    ensures IsRun(p, s, [step] + rest) && RunFrom(p, s, [step] + rest) == RunFrom(p, Apply(p, s, step), rest)
  {
    assert ([step] + rest)[1..] == rest;
  }

  /** The committee cache is not: callers that alternate between two counts keep superseding each
      other's entry, and one slot is then fetched twice at once with the same count. */
  lemma CommitteeCacheCanFetchTwice() returns (s: State, steps: seq<Step>)
    ensures Initial(s) && IsRun(COMMITTEES, s, steps)
    ensures var t := RunFrom(COMMITTEES, s, steps);
            && |t.calls| == 3 && t.calls[0].phase.Fetching? && t.calls[2].phase.Fetching?
            && t.calls[0].key == t.calls[2].key && t.calls[0].tag == t.calls[2].tag
  {
    s := State(0, map[], [], []);
    var s1 := Apply(COMMITTEES, s, Ask(7, 1));
    var s2 := Apply(COMMITTEES, s1, Ask(7, 2));
    var s3 := Apply(COMMITTEES, s2, Ask(7, 1));
    RunCons(COMMITTEES, s2, Ask(7, 1), []);
    steps := [Ask(7, 1)] + [];
    RunCons(COMMITTEES, s1, Ask(7, 2), steps);
    steps := [Ask(7, 2)] + steps;
    RunCons(COMMITTEES, s, Ask(7, 1), steps);
    steps := [Ask(7, 1)] + steps;
  }

  /** It happens in the block cache: two callers share a fetch, the first one's context ends it, and the
      second, still waiting, is handed that cancellation. */
  lemma WaiterGetsCancellation() returns (s: State, steps: seq<Step>)
    ensures Initial(s) && IsRun(BLOCKS, s, steps)
    ensures |RunFrom(BLOCKS, s, steps).calls| == 2
    ensures RunFrom(BLOCKS, s, steps).calls[1].phase == Answered(0, Err(Cancelled))
  {
    s := State(0, map[], [], []);
    var s1 := Apply(BLOCKS, s, Ask(7, 0));
    var s2 := Apply(BLOCKS, s1, Ask(7, 0));
    var s3 := Apply(BLOCKS, s2, Finish(0, Err(Cancelled)));
    RunCons(BLOCKS, s3, Deliver(1), []);
    steps := [Deliver(1)] + [];
    RunCons(BLOCKS, s2, Finish(0, Err(Cancelled)), steps);
    steps := [Finish(0, Err(Cancelled))] + steps;
    RunCons(BLOCKS, s1, Ask(7, 0), steps);
    steps := [Ask(7, 0)] + steps;
    RunCons(BLOCKS, s, Ask(7, 0), steps);
    steps := [Ask(7, 0)] + steps;
  }

  /** Superseding has an aftermath: when the replacement ends first, the key looks single-flight with a
      completed entry mapped, and the next lookup with a third count still overlaps the first fetch. */
  lemma SupersededFetchLingers() returns (s: State, steps: seq<Step>)
    ensures Initial(s) && IsRun(COMMITTEES, s, steps)
    ensures var t := RunFrom(COMMITTEES, s, steps);
            && SingleFor(t, 7) && !Supersedes(t, Ask(7, 3), 7)
            && Enabled(COMMITTEES, t, Ask(7, 3)) && !SingleFor(Apply(COMMITTEES, t, Ask(7, 3)), 7)
  {
    s := State(0, map[], [], []);
    var s3 := LingeringFlight();
    var done := Ok(Body(true, true, 0));
    var s1 := Apply(COMMITTEES, s, Ask(7, 1));
    var s2 := Apply(COMMITTEES, s1, Ask(7, 2));
    steps := [Ask(7, 1)] + ([Ask(7, 2)] + ([Finish(1, done)] + []));
    RunCons(COMMITTEES, s2, Finish(1, done), []);
    RunCons(COMMITTEES, s1, Ask(7, 2), [Finish(1, done)] + []);
    RunCons(COMMITTEES, s, Ask(7, 1), [Ask(7, 2)] + ([Finish(1, done)] + []));
    AskBreaksIff(COMMITTEES, s3, 7, 3);
  }

  lemma LingeringFlight() returns (s3: State)
    ensures var s1 := Apply(COMMITTEES, State(0, map[], [], []), Ask(7, 1));
            && Enabled(COMMITTEES, s1, Ask(7, 2))
            && var s2 := Apply(COMMITTEES, s1, Ask(7, 2));
            && Enabled(COMMITTEES, s2, Finish(1, Ok(Body(true, true, 0))))
            && s3 == Apply(COMMITTEES, s2, Finish(1, Ok(Body(true, true, 0))))
    ensures Mapped(s3.cache, s3.entries) && SingleFor(s3, 7) && Flying(s3, 7)
    ensures !Supersedes(s3, Ask(7, 3), 7) && !Hit(COMMITTEES, s3, 7, 3) && Cacheable(COMMITTEES, s3, 7)
  {
    var done := Ok(Body(true, true, 0));
    var s1 := Apply(COMMITTEES, State(0, map[], [], []), Ask(7, 1));
    var s2 := Apply(COMMITTEES, s1, Ask(7, 2));
    s3 := Apply(COMMITTEES, s2, Finish(1, done));
    assert |s2.cache| == 1 && s3.cache == s2.cache;
    assert InFlight(s3, 7, 0);
  }

  // ----------------------------------------------- the code that mutates maps

  // ---------------------------------------------------------------- reuse

  predicate MappedTo(s: State, key: Key, e: EntryId) {
    key in s.cache && s.cache[key] == e
  }

  /** The mapped entry serves a caller: it was asked for with the same tag, and it is in flight or
      younger than the cache's time to live. */
  predicate Serves(p: Params, s: State, key: Key, tag: Tag, e: EntryId) {
    && MappedTo(s, key, e) && e < |s.entries| && s.entries[e].tag == tag
    && (!s.entries[e].complete || p.ttl.None? || s.now < s.entries[e].fetched + p.ttl.value)
  }

  /** The caller waits on entry e, and nothing else changes. */
  predicate Joins(s: State, t: State, key: Key, tag: Tag, e: EntryId) {
    t == s.(calls := s.calls + [Call(key, tag, s.now, Waiting(e))])
  }

  /** The caller fetches into a new entry, which replaces the key's, unless as many other keys are
      mapped as may be: then it stays out of the map and the key is unmapped. */
  ghost predicate Fetches(p: Params, s: State, t: State, key: Key, tag: Tag) {
    var e := |s.entries|;
    && t.now == s.now && t.calls == s.calls + [Call(key, tag, s.now, Fetching(e))]
    && |t.entries| == e + 1 && t.entries[..e] == s.entries
    && t.entries[e].key == key && t.entries[e].tag == tag && !t.entries[e].complete
    && (MappedTo(t, key, e) <==> Cacheable(p, s, key)) && (key in t.cache ==> MappedTo(t, key, e))
    && (t.entries[e].shared <==> Cacheable(p, s, key))
    && forall k | k != key :: (k in t.cache <==> k in s.cache) && (k in s.cache ==> t.cache[k] == s.cache[k])
  }

  /** A caller joins the mapped entry exactly when that serves it, and fetches otherwise. */
  lemma AskReusesIff(p: Params, s: State, key: Key, tag: Tag)
    requires Enabled(p, s, Ask(key, tag))
    ensures var t := Apply(p, s, Ask(key, tag));
            if key in s.cache && Serves(p, s, key, tag, s.cache[key]) then Joins(s, t, key, tag, s.cache[key])
            else Fetches(p, s, t, key, tag)
  {
  }

  /** The step is a caller of the key that its mapped entry does not serve. */
  predicate Replaces(p: Params, s: State, step: Step, key: Key, e: EntryId) {
    step.Ask? && step.key == key && !Serves(p, s, key, step.tag, e)
  }

  /** The step ends a cached fetch in success with more entries mapped than the cache keeps, and trimming
      reaches this key. */
  ghost predicate TrimsAway(p: Params, s: State, step: Step, key: Key)
    requires Enabled(p, s, step)
  {
    && step.Finish? && Validated(step.raw).Ok? && s.entries[s.calls[step.call].phase.entry].shared
    && |s.cache| > p.keep && key !in Apply(p, s, step).cache
  }

  /** A completed entry leaves the map exactly by being replaced or trimmed away; it keeps its outcome. */
  lemma CompletedLeavesIff(p: Params, s: State, step: Step, key: Key, e: EntryId)
    requires WellFormed(p) && Inv(p, s) && Enabled(p, s, step)
    requires MappedTo(s, key, e) && s.entries[e].complete
    ensures var t := Apply(p, s, step);
            && |t.entries| > e && t.entries[e] == s.entries[e]
            && (MappedTo(t, key, e) <==> !Replaces(p, s, step, key, e) && !TrimsAway(p, s, step, key))
  {
    match step
    case Ask(k, tag) => AskReusesIff(p, s, k, tag);
    case Finish(c, raw) => FinishKeepsCompleted(p, s, c, raw, key, e);
    case _ =>
  }

  lemma FinishKeepsCompleted(p: Params, s: State, c: nat, raw: Outcome, key: Key, e: EntryId)
    requires WellFormed(p) && Inv(p, s) && Enabled(p, s, Finish(c, raw))
    requires MappedTo(s, key, e) && s.entries[e].complete
    ensures var t := Apply(p, s, Finish(c, raw));
            && |t.entries| > e && t.entries[e] == s.entries[e]
            && (MappedTo(t, key, e) <==> !TrimsAway(p, s, Finish(c, raw), key))
  {
    assert CallSound(p, s, s.calls[c]);
    var own := s.calls[c].phase.entry;
    var out := Validated(raw);
    if s.entries[own].shared && out.Ok? {
      TrimExactly(s.cache, Filled(s, own, out), p.keep);
    } else if s.entries[own].shared && !p.tagged {
      assert MappedTo(s, s.entries[own].key, own);
    }
  }

  /** Step n neither replaces the key's entry nor trims it away. */
  ghost predicate Spares(p: Params, s: State, steps: seq<Step>, key: Key, e: EntryId, n: nat)
    requires IsRun(p, s, steps) && n < |steps|
  {
    var at := StateAt(p, s, steps, n);
    Enabled(p, at, steps[n]) && !Replaces(p, at, steps[n], key, e) && !TrimsAway(p, at, steps[n], key)
  }

  /** The same of every step from i on, up to m. */
  ghost predicate Undisturbed(p: Params, s: State, steps: seq<Step>, key: Key, e: EntryId, i: nat, m: nat)
    requires IsRun(p, s, steps) && m <= |steps|
  {
    forall n: nat | i <= n < m :: Spares(p, s, steps, key, e, n)
  }

  /** Entry e is mapped to the key, complete, and exactly this. */
  predicate HoldsEntry(s: State, key: Key, e: EntryId, entry: Entry) {
    MappedTo(s, key, e) && e < |s.entries| && s.entries[e] == entry && entry.complete
  }

  lemma HeldStep(p: Params, s: State, step: Step, key: Key, e: EntryId, entry: Entry)
    requires WellFormed(p) && Inv(p, s) && Enabled(p, s, step) && HoldsEntry(s, key, e, entry)
    requires !Replaces(p, s, step, key, e) && !TrimsAway(p, s, step, key)
    ensures HoldsEntry(Apply(p, s, step), key, e, entry)
  {
    CompletedLeavesIff(p, s, step, key, e);
  }

  lemma {:induction false} UndisturbedStays(p: Params, s: State, steps: seq<Step>, key: Key, e: EntryId, entry: Entry,
                                            i: nat, m: nat)
    requires WellFormed(p) && Inv(p, s) && IsRun(p, s, steps) && i <= m <= |steps|
    requires HoldsEntry(StateAt(p, s, steps, i), key, e, entry) && Undisturbed(p, s, steps, key, e, i, m)
    ensures HoldsEntry(StateAt(p, s, steps, m), key, e, entry)
    decreases m - i
  {
    if i < m {
      assert Spares(p, s, steps, key, e, m - 1);
      UndisturbedStays(p, s, steps, key, e, entry, i, m - 1);
      StateAtKeeps(p, s, steps, m - 1);
      StateAtStep(p, s, steps, m - 1);
      HeldStep(p, StateAt(p, s, steps, m - 1), steps[m - 1], key, e, entry);
    }
  }

  /** In every run: a completed answer that is neither replaced nor trimmed away serves every caller with
      its tag exactly as long as it is young enough; none of them fetches again. */
  lemma AnswerIsReused(p: Params, s: State, steps: seq<Step>, key: Key, e: EntryId, entry: Entry, i: nat, m: nat)
    requires WellFormed(p) && Initial(s) && IsRun(p, s, steps) && i <= m < |steps|
    requires HoldsEntry(StateAt(p, s, steps, i), key, e, entry) && Undisturbed(p, s, steps, key, e, i, m)
    requires steps[m].Ask? && steps[m].key == key && steps[m].tag == entry.tag
    ensures var at := StateAt(p, s, steps, m);
            p.ttl.None? || at.now < entry.fetched + p.ttl.value <==>
            Joins(at, StateAt(p, s, steps, m + 1), key, entry.tag, e)
  {
    InitialInv(p, s);
    UndisturbedStays(p, s, steps, key, e, entry, i, m);
    StateAtStep(p, s, steps, m);
    AskReusesIff(p, StateAt(p, s, steps, m), key, entry.tag);
  }

  /** A cached fetch that ends in success is complete and, in the untagged caches, mapped to its key
      unless its own trim dropped it at once. */
  lemma SuccessIsCached(p: Params, s: State, c: nat, raw: Outcome)
    requires WellFormed(p) && Inv(p, s) && Enabled(p, s, Finish(c, raw)) && Validated(raw).Ok?
    requires MappedTo(s, s.entries[s.calls[c].phase.entry].key, s.calls[c].phase.entry)
    ensures var e, t := s.calls[c].phase.entry, Apply(p, s, Finish(c, raw));
            && t.entries[e] == s.entries[e].(complete := true, outcome := raw, fetched := s.now)
            && (MappedTo(t, s.entries[e].key, e) || |s.cache| > p.keep)
  {
    var e := s.calls[c].phase.entry;
    assert s.entries[e].shared;
  }

  /** The cache fields of the client and the critical sections that update them. */
  class Cache {
    const params: Params
    var cache: map<Key, EntryId>
    var entries: seq<Entry>

    constructor (params: Params)
      ensures this.params == params && cache == map[] && entries == []
    {
      this.params := params;
      cache, entries := map[], [];
    }

    ghost predicate Holds(s: State) reads this {
      cache == s.cache && entries == s.entries && Mapped(cache, entries)
    }

    method AskSection(key: Key, tag: Tag, now: int, ghost s: State) returns (wait: bool, entry: EntryId)
      requires Holds(s) && Enabled(params, s, Ask(key, tag)) && now == s.now
      modifies this
      ensures cache == Apply(params, s, Ask(key, tag)).cache && entries == Apply(params, s, Ask(key, tag)).entries
      ensures Apply(params, s, Ask(key, tag)).calls ==
              s.calls + [Call(key, tag, now, if wait then Waiting(entry) else Fetching(entry))]
    {
      if key in cache {
        var e := entries[cache[key]];
        assert e == s.entries[s.cache[key]];
        if e.tag == tag && (!e.complete || params.ttl.None? || now - e.fetched < params.ttl.value) {
          assert Hit(params, s, key, tag);
          return true, cache[key];
        }
      }
      assert !Hit(params, s, key, tag);
      cache := cache - {key};
      wait, entry := false, |entries|;
      var shared := !(params.fetchLimit.Some? && |cache| >= params.fetchLimit.value);
      entries := entries + [Entry(key, tag, shared, false, Err(Failed), 0)];
      if shared { cache := cache[key := entry]; }
    }

    /** Scans the map in whatever order it comes. */
    method OldestComplete() returns (oldest: Key, have: bool)
      requires Mapped(cache, entries)
      ensures have <==> Completed(cache, entries) != {}
      ensures have ==> oldest == Least(Completed(cache, entries))
    {
      oldest, have := 0, false;
      var todo := cache.Keys;
      ghost var done := Completed(cache, entries);
      while todo != {}
        invariant todo <= cache.Keys
        invariant !have ==> done <= todo
        invariant have ==> IsLeast(done - todo, oldest)
        decreases |todo|
      {
        var slot :| slot in todo;
        ghost var seen := done - todo;
        if slot in cache && entries[cache[slot]].complete && (!have || slot < oldest) {
          oldest, have := slot, true;
        }
        todo := todo - {slot};
        assert forall k | k in done - todo :: k in seen || k == slot;
      }
      assert done - todo == done;
    }

    method TrimLocked()
      requires Mapped(cache, entries)
      modifies `cache
      ensures cache == old(Trim(cache, entries, params.keep))
    {
      while |cache| > params.keep
        invariant Mapped(cache, entries)
        invariant Trim(cache, entries, params.keep) == old(Trim(cache, entries, params.keep))
        decreases |cache|
      {
        var oldest, have := OldestComplete();
        if !have { return; }
        ghost var before := cache;
        cache := cache - {oldest};
        assert cache.Keys == before.Keys - {oldest};
      }
    }

    method FinishSection(c: nat, raw: Outcome, now: int, entry: EntryId, ghost s: State)
      requires Holds(s) && Enabled(params, s, Finish(c, raw)) && now == s.now && entry == s.calls[c].phase.entry
      modifies this
      ensures cache == Apply(params, s, Finish(c, raw)).cache && entries == Apply(params, s, Finish(c, raw)).entries
    {
      var out := Validated(raw);
      var e := entries[entry];
      entries := entries[entry := e.(complete := true, outcome := out, fetched := now)];
      if e.shared {
        if out.Ok? {
          TrimLocked();
        } else if !params.guarded || (e.key in cache && cache[e.key] == entry) {
          cache := cache - {e.key};
        }
      }
    }
  }
}
