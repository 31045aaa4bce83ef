/** Choosing one validator's duty out of a slot's observations, and what reaches the assembler and
    the engine from there (internal/app/timeline.go). */
module DutySelection {
  import opened Text
  import opened Sets
  import opened Domain
  import opened Facts
  import opened Assembly
  import opened AssemblyTheorems
  import Rules
  import Verdicts
  import Engine

  type Validator = Slot

  datatype Error =
    | BadAssignment
    | NotAssigned(validator: Validator)
    | Ambiguous(validators: set<Validator>)
    | BadScoped(kind: Kind)

  datatype Selection = Selected(observations: seq<Observation>, duty: Option<Duty>) | Refused(error: Error)

  predicate DutyScoped(kind: Kind) {
    match kind
    case DutyAssigned | AttestationPublished | AttestationIncluded | BlockProposed | CollectionCompleted => true
    case _ => false
  }

  function ValidatorOf(o: Observation): Option<Validator> {
    match o.Attr(ATTR_VALIDATOR_INDEX)
    case None => None
    case Some(text) => ParseUint(text)
  }

  // -------------------------------------------------------- the two loops

  predicate AssignmentsReadable(obs: seq<Observation>) {
    forall i | 0 <= i < |obs| && obs[i].kind == DutyAssigned :: ValidatorOf(obs[i]).Some?
  }

  function AssignedIn(obs: seq<Observation>): set<Validator> {
    if obs == [] then {}
    else
      var o := obs[|obs| - 1];
      AssignedIn(obs[..|obs| - 1]) +
      (if o.kind == DutyAssigned && ValidatorOf(o).Some? then {ValidatorOf(o).value} else {})
  }

  method CollectAssigned(obs: seq<Observation>) returns (ok: bool, owners: set<Validator>)
    ensures ok <==> AssignmentsReadable(obs)
    ensures ok ==> owners == AssignedIn(obs)
  {
    owners := {};
    for i := 0 to |obs|
      invariant AssignmentsReadable(obs[..i]) && owners == AssignedIn(obs[..i])
    {
      assert obs[..i + 1][..i] == obs[..i];
      if obs[i].kind != DutyAssigned { continue; }
      match ValidatorOf(obs[i]) {
        case None => return false, {};
        case Some(v) => owners := owners + {v};
      }
    }
    assert obs[..|obs|] == obs;
    ok := true;
  }

  datatype Filtered = Kept(observations: seq<Observation>) | Bad(kind: Kind)

  /** One observation's share of the filtered list, or None when its index cannot be read. */
  function Keep(o: Observation, selected: Option<Validator>, alone: bool): Option<seq<Observation>> {
    if !DutyScoped(o.kind) then Some([o])
    else match ValidatorOf(o)
      case None => if o.kind == CollectionCompleted && selected.Some? && alone then Some([o]) else None
      case Some(v) => Some(if selected == Some(v) then [o] else [])
  }

  function Filter(obs: seq<Observation>, selected: Option<Validator>, alone: bool): Filtered {
    if obs == [] then Kept([])
    else
      match Filter(obs[..|obs| - 1], selected, alone)
      case Bad(k) => Bad(k)
      case Kept(before) =>
        var o := obs[|obs| - 1];
        match Keep(o, selected, alone)
        case None => Bad(o.kind)
        case Some(own) => Kept(before + own)
  }

  lemma {:induction false} FilterStaysBad(obs: seq<Observation>, i: nat, selected: Option<Validator>, alone: bool)
    requires i <= |obs| && Filter(obs[..i], selected, alone).Bad?
    ensures Filter(obs, selected, alone) == Filter(obs[..i], selected, alone)
    decreases |obs|
  {
    if i < |obs| {
      assert obs[..|obs| - 1][..i] == obs[..i];
      FilterStaysBad(obs[..|obs| - 1], i, selected, alone);
    } else {
      assert obs[..i] == obs;
    }
  }

  method FilterLoop(obs: seq<Observation>, selected: Option<Validator>, alone: bool) returns (r: Filtered)
    ensures r == Filter(obs, selected, alone)
  {
    var filtered := [];
    for i := 0 to |obs|
      invariant Filter(obs[..i], selected, alone) == Kept(filtered)
    {
      var o := obs[i];
      assert obs[..i + 1][..i] == obs[..i];
      if !DutyScoped(o.kind) {
        filtered := filtered + [o];
        continue;
      }
      match ValidatorOf(o) {
        case None =>
          if o.kind == CollectionCompleted && selected.Some? && alone {
            filtered := filtered + [o];
          } else {
            FilterStaysBad(obs, i + 1, selected, alone);
            return Bad(o.kind);
          }
        case Some(v) =>
          if selected == Some(v) { filtered := filtered + [o]; }
      }
    }
    assert obs[..|obs|] == obs;
    r := Kept(filtered);
  }

  // ------------------------------------------------------------ selection

  lemma OnlyMember(s: set<Validator>, v: Validator, w: Validator)
    requires |s| == 1 && v in s && w in s
    ensures v == w
  {
    assert |s - {v}| == 0;
    assert w !in s - {v};
  }

  function Sole(s: set<Validator>): (v: Validator)
    requires |s| == 1
    ensures s == {v}
  {
    assert s != {};
    assert forall a, b | a in s && b in s :: a == b by {
      forall a, b | a in s && b in s ensures a == b { OnlyMember(s, a, b); }
    }
    var v :| v in s;
    v
  }

  function Select(slot: Slot, obs: seq<Observation>, requested: Option<Validator>): Selection {
    var owners := AssignedIn(obs);
    if !AssignmentsReadable(obs) then Refused(BadAssignment)
    else if requested.Some? && requested.value !in owners then Refused(NotAssigned(requested.value))
    else if requested.None? && |owners| > 1 then Refused(Ambiguous(owners))
    else
      var selected := if requested.Some? then requested else if |owners| == 1 then Some(Sole(owners)) else None;
      match Filter(obs, selected, |owners| == 1)
      case Bad(kind) => Refused(BadScoped(kind))
      case Kept(filtered) =>
        Selected(filtered, if selected.Some? then Some(Duty(Attester, slot, selected.value)) else None)
  }

  method SelectDutyObservations(slot: Slot, obs: seq<Observation>, requested: Option<Validator>) returns (r: Selection)
    ensures r == Select(slot, obs, requested)
  {
    var readable, owners := CollectAssigned(obs);
    if !readable { return Refused(BadAssignment); }
    var selected: Option<Validator> := None;
    if requested.Some? {
      if requested.value !in owners { return Refused(NotAssigned(requested.value)); }
      selected := requested;
    } else if |owners| == 1 {
      var v :| v in owners;
      selected := Some(v);
    } else if |owners| > 1 {
      return Refused(Ambiguous(owners));
    }
    var filtered := FilterLoop(obs, selected, |owners| == 1);
    match filtered {
      case Bad(kind) => r := Refused(BadScoped(kind));
      case Kept(kept) =>
        r := Selected(kept, if selected.Some? then Some(Duty(Attester, slot, selected.value)) else None);
    }
  }

  // ------------------------------------------------- who a record is about

  /** Attributes are those of the kind, as in every record the store reads back. */
  predicate Permitted(obs: seq<Observation>) {
    forall i | 0 <= i < |obs| :: obs[i].attrs.Keys <= PermittedAttrs(obs[i].kind)
  }

  /** The kinds whose records may name a validator. */
  predicate MayName(kind: Kind) {
    ATTR_VALIDATOR_INDEX in PermittedAttrs(kind)
  }

  /** Those are exactly the kinds selection treats as duty-scoped. */
  lemma ScopedIff(kind: Kind)
    ensures DutyScoped(kind) <==> MayName(kind)
  {
    assert |ATTR_VALIDATOR_INDEX| == 15 && ATTR_VALIDATOR_INDEX[0] == 'v';
    assert |ATTR_BLOCK_ROOT| == 10 && |ATTR_PROPOSER_INDEX| == 14 && |ATTR_PEER_COUNT| == 10 && |ATTR_METRIC| == 6;
    assert |ATTR_ENGINE_METHOD| == 13 && |ATTR_DURATION_MS| == 11 && |ATTR_SAMPLE_COUNT| == 12 && |ATTR_VALUE| == 5;
    assert |ATTR_BLOCK_ARRIVAL_P50_MS| == 20 && |ATTR_BLOCK_ARRIVAL_P90_MS| == 20;
    assert ATTR_PAYLOAD_PRESENT[0] == 'p' && |ATTR_PTC_VOTES| == 9;
  }

  /** Attributed to another validator. */
  predicate Foreign(o: Observation, v: Validator) {
    ValidatorOf(o).Some? && ValidatorOf(o).value != v
  }

  /** The slot without the records of other validators. */
  function Only(obs: seq<Observation>, v: Validator): seq<Observation> {
    if obs == [] then []
    else
      var o := obs[|obs| - 1];
      Only(obs[..|obs| - 1], v) + (if Foreign(o, v) then [] else [o])
  }

  /** The slot without the records of any validator. */
  function Unnamed(obs: seq<Observation>): seq<Observation> {
    if obs == [] then []
    else
      var o := obs[|obs| - 1];
      Unnamed(obs[..|obs| - 1]) + (if ValidatorOf(o).Some? then [] else [o])
  }

  /** A record that should name a validator and cannot be read. */
  predicate Unreadable(o: Observation) {
    MayName(o.kind) && ValidatorOf(o).None?
  }

  predicate Assigns(o: Observation, v: Validator) {
    o.kind == DutyAssigned && ValidatorOf(o) == Some(v)
  }

  predicate AssignedTo(obs: seq<Observation>, v: Validator) {
    exists o | o in obs :: Assigns(o, v)
  }

  lemma {:induction false} AssignedMembers(obs: seq<Observation>, v: Validator)
    ensures v in AssignedIn(obs) <==> AssignedTo(obs, v)
  {
    if obs != [] {
      var n := |obs| - 1;
      AssignedMembers(obs[..n], v);
      assert obs == obs[..n] + [obs[n]];
      if v in AssignedIn(obs) {
        if v in AssignedIn(obs[..n]) {
          var o :| o in obs[..n] && Assigns(o, v);
          assert o in obs;
        } else {
          assert Assigns(obs[n], v);
        }
      } else {
        assert !Assigns(obs[n], v);
      }
    }
  }

  /** The validator alone has a duty in the slot. */
  predicate AssignedAlone(obs: seq<Observation>, v: Validator) {
    AssignedTo(obs, v) &&
    forall o | o in obs && o.kind == DutyAssigned && ValidatorOf(o).Some? :: ValidatorOf(o).value == v
  }

  lemma AloneIff(obs: seq<Observation>, v: Validator)
    requires AssignedTo(obs, v)
    ensures |AssignedIn(obs)| == 1 <==> AssignedAlone(obs, v)
  {
    var owners := AssignedIn(obs);
    AssignedMembers(obs, v);
    forall o | o in obs && o.kind == DutyAssigned && ValidatorOf(o).Some? ensures ValidatorOf(o).value in owners {
      AssignedMembers(obs, ValidatorOf(o).value);
      assert Assigns(o, ValidatorOf(o).value);
    }
    if |owners| == 1 {
      forall w | w in owners ensures w == v { OnlyMember(owners, v, w); }
    }
    if AssignedAlone(obs, v) {
      forall w | w in owners ensures w == v { AssignedMembers(obs, w); }
      assert owners == {v};
    }
  }

  // ------------------------------------------------------------- isolation

  lemma KeepIs(o: Observation, v: Validator, alone: bool)
    requires o.attrs.Keys <= PermittedAttrs(o.kind)
    ensures Keep(o, Some(v), alone).Some? ==> Keep(o, Some(v), alone).value == if Foreign(o, v) then [] else [o]
    ensures Keep(o, Some(v), alone).None? <==> Unreadable(o) && !(o.kind == CollectionCompleted && alone)
  {
    ScopedIff(o.kind);
  }

  lemma {:induction false} FilterKeepsOnly(obs: seq<Observation>, v: Validator, alone: bool)
    requires Permitted(obs) && Filter(obs, Some(v), alone).Kept?
    ensures Filter(obs, Some(v), alone).observations == Only(obs, v)
  {
    if obs != [] {
      var n := |obs| - 1;
      assert forall i | 0 <= i < n :: obs[..n][i] == obs[i];
      FilterKeepsOnly(obs[..n], v, alone);
      KeepIs(obs[n], v, alone);
    }
  }

  lemma {:induction false} FilterKeepsUnnamed(obs: seq<Observation>, alone: bool)
    requires Permitted(obs) && Filter(obs, None, alone).Kept?
    ensures Filter(obs, None, alone).observations == Unnamed(obs)
  {
    if obs != [] {
      var n := |obs| - 1;
      assert forall i | 0 <= i < n :: obs[..n][i] == obs[i];
      FilterKeepsUnnamed(obs[..n], alone);
      ScopedIff(obs[n].kind);
    }
  }

  /** Where the filter fails: at the first unreadable record it has no excuse for. */
  predicate Refuses(obs: seq<Observation>, alone: bool, i: nat) {
    && i < |obs| && Unreadable(obs[i]) && !(obs[i].kind == CollectionCompleted && alone)
    && forall j | 0 <= j < i && Unreadable(obs[j]) :: obs[j].kind == CollectionCompleted && alone
  }

  predicate NoneRefused(obs: seq<Observation>, alone: bool) {
    forall j | 0 <= j < |obs| && Unreadable(obs[j]) :: obs[j].kind == CollectionCompleted && alone
  }

  lemma {:induction false} FilterFails(obs: seq<Observation>, v: Validator, alone: bool)
    requires Permitted(obs)
    ensures match Filter(obs, Some(v), alone)
            case Kept(_) => NoneRefused(obs, alone)
            case Bad(kind) => exists i: nat :: Refuses(obs, alone, i) && obs[i].kind == kind
  {
    if obs != [] {
      var n := |obs| - 1;
      assert forall i | 0 <= i < n :: obs[..n][i] == obs[i];
      FilterFails(obs[..n], v, alone);
      KeepIs(obs[n], v, alone);
      match Filter(obs[..n], Some(v), alone) {
        case Bad(kind) =>
          var i: nat :| Refuses(obs[..n], alone, i) && obs[..n][i].kind == kind;
          assert Refuses(obs, alone, i);
        case Kept(_) =>
          if Filter(obs, Some(v), alone).Bad? { assert Refuses(obs, alone, n); }
      }
    }
  }

  predicate AssignmentUnreadable(obs: seq<Observation>) {
    exists o | o in obs :: o.kind == DutyAssigned && ValidatorOf(o).None?
  }

  /** What selection for a requested validator answers, on the records alone. */
  ghost predicate SelectionIs(slot: Slot, obs: seq<Observation>, v: Validator, r: Selection) {
    if AssignmentUnreadable(obs) then r == Refused(BadAssignment)
    else if !AssignedTo(obs, v) then r == Refused(NotAssigned(v))
    else if NoneRefused(obs, AssignedAlone(obs, v)) then r == Selected(Only(obs, v), Some(Duty(Attester, slot, v)))
    else exists i: nat :: Refuses(obs, AssignedAlone(obs, v), i) && r == Refused(BadScoped(obs[i].kind))
  }

  /** Selection for a requested validator keeps exactly the records not attributed to another one, in
      order.  It refuses exactly when an assignment cannot be read, the validator has none, or another
      record that should name a validator cannot be read; a completion marker may, where nobody else
      has a duty. */
  lemma SelectsExactly(slot: Slot, obs: seq<Observation>, v: Validator)
    requires Permitted(obs)
    ensures SelectionIs(slot, obs, v, Select(slot, obs, Some(v)))
  {
    AssignedMembers(obs, v);
    if AssignmentsReadable(obs) && AssignedTo(obs, v) {
      AloneIff(obs, v);
      var alone := |AssignedIn(obs)| == 1;
      FilterFails(obs, v, alone);
      if Filter(obs, Some(v), alone).Kept? { FilterKeepsOnly(obs, v, alone); }
    }
  }

  /** Without a request the only validator assigned is selected. */
  lemma AutoSelectsTheOnlyDuty(slot: Slot, obs: seq<Observation>, v: Validator)
    requires AssignedAlone(obs, v)
    ensures Select(slot, obs, None) == Select(slot, obs, Some(v))
  {
    AssignedMembers(obs, v);
    AloneIff(obs, v);
    OnlyMember(AssignedIn(obs), v, Sole(AssignedIn(obs)));
  }

  lemma {:induction false} UnnamedFilterFails(obs: seq<Observation>)
    requires Permitted(obs)
    ensures Filter(obs, None, false).Kept? <==> AllReadable(obs)
  {
    if obs != [] {
      var n := |obs| - 1;
      assert forall i | 0 <= i < n :: obs[..n][i] == obs[i];
      UnnamedFilterFails(obs[..n]);
      ScopedIff(obs[n].kind);
    }
  }

  lemma ReadableAssignments(obs: seq<Observation>)
    ensures AssignmentsReadable(obs) <==> !AssignmentUnreadable(obs)
    ensures AllReadable(obs) ==> AssignmentsReadable(obs)
  {
    ScopedIff(DutyAssigned);
  }

  lemma NobodyAssigned(obs: seq<Observation>)
    requires forall v: Validator :: !AssignedTo(obs, v)
    ensures AssignedIn(obs) == {}
  {
    forall v: Validator ensures v !in AssignedIn(obs) { AssignedMembers(obs, v); }
  }

  lemma SelectNobody(slot: Slot, obs: seq<Observation>)
    requires AssignedIn(obs) == {}
    ensures Select(slot, obs, None) ==
            if !AssignmentsReadable(obs) then Refused(BadAssignment)
            else match Filter(obs, None, false)
              case Bad(kind) => Refused(BadScoped(kind))
              case Kept(kept) => Selected(kept, None)
  {
  }

  predicate AllReadable(obs: seq<Observation>) {
    forall j | 0 <= j < |obs| :: !Unreadable(obs[j])
  }

  /** With nobody assigned and every record readable, no record of any validator is kept. */
  lemma NoDutyKeepsUnnamed(slot: Slot, obs: seq<Observation>)
    requires Permitted(obs) && forall v: Validator :: !AssignedTo(obs, v)
    ensures Select(slot, obs, None).Selected? <==> AllReadable(obs)
    ensures Select(slot, obs, None).Selected? ==> Select(slot, obs, None) == Selected(Unnamed(obs), None)
  {
    NobodyAssigned(obs);
    SelectNobody(slot, obs);
    ReadableAssignments(obs);
    UnnamedFilterFails(obs);
    if Filter(obs, None, false).Kept? { FilterKeepsUnnamed(obs, false); }
  }

  /** With several assigned it refuses, and names them all. */
  lemma SeveralDutiesAreRefused(slot: Slot, obs: seq<Observation>, v: Validator, w: Validator)
    returns (all: set<Validator>)
    requires !AssignmentUnreadable(obs) && v != w && AssignedTo(obs, v) && AssignedTo(obs, w)
    ensures Select(slot, obs, None) == Refused(Ambiguous(all))
    ensures forall x: Validator :: x in all <==> AssignedTo(obs, x)
  {
    all := AssignedIn(obs);
    forall x: Validator ensures x in all <==> AssignedTo(obs, x) { AssignedMembers(obs, x); }
    SubsetSize({v, w}, all);
  }

  lemma {:induction false} OnlyMembers(obs: seq<Observation>, v: Validator, o: Observation)
    ensures o in Only(obs, v) <==> o in obs && !Foreign(o, v)
  {
    if obs != [] {
      OnlyMembers(obs[..|obs| - 1], v, o);
      assert obs == obs[..|obs| - 1] + [obs[|obs| - 1]];
    }
  }

  /** No selected record is attributed to another validator. */
  lemma SelectionAdmits(slot: Slot, obs: seq<Observation>, v: Validator, o: Observation)
    requires Permitted(obs) && Select(slot, obs, Some(v)).Selected? && o in Select(slot, obs, Some(v)).observations
    ensures o in obs && !Foreign(o, v)
  {
    SelectsExactly(slot, obs, v);
    OnlyMembers(obs, v, o);
  }

  function AddKept(before: Filtered, o: Observation, own: Option<seq<Observation>>): Filtered {
    match before
    case Bad(k) => Bad(k)
    case Kept(kept) => if own.None? then Bad(o.kind) else Kept(kept + own.value)
  }

  lemma FilterStep(obs: seq<Observation>, o: Observation, v: Validator, alone: bool)
    ensures Filter(obs + [o], Some(v), alone) == AddKept(Filter(obs, Some(v), alone), o, Keep(o, Some(v), alone))
  {
    assert (obs + [o])[..|obs|] == obs;
  }

  lemma {:induction false} FilterOfOnly(obs: seq<Observation>, v: Validator, alone: bool)
    requires Permitted(obs)
    ensures Filter(Only(obs, v), Some(v), alone) == Filter(obs, Some(v), alone)
  {
    if obs != [] {
      var n := |obs| - 1;
      assert forall i | 0 <= i < n :: obs[..n][i] == obs[i];
      FilterOfOnly(obs[..n], v, alone);
      KeepIs(obs[n], v, alone);
      assert obs == obs[..n] + [obs[n]];
      FilterStep(obs[..n], obs[n], v, alone);
      FilterStep(Only(obs[..n], v), obs[n], v, alone);
      if Foreign(obs[n], v) {
        var kept := Filter(obs[..n], Some(v), alone);
        assert Only(obs, v) == Only(obs[..n], v);
        assert kept.Kept? ==> kept.observations + [] == kept.observations;
      }
    }
  }

  /** The first unreadable record is a completion marker. */
  ghost predicate MarkerFirst(obs: seq<Observation>) {
    exists i: nat :: FirstUnreadable(obs, i) && obs[i].kind == CollectionCompleted
  }

  predicate FirstUnreadable(obs: seq<Observation>, i: nat) {
    i < |obs| && Unreadable(obs[i]) && forall j | 0 <= j < i :: !Unreadable(obs[j])
  }

  /** Being alone makes a difference to the filter exactly when the first unreadable record is a marker. */
  lemma AloneMattersIff(obs: seq<Observation>, v: Validator)
    requires Permitted(obs)
    ensures Filter(obs, Some(v), true) != Filter(obs, Some(v), false) <==> MarkerFirst(obs)
  {
    FilterFails(obs, v, true);
    FilterFails(obs, v, false);
    var strict, lenient := Filter(obs, Some(v), false), Filter(obs, Some(v), true);
    if strict.Kept? {
      FilterKeepsOnly(obs, v, false);
      FilterKeepsOnly(obs, v, true);
    } else {
      var i: nat :| Refuses(obs, false, i) && obs[i].kind == strict.kind;
      assert FirstUnreadable(obs, i);
      assert MarkerFirst(obs) <==> obs[i].kind == CollectionCompleted;
      if lenient.Bad? {
        var k: nat :| Refuses(obs, true, k) && obs[k].kind == lenient.kind;
      }
    }
  }

  lemma OnlyAssignments(obs: seq<Observation>, v: Validator)
    ensures AssignmentUnreadable(Only(obs, v)) <==> AssignmentUnreadable(obs)
    ensures AssignedTo(Only(obs, v), v) <==> AssignedTo(obs, v)
    ensures AssignedTo(obs, v) ==> AssignedAlone(Only(obs, v), v)
  {
    forall o ensures o in Only(obs, v) <==> o in obs && !Foreign(o, v) { OnlyMembers(obs, v, o); }
  }

  /** A marker without a validator settles the matter only because nobody else has a duty. */
  ghost predicate MarkerDecides(obs: seq<Observation>, v: Validator) {
    !AssignmentUnreadable(obs) && AssignedTo(obs, v) && !AssignedAlone(obs, v) && MarkerFirst(obs)
  }

  lemma SelectIs(slot: Slot, obs: seq<Observation>, v: Validator)
    ensures Select(slot, obs, Some(v)) ==
            if AssignmentUnreadable(obs) then Refused(BadAssignment)
            else if !AssignedTo(obs, v) then Refused(NotAssigned(v))
            else match Filter(obs, Some(v), AssignedAlone(obs, v))
              case Bad(kind) => Refused(BadScoped(kind))
              case Kept(kept) => Selected(kept, Some(Duty(Attester, slot, v)))
  {
    AssignedMembers(obs, v);
    if AssignedTo(obs, v) { AloneIff(obs, v); }
  }

  /** Removing every record attributed to another validator changes neither the selected list, nor the
      duty, nor the error: exactly unless a marker without a validator comes first among unreadable
      records of a slot where others have duties too. */
  lemma OthersDoNotMatterIff(slot: Slot, obs: seq<Observation>, v: Validator)
    requires Permitted(obs)
    ensures Select(slot, Only(obs, v), Some(v)) == Select(slot, obs, Some(v)) <==> !MarkerDecides(obs, v)
  {
    SelectIs(slot, obs, v);
    SelectIs(slot, Only(obs, v), v);
    OnlyAssignments(obs, v);
    FilterOfOnly(obs, v, true);
    AloneMattersIff(obs, v);
  }

  // -------------------------------------------------- from facts to verdict

  /** What the store holds besides the slot's own observations, and the decoder of baselines: each an
      arbitrary function, so that what follows holds for every store. */
  datatype Store = Store(
    schedule: Schedule, reorgs: seq<Observation>, samplesFrom: Instant -> seq<Sample>,
    decode: Observation -> Option<Baseline>)

  /** The additions made for the selected observations, or None when a baseline cannot be decoded. */
  function Additions(obs: seq<Observation>, decode: Observation -> Option<Baseline>): Option<seq<Call>> {
    if obs == [] then Some([])
    else
      match Additions(obs[..|obs| - 1], decode)
      case None => None
      case Some(before) =>
        var o := obs[|obs| - 1];
        if o.kind != NetworkBaselineSampled then Some(before + [AddObservation(o)])
        else match decode(o)
          case None => None
          case Some(n) => Some(before + [AddObservation(o), SetNetwork(n)])
  }

  function DutyCall(duty: Option<Duty>): seq<Call> {
    if duty.Some? then [SetDuty(duty.value)] else []
  }

  function Calls(slot: Slot, chosen: Selection, slotStart: Instant, store: Store): Option<seq<Call>>
    requires chosen.Selected?
  {
    match Additions(chosen.observations, store.decode)
    case None => None
    case Some(adds) =>
      var reorgs := if chosen.duty.Some? then store.reorgs else [];
      var samples := store.samplesFrom(slotStart);
      Some(adds + seq(|reorgs|, i requires 0 <= i < |reorgs| => AddObservation(reorgs[i]))
           + DutyCall(chosen.duty)
           + seq(|samples|, i requires 0 <= i < |samples| => AddSample(samples[i])))
  }

  /** The calls the read path makes on a fresh assembler, and the slot start it builds with. */
  function Plan(slot: Slot, obs: seq<Observation>, requested: Option<Validator>, store: Store)
    : Option<(seq<Call>, Instant)>
  {
    if obs == [] then None
    else
      var chosen := Select(slot, obs, requested);
      if chosen.Refused? then None
      else match FirstOf(chosen.observations, SlotStart)
        case None => None
        case Some(start) =>
          match Calls(slot, chosen, start.at, store)
          case None => None
          case Some(calls) => Some((calls, start.at))
  }

  lemma {:induction false} ObservationsOfConcat(a: seq<Call>, b: seq<Call>)
    ensures ObservationsOf(a + b) == ObservationsOf(a) + ObservationsOf(b)
    ensures SamplesOf(a + b) == SamplesOf(a) + SamplesOf(b)
    decreases |b|
  {
    if b == [] {
      assert a + b == a;
    } else {
      var n := |b| - 1;
      ObservationsOfConcat(a, b[..n]);
      assert (a + b)[..|a + b| - 1] == a + b[..n];
    }
  }

  /** Some selected record is a baseline that decodes to this one. */
  predicate Decodes(obs: seq<Observation>, decode: Observation -> Option<Baseline>, n: Baseline) {
    exists o | o in obs :: o.kind == NetworkBaselineSampled && decode(o) == Some(n)
  }

  /** The overwriting calls in a run: these baselines and this duty, if any. */
  ghost predicate SetsAre(calls: seq<Call>, obs: seq<Observation>, decode: Observation -> Option<Baseline>,
                          duty: Option<Duty>) {
    && (forall n :: SetNetwork(n) in calls <==> Decodes(obs, decode, n))
    && (forall d :: SetDuty(d) in calls <==> duty == Some(d))
  }

  lemma OneCall(c: Call)
    ensures ObservationsOf([c]) == if c.AddObservation? then [c.o] else []
    ensures SamplesOf([c]) == if c.AddSample? then [c.m] else []
  {
    assert [c][..0] == [] && ObservationsOf([]) == [] && SamplesOf([]) == [];
  }

  lemma AddThen(calls: seq<Call>, c: Call)
    ensures ObservationsOf(calls + [c]) == ObservationsOf(calls) + (if c.AddObservation? then [c.o] else [])
    ensures SamplesOf(calls + [c]) == SamplesOf(calls) + (if c.AddSample? then [c.m] else [])
  {
    ObservationsOfConcat(calls, [c]);
    OneCall(c);
  }

  lemma AdditionsLast(obs: seq<Observation>, decode: Observation -> Option<Baseline>) returns (calls: seq<Call>)
    requires obs != [] && Additions(obs, decode).Some?
    ensures Additions(obs[..|obs| - 1], decode).Some?
    ensures calls == Additions(obs[..|obs| - 1], decode).value + [AddObservation(obs[|obs| - 1])]
    ensures var o := obs[|obs| - 1];
            if o.kind != NetworkBaselineSampled then Additions(obs, decode).value == calls
            else decode(o).Some? && Additions(obs, decode).value == calls + [SetNetwork(decode(o).value)]
  {
    var o, before := obs[|obs| - 1], Additions(obs[..|obs| - 1], decode).value;
    calls := before + [AddObservation(o)];
    if o.kind == NetworkBaselineSampled {
      var n := decode(o).value;
      assert before + [AddObservation(o), SetNetwork(n)] == calls + [SetNetwork(n)];
    }
  }

  lemma {:induction false} AdditionsAdd(obs: seq<Observation>, decode: Observation -> Option<Baseline>)
    requires Additions(obs, decode).Some?
    ensures ObservationsOf(Additions(obs, decode).value) == obs && SamplesOf(Additions(obs, decode).value) == []
  {
    if obs != [] {
      var m := |obs| - 1;
      var calls := AdditionsLast(obs, decode);
      AdditionsAdd(obs[..m], decode);
      AddThen(Additions(obs[..m], decode).value, AddObservation(obs[m]));
      if obs[m].kind == NetworkBaselineSampled { AddThen(calls, SetNetwork(decode(obs[m]).value)); }
    }
  }

  lemma DecodesLast(obs: seq<Observation>, decode: Observation -> Option<Baseline>, n: Baseline)
    requires obs != []
    ensures var o := obs[|obs| - 1];
            Decodes(obs, decode, n) <==>
            Decodes(obs[..|obs| - 1], decode, n) || (o.kind == NetworkBaselineSampled && decode(o) == Some(n))
  {
    assert obs == obs[..|obs| - 1] + [obs[|obs| - 1]];
  }

  lemma {:induction false} AdditionsSet(obs: seq<Observation>, decode: Observation -> Option<Baseline>, c: Call)
    requires Additions(obs, decode).Some? && !c.AddObservation?
    ensures c in Additions(obs, decode).value <==> c.SetNetwork? && Decodes(obs, decode, c.n)
  {
    if obs != [] {
      var calls := AdditionsLast(obs, decode);
      AdditionsSet(obs[..|obs| - 1], decode, c);
      if c.SetNetwork? { DecodesLast(obs, decode, c.n); }
    }
  }

  lemma {:induction false} WrappedObservations(obs: seq<Observation>)
    ensures ObservationsOf(seq(|obs|, i requires 0 <= i < |obs| => AddObservation(obs[i]))) == obs
    ensures SamplesOf(seq(|obs|, i requires 0 <= i < |obs| => AddObservation(obs[i]))) == []
  {
    if obs != [] {
      var m := |obs| - 1;
      WrappedObservations(obs[..m]);
      var all := seq(|obs|, i requires 0 <= i < |obs| => AddObservation(obs[i]));
      assert all[..m] == seq(m, i requires 0 <= i < m => AddObservation(obs[..m][i]));
    }
  }

  lemma {:induction false} WrappedSamples(samples: seq<Sample>)
    ensures SamplesOf(seq(|samples|, i requires 0 <= i < |samples| => AddSample(samples[i]))) == samples
    ensures ObservationsOf(seq(|samples|, i requires 0 <= i < |samples| => AddSample(samples[i]))) == []
  {
    if samples != [] {
      var m := |samples| - 1;
      WrappedSamples(samples[..m]);
      var all := seq(|samples|, i requires 0 <= i < |samples| => AddSample(samples[i]));
      assert all[..m] == seq(m, i requires 0 <= i < m => AddSample(samples[..m][i]));
    }
  }

  lemma CallsAdd(slot: Slot, chosen: Selection, start: Instant, store: Store)
    requires chosen.Selected? && Calls(slot, chosen, start, store).Some?
    ensures var calls := Calls(slot, chosen, start, store).value;
            && ObservationsOf(calls) == chosen.observations + (if chosen.duty.Some? then store.reorgs else [])
            && SamplesOf(calls) == store.samplesFrom(start)
  {
    var adds := Additions(chosen.observations, store.decode).value;
    var reorgs := if chosen.duty.Some? then store.reorgs else [];
    var samples := store.samplesFrom(start);
    var more := seq(|reorgs|, i requires 0 <= i < |reorgs| => AddObservation(reorgs[i]));
    var last := seq(|samples|, i requires 0 <= i < |samples| => AddSample(samples[i]));
    AdditionsAdd(chosen.observations, store.decode);
    WrappedObservations(reorgs);
    WrappedSamples(samples);
    var duty := DutyCall(chosen.duty);
    if chosen.duty.Some? { OneCall(SetDuty(chosen.duty.value)); }
    AllParts(adds, more, duty, last);
  }

  lemma AllParts(a: seq<Call>, b: seq<Call>, c: seq<Call>, d: seq<Call>)
    ensures ObservationsOf(a + b + c + d) ==
            ObservationsOf(a) + ObservationsOf(b) + ObservationsOf(c) + ObservationsOf(d)
    ensures SamplesOf(a + b + c + d) == SamplesOf(a) + SamplesOf(b) + SamplesOf(c) + SamplesOf(d)
  {
    ObservationsOfConcat(a, b);
    ObservationsOfConcat(a + b, c);
    ObservationsOfConcat(a + b + c, d);
  }

  lemma CallsSet(slot: Slot, chosen: Selection, start: Instant, store: Store)
    requires chosen.Selected? && Calls(slot, chosen, start, store).Some?
    ensures SetsAre(Calls(slot, chosen, start, store).value, chosen.observations, store.decode, chosen.duty)
  {
    var calls := Calls(slot, chosen, start, store).value;
    forall c: Call | !c.AddObservation?
      ensures c in Additions(chosen.observations, store.decode).value <==>
              c.SetNetwork? && Decodes(chosen.observations, store.decode, c.n)
    {
      AdditionsSet(chosen.observations, store.decode, c);
    }
  }

  /** What the read path makes of the records: the start of the first slot marker selected; the selected
      observations and, with a duty, the window's reorgs added in order; the samples from the start;
      the baselines that decode; the duty. */
  lemma PlanMakes(slot: Slot, obs: seq<Observation>, requested: Option<Validator>, store: Store) returns (i: nat)
    requires Plan(slot, obs, requested, store).Some?
    ensures var chosen := Select(slot, obs, requested);
            var (calls, start) := Plan(slot, obs, requested, store).value;
            && chosen.Selected? && FirstOfKind(chosen.observations, SlotStart, i) && start == chosen.observations[i].at
            && ObservationsOf(calls) == chosen.observations + (if chosen.duty.Some? then store.reorgs else [])
            && SamplesOf(calls) == store.samplesFrom(start)
            && SetsAre(calls, chosen.observations, store.decode, chosen.duty)
  {
    var chosen := Select(slot, obs, requested);
    i := FirstIsFirstListed(chosen.observations, SlotStart);
    CallsAdd(slot, chosen, chosen.observations[i].at, store);
    CallsSet(slot, chosen, chosen.observations[i].at, store);
  }

  /** GetTimelineForValidatorSelection: the built timeline, or None for any refusal. */
  function TimelineFor(slot: Slot, obs: seq<Observation>, requested: Option<Validator>, store: Store,
                       order: seq<Slot>, pf: FloatParser): Option<Timeline> {
    match Plan(slot, obs, requested, store)
    case None => None
    case Some((calls, start)) => Built(Run(Empty(store.schedule), calls), slot, start, order, pf)
  }

  function VerdictFor(slot: Slot, obs: seq<Observation>, requested: Option<Validator>, store: Store,
                      order: seq<Slot>, cfg: Rules.Config, pf: FloatParser): Option<Verdicts.Verdict> {
    match TimelineFor(slot, obs, requested, store, order, pf)
    case None => None
    case Some(t) => Some(Engine.Analyze(t, cfg, pf))
  }

  /** The walk visits exactly the slots the assembler holds. */
  ghost predicate Walks(order: seq<Slot>, plan: Option<(seq<Call>, Instant)>, schedule: Schedule) {
    plan.Some? ==> Enumerates(order, Run(Empty(schedule), plan.value.0).observations.Keys)
  }

  lemma SamePlan(slot: Slot, obs: seq<Observation>, v: Validator, store: Store)
    requires Permitted(obs) && !MarkerDecides(obs, v)
    ensures Plan(slot, Only(obs, v), Some(v), store) == Plan(slot, obs, Some(v), store)
  {
    OthersDoNotMatterIff(slot, obs, v);
    SelectIs(slot, obs, v);
    SelectIs(slot, Only(obs, v), v);
  }

  /** Other validators' facts cannot change the built timeline, even if the two assemblies walk their
      maps differently (as long as no reorgs tie across slots). */
  lemma SameTimeline(slot: Slot, obs: seq<Observation>, v: Validator, store: Store,
                     order: seq<Slot>, order': seq<Slot>, pf: FloatParser)
    requires Permitted(obs) && !MarkerDecides(obs, v)
    requires Walks(order, Plan(slot, obs, Some(v), store), store.schedule)
    requires Walks(order', Plan(slot, obs, Some(v), store), store.schedule)
    requires order == order' || OrderFree(Plan(slot, obs, Some(v), store), store.schedule, slot)
    ensures TimelineFor(slot, Only(obs, v), Some(v), store, order', pf) ==
            TimelineFor(slot, obs, Some(v), store, order, pf)
  {
    SamePlan(slot, obs, v, store);
    var plan := Plan(slot, obs, Some(v), store);
    if plan.Some? && order != order' {
      ArrivalOrderIrrelevant(store.schedule, plan.value.0, plan.value.0, slot, plan.value.1, order, order', pf);
    }
  }

  ghost predicate OrderFree(plan: Option<(seq<Call>, Instant)>, schedule: Schedule, slot: Slot) {
    plan.Some? ==> TiesStayInSlot(Run(Empty(schedule), plan.value.0), slot)
  }

  /** Isolation, end to end: nor can they change the verdict. */
  lemma ValidatorsAreIsolated(slot: Slot, obs: seq<Observation>, v: Validator, store: Store,
                              order: seq<Slot>, order': seq<Slot>, cfg: Rules.Config, pf: FloatParser)
    requires Permitted(obs) && !MarkerDecides(obs, v)
    requires Walks(order, Plan(slot, obs, Some(v), store), store.schedule)
    requires Walks(order', Plan(slot, obs, Some(v), store), store.schedule)
    requires order == order' || OrderFree(Plan(slot, obs, Some(v), store), store.schedule, slot)
    ensures VerdictFor(slot, Only(obs, v), Some(v), store, order', cfg, pf) ==
            VerdictFor(slot, obs, Some(v), store, order, cfg, pf)
  {
    SameTimeline(slot, obs, v, store, order, order', pf);
  }
}
