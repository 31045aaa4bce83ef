/** Finding one validator's bit in aggregate attestations
    (internal/source/beaconapi/attestation_bits.go), before and after EIP-7549. */
module Attestations {
  import opened Text
  import opened Domain
  import opened Bits

  const MAX_COMMITTEES: nat := 64
  const MAX_VALIDATORS_PER_COMMITTEE: nat := 2048

  datatype Hex = Malformed | Hex(bytes: Bytes)
  datatype CommitteeField = NoCommitteeBits | CommitteeBits(hex: Hex)

  datatype Attestation = Attestation(
    slotText: string, indexText: string, committees: CommitteeField, aggregation: Hex, blockRoot: string)

  datatype AttesterDuty = AttesterDuty(committee: Slot, position: Slot, committeeLength: Slot)

  type Lengths = map<nat, nat>

  datatype Fault =
    | BadDataIndex | BadCommitteeBits | NoLength(index: nat) | OffsetOverflow | PositionOutside | BadAggregation

  datatype Answer = Included | NotIncluded | NeedLengths | Failed(fault: Fault)

  function ReadBit(aggregation: Hex, index: nat): Answer {
    if aggregation.Malformed? then Failed(BadAggregation)
    else match BitSet(aggregation.bytes, index)
      case OutOfRange => Failed(BadAggregation)
      case Read(bit) => if bit then Included else NotIncluded
  }

  // --------------------------------------------- committee position and offset

  function PositionOf(list: seq<nat>, committee: nat): (r: Option<nat>)
    ensures r.Some? ==> r.value < |list| && list[r.value] == committee
    ensures r.None? ==> committee !in list
  {
    if list == [] then None
    else if list[0] == committee then Some(0)
    else match PositionOf(list[1..], committee)
      case None => None
      case Some(i) => Some(i + 1)
  }

  method FindPosition(list: seq<nat>, committee: nat) returns (r: Option<nat>)
    ensures r == PositionOf(list, committee)
  {
    for i := 0 to |list|
      invariant PositionOf(list, committee) ==
                match PositionOf(list[i..], committee) case None => None case Some(k) => Some(i + k)
    {
      if list[i] == committee { return Some(i); }
      assert list[i..][1..] == list[i + 1..];
    }
    r := None;
  }

  datatype Offset = Sum(n: nat) | Stuck(fault: Fault)

  predicate LengthUsable(lengths: Lengths, index: nat) {
    index in lengths && 0 < lengths[index] <= MAX_VALIDATORS_PER_COMMITTEE
  }

  function OffsetOf(list: seq<nat>, lengths: Lengths): Offset {
    if list == [] then Sum(0)
    else
      match OffsetOf(list[..|list| - 1], lengths)
      case Stuck(f) => Stuck(f)
      case Sum(n) =>
        var index := list[|list| - 1];
        if !LengthUsable(lengths, index) then Stuck(NoLength(index))
        else if n > MAX_UINT64 - lengths[index] then Stuck(OffsetOverflow)
        else Sum(n + lengths[index])
  }

  lemma {:induction false} OffsetStaysStuck(list: seq<nat>, lengths: Lengths, i: nat)
    requires i <= |list| && OffsetOf(list[..i], lengths).Stuck?
    ensures OffsetOf(list, lengths) == OffsetOf(list[..i], lengths)
    decreases |list|
  {
    if i < |list| {
      assert list[..|list| - 1][..i] == list[..i];
      OffsetStaysStuck(list[..|list| - 1], lengths, i);
    } else {
      assert list[..i] == list;
    }
  }

  method AccumulateOffset(list: seq<nat>, lengths: Lengths) returns (r: Offset)
    ensures r == OffsetOf(list, lengths)
  {
    var offset: nat := 0;
    for i := 0 to |list|
      invariant OffsetOf(list[..i], lengths) == Sum(offset)
    {
      assert list[..i + 1][..i] == list[..i];
      if !LengthUsable(lengths, list[i]) {
        OffsetStaysStuck(list, lengths, i + 1);
        return Stuck(NoLength(list[i]));
      }
      if offset > MAX_UINT64 - lengths[list[i]] {
        OffsetStaysStuck(list, lengths, i + 1);
        return Stuck(OffsetOverflow);
      }
      offset := offset + lengths[list[i]];
    }
    assert list[..|list|] == list;
    r := Sum(offset);
  }

  lemma {:induction false} OffsetBounded(list: seq<nat>, lengths: Lengths)
    requires |list| <= MAX_COMMITTEES
    ensures match OffsetOf(list, lengths)
            case Sum(n) => n <= |list| * MAX_VALIDATORS_PER_COMMITTEE
            case Stuck(f) => f.NoLength?
  {
    if list != [] { OffsetBounded(list[..|list| - 1], lengths); }
  }

  // ------------------------------------------------------ one attestation

  /** What is decided once the committees are known: an answer, or the aggregation bit to look at. */
  datatype Target = Settled(answer: Answer) | Look(index: nat)

  function TargetOf(list: seq<nat>, d: AttesterDuty, lengths: Option<Lengths>): Target {
    match PositionOf(list, d.committee)
    case None => Settled(NotIncluded)
    case Some(target) =>
      if target > 0 && lengths.None? then Settled(NeedLengths)
      else
        match OffsetOf(list[..target], if lengths.Some? then lengths.value else map[])
        case Stuck(fault) => Settled(Failed(fault))
        case Sum(offset) =>
          if d.committeeLength > 0 && d.position >= d.committeeLength then Settled(Failed(PositionOutside))
          else Look(Wrap64(offset + d.position))
  }

  function AnswerFor(att: Attestation, d: AttesterDuty, lengths: Option<Lengths>): Answer {
    match att.committees
    case NoCommitteeBits =>
      if att.indexText != Decimal(d.committee) then NotIncluded else ReadBit(att.aggregation, d.position)
    case CommitteeBits(hex) =>
      if att.indexText != "0" then Failed(BadDataIndex)
      else if hex.Malformed? || |hex.bytes| != 8 || Indices(hex.bytes, MAX_COMMITTEES) == [] then
        Failed(BadCommitteeBits)
      else match TargetOf(Indices(hex.bytes, MAX_COMMITTEES), d, lengths)
        case Settled(answer) => answer
        case Look(index) => ReadBit(att.aggregation, index)
  }

  method AttestationIncludesValidator(att: Attestation, d: AttesterDuty, lengths: Option<Lengths>) returns (r: Answer)
    ensures r == AnswerFor(att, d, lengths)
  {
    if att.committees.NoCommitteeBits? {
      if att.indexText != Decimal(d.committee) { return NotIncluded; }
      return ReadBit(att.aggregation, d.position);
    }
    if att.indexText != "0" { return Failed(BadDataIndex); }
    if att.committees.hex.Malformed? { return Failed(BadCommitteeBits); }
    var indices := BitvectorIndices(att.committees.hex.bytes, MAX_COMMITTEES);
    if indices.None? { return Failed(BadCommitteeBits); }
    var target := LocateBit(indices.value, d, lengths);
    r := if target.Settled? then target.answer else ReadBit(att.aggregation, target.index);
  }

  /** The part of the method between the committee bits and the aggregation bits. */
  method LocateBit(list: seq<nat>, d: AttesterDuty, lengths: Option<Lengths>) returns (r: Target)
    ensures r == TargetOf(list, d, lengths)
  {
    var target := FindPosition(list, d.committee);
    if target.None? { return Settled(NotIncluded); }
    if target.value > 0 && lengths.None? { return Settled(NeedLengths); }
    var offset := AccumulateOffset(list[..target.value], if lengths.Some? then lengths.value else map[]);
    if offset.Stuck? { return Settled(Failed(offset.fault)); }
    if d.committeeLength > 0 && d.position >= d.committeeLength { return Settled(Failed(PositionOutside)); }
    r := Look(Wrap64(offset.n + d.position));
  }

  lemma {:induction false} IndicesBounded(raw: Bytes, n: nat)
    ensures |Indices(raw, n)| <= n
  {
    if n > 0 { IndicesBounded(raw, n - 1); }
  }

  lemma TargetNeverOverflows(list: seq<nat>, d: AttesterDuty, lengths: Option<Lengths>)
    requires |list| <= MAX_COMMITTEES
    ensures TargetOf(list, d, lengths) != Settled(Failed(OffsetOverflow))
  {
    var target := PositionOf(list, d.committee);
    if target.Some? {
      OffsetBounded(list[..target.value], if lengths.Some? then lengths.value else map[]);
    }
  }

  /** The offset-overflow branch is unreachable, whatever the lengths claim. */
  lemma NeverOverflows(att: Attestation, d: AttesterDuty, lengths: Option<Lengths>)
    ensures AnswerFor(att, d, lengths) != Failed(OffsetOverflow)
  {
    if att.committees.CommitteeBits? && att.committees.hex.Hex? {
      IndicesBounded(att.committees.hex.bytes, MAX_COMMITTEES);
      TargetNeverOverflows(Indices(att.committees.hex.bytes, MAX_COMMITTEES), d, lengths);
    }
  }

  // ----------------------------------------------- the answer, case by case

  function SumOf(list: seq<nat>, lengths: Lengths): nat {
    if list == [] then 0
    else
      var last := list[|list| - 1];
      SumOf(list[..|list| - 1], lengths) + (if last in lengths then lengths[last] else 0)
  }

  /** No length, or one no committee can have. */
  predicate Unknown(lengths: Lengths, c: nat) {
    c !in lengths || lengths[c] == 0 || lengths[c] > 2048
  }

  /** Entry k is the first of that kind. */
  predicate FirstUnknown(list: seq<nat>, lengths: Lengths, k: nat) {
    && k < |list| && Unknown(lengths, list[k])
    && forall j | 0 <= j < k :: !Unknown(lengths, list[j])
  }

  predicate SomeUnknown(list: seq<nat>, lengths: Lengths) {
    exists k | 0 <= k < |list| :: Unknown(lengths, list[k])
  }

  lemma {:induction false} OffsetSum(list: seq<nat>, lengths: Lengths)
    requires |list| <= MAX_COMMITTEES && !SomeUnknown(list, lengths)
    ensures OffsetOf(list, lengths) == Sum(SumOf(list, lengths))
  {
    OffsetBounded(list, lengths);
    if list != [] {
      var n := |list| - 1;
      assert !Unknown(lengths, list[n]) && forall j | 0 <= j < n :: !Unknown(lengths, list[..n][j]);
      OffsetSum(list[..n], lengths);
    }
  }

  lemma OffsetStops(list: seq<nat>, lengths: Lengths, k: nat)
    requires |list| <= MAX_COMMITTEES && FirstUnknown(list, lengths, k)
    ensures OffsetOf(list, lengths) == Stuck(NoLength(list[k]))
  {
    var before := list[..k];
    OffsetSum(before, lengths);
    assert list[..k + 1][..k] == before;
    OffsetStaysStuck(list, lengths, k + 1);
  }

  lemma {:induction false} FirstUnknownExists(list: seq<nat>, lengths: Lengths, n: nat) returns (k: nat)
    requires n <= |list| && exists j :: 0 <= j < n && Unknown(lengths, list[j])
    ensures FirstUnknown(list, lengths, k)
  {
    if forall j | 0 <= j < n - 1 :: !Unknown(lengths, list[j]) {
      k := n - 1;
    } else {
      k := FirstUnknownExists(list, lengths, n - 1);
    }
  }

  /** The offset after these committees: the sum of their lengths, or the first unusable one. */
  ghost predicate OffsetIs(list: seq<nat>, lengths: Lengths, offset: Offset) {
    if SomeUnknown(list, lengths)
    then exists k: nat :: FirstUnknown(list, lengths, k) && offset == Stuck(NoLength(list[k]))
    else offset == Sum(SumOf(list, lengths))
  }

  function OrNone(lengths: Option<Lengths>): Lengths {
    if lengths.Some? then lengths.value else map[]
  }

  function AfterOffset(offset: Offset, d: AttesterDuty): Target {
    match offset
    case Stuck(fault) => Settled(Failed(fault))
    case Sum(n) =>
      if d.committeeLength > 0 && d.position >= d.committeeLength then Settled(Failed(PositionOutside))
      else Look(Wrap64(n + d.position))
  }

  /** Where to look, or the answer, when the validator's committee is entry t of the committees named. */
  ghost predicate TargetIs(list: seq<nat>, t: nat, d: AttesterDuty, lengths: Option<Lengths>, target: Target)
    requires t <= |list|
  {
    if t > 0 && lengths.None? then target == Settled(NeedLengths)
    else exists o: Offset :: OffsetIs(list[..t], OrNone(lengths), o) && target == AfterOffset(o, d)
  }

  /** The validator's committee is named, and what follows from where. */
  ghost predicate OwnTarget(list: seq<nat>, d: AttesterDuty, lengths: Option<Lengths>, target: Target) {
    exists t: nat :: t < |list| && list[t] == d.committee && TargetIs(list, t, d, lengths, target)
  }

  /** The answer for any attestation: before EIP-7549 by its index, after it by the committees its bit
      vector names. */
  ghost predicate AnswerIs(att: Attestation, d: AttesterDuty, lengths: Option<Lengths>, answer: Answer) {
    match att.committees
    case NoCommitteeBits =>
      answer == if att.indexText == Decimal(d.committee) then ReadBit(att.aggregation, d.position) else NotIncluded
    case CommitteeBits(hex) =>
      if att.indexText != "0" then answer == Failed(BadDataIndex)
      else if hex.Malformed? || |hex.bytes| != 8 || Indices(hex.bytes, MAX_COMMITTEES) == [] then
        answer == Failed(BadCommitteeBits)
      else if d.committee !in Indices(hex.bytes, MAX_COMMITTEES) then answer == NotIncluded
      else exists target: Target :: OwnTarget(Indices(hex.bytes, MAX_COMMITTEES), d, lengths, target) &&
             answer == Resolve(target, att.aggregation)
  }

  function Resolve(target: Target, aggregation: Hex): Answer {
    match target
    case Settled(answer) => answer
    case Look(index) => ReadBit(aggregation, index)
  }

  lemma OffsetCases(list: seq<nat>, lengths: Lengths)
    requires |list| <= MAX_COMMITTEES
    ensures OffsetIs(list, lengths, OffsetOf(list, lengths))
  {
    if SomeUnknown(list, lengths) {
      var k := FirstUnknownExists(list, lengths, |list|);
      OffsetStops(list, lengths, k);
    } else {
      OffsetSum(list, lengths);
    }
  }

  lemma TargetExactly(list: seq<nat>, d: AttesterDuty, lengths: Option<Lengths>)
    requires |list| <= MAX_COMMITTEES && d.committee in list
    ensures OwnTarget(list, d, lengths, TargetOf(list, d, lengths))
  {
    var t := PositionOf(list, d.committee).value;
    OffsetCases(list[..t], OrNone(lengths));
    assert TargetIs(list, t, d, lengths, TargetOf(list, d, lengths));
  }

  /** Every attestation, well made or not, is answered by these cases and no other. */
  lemma AnswerExactly(att: Attestation, d: AttesterDuty, lengths: Option<Lengths>)
    ensures AnswerIs(att, d, lengths, AnswerFor(att, d, lengths))
  {
    if att.committees.CommitteeBits? && att.committees.hex.Hex? {
      var list := Indices(att.committees.hex.bytes, MAX_COMMITTEES);
      IndicesBounded(att.committees.hex.bytes, MAX_COMMITTEES);
      if d.committee in list { TargetExactly(list, d, lengths); }
    }
  }

  // ----------------------------------------- EIP-7549 concatenation decodes

  type Votes = map<nat, seq<bool>>

  /** Per-committee bit vectors, concatenated in the order of the list. */
  function Concat(list: seq<nat>, votes: Votes): seq<bool>
    requires forall c | c in list :: c in votes
  {
    if list == [] then []
    else Concat(list[..|list| - 1], votes) + votes[list[|list| - 1]]
  }

  predicate Committees(list: seq<nat>, votes: Votes) {
    forall c | c in list :: c in votes && 0 < |votes[c]| <= MAX_VALIDATORS_PER_COMMITTEE
  }

  predicate LengthsAgree(list: seq<nat>, votes: Votes, lengths: Lengths)
    requires Committees(list, votes)
  {
    forall c | c in list :: c in lengths && lengths[c] == |votes[c]|
  }

  lemma {:induction false} OffsetIsConcatLength(list: seq<nat>, votes: Votes, lengths: Lengths)
    requires |list| <= MAX_COMMITTEES && Committees(list, votes) && LengthsAgree(list, votes, lengths)
    ensures OffsetOf(list, lengths) == Sum(|Concat(list, votes)|)
  {
    OffsetBounded(list, lengths);
    if list != [] {
      var n := |list| - 1;
      assert forall c | c in list[..n] :: c in list;
      OffsetIsConcatLength(list[..n], votes, lengths);
      assert list[n] in list;
    }
  }

  /** A committee's bits sit at its offset in the concatenation. */
  lemma {:induction false} ConcatAt(list: seq<nat>, votes: Votes, t: nat, p: nat)
    requires Committees(list, votes) && t < |list| && p < |votes[list[t]]|
    ensures Committees(list[..t], votes)
    ensures |Concat(list[..t], votes)| + p < |Concat(list, votes)|
    ensures Concat(list, votes)[|Concat(list[..t], votes)| + p] == votes[list[t]][p]
    decreases |list|
  {
    var n := |list| - 1;
    if t < n {
      assert list[..n][..t] == list[..t] && list[..n][t] == list[t];
      ConcatAt(list[..n], votes, t, p);
    }
  }

  /** An aggregate as a block carries it: bit vectors concatenated in ascending committee order, with
      the SSZ sentinel, and one committee bit for each. */
  function Aggregate(slotText: string, raw: Bytes, votes: Votes, blockRoot: string): Attestation
    requires Committees(Indices(raw, MAX_COMMITTEES), votes)
  {
    Attestation(slotText, "0", CommitteeBits(Hex(raw)),
                Hex(EncodeBitlist(Concat(Indices(raw, MAX_COMMITTEES), votes))), blockRoot)
  }

  function Vote(votes: seq<bool>, index: nat): Answer {
    if index >= |votes| then Failed(BadAggregation) else if votes[index] then Included else NotIncluded
  }

  /** Reading the aggregation bits anywhere gives these votes. */
  ghost predicate Carries(aggregation: Hex, votes: seq<bool>) {
    forall index: nat :: ReadBit(aggregation, index) == Vote(votes, index)
  }

  lemma EncodingCarries(votes: seq<bool>)
    ensures Carries(Hex(EncodeBitlist(votes)), votes)
  {
    BitlistRoundTrip(votes);
  }

  /** Where a committee's bits start. */
  function Start(list: seq<nat>, votes: Votes, committee: nat): nat
    requires Committees(list, votes) && committee in list
  {
    var target := PositionOf(list, committee).value;
    |Concat(list[..target], votes)|
  }

  /** The bit the decoder goes for. */
  lemma TargetInCommittee(list: seq<nat>, votes: Votes, lengths: Lengths, d: AttesterDuty)
    requires |list| <= MAX_COMMITTEES && Committees(list, votes) && LengthsAgree(list, votes, lengths)
    requires d.committee in list
    ensures Start(list, votes, d.committee) <= MAX_COMMITTEES * MAX_VALIDATORS_PER_COMMITTEE
    ensures TargetOf(list, d, Some(lengths)) ==
            if d.committeeLength > 0 && d.position >= d.committeeLength then Settled(Failed(PositionOutside))
            else Look(Wrap64(Start(list, votes, d.committee) + d.position))
  {
    var target := PositionOf(list, d.committee).value;
    var before := list[..target];
    assert forall c | c in before :: c in list;
    OffsetIsConcatLength(before, votes, lengths);
    OffsetBounded(before, lengths);
  }

  lemma StartAt(list: seq<nat>, votes: Votes, committee: nat, p: nat)
    requires Committees(list, votes) && committee in list && p < |votes[committee]|
    ensures Vote(Concat(list, votes), Start(list, votes, committee) + p) == Vote(votes[committee], p)
  {
    ConcatAt(list, votes, PositionOf(list, committee).value, p);
  }

  /** The validity test a fetched duty passes before the client uses it. */
  predicate DutyAccepted(d: AttesterDuty, committeesAtSlot: nat) {
    d.committeeLength > 0 && committeesAtSlot > 0 && d.committee < committeesAtSlot && d.position < d.committeeLength
  }

  /** The decoder looks at a bit that belongs to position p of committee list[u], another one. */
  predicate LooksAtNeighbour(list: seq<nat>, votes: Votes, lengths: Lengths, d: AttesterDuty, u: nat, p: nat)
    requires Committees(list, votes)
  {
    && u < |list| && list[u] != d.committee && p < |votes[list[u]]|
    && TargetOf(list, d, Some(lengths)) == Look(|Concat(list[..u], votes)| + p)
  }

  ghost predicate Misread(list: seq<nat>, votes: Votes, lengths: Lengths, d: AttesterDuty)
    requires Committees(list, votes)
  {
    exists u: nat, p: nat :: LooksAtNeighbour(list, votes, lengths, d, u, p)
  }

  /** Every index of the concatenation belongs to some committee. */
  lemma {:induction false} OwnerOf(list: seq<nat>, votes: Votes, index: nat) returns (u: nat, p: nat)
    requires Committees(list, votes) && index < |Concat(list, votes)|
    ensures u < |list| && Committees(list[..u], votes) && p < |votes[list[u]]|
    ensures |Concat(list[..u], votes)| + p == index
    decreases |list|
  {
    var n := |list| - 1;
    var front := list[..n];
    if index < |Concat(front, votes)| {
      u, p := OwnerOf(front, votes, index);
      assert front[..u] == list[..u] && front[u] == list[u];
    } else {
      u, p := n, index - |Concat(front, votes)|;
    }
  }

  lemma {:induction false} PrefixShorter(list: seq<nat>, votes: Votes, t: nat, u: nat)
    requires Committees(list, votes) && t < u <= |list|
    ensures Committees(list[..t], votes) && Committees(list[..u], votes)
    ensures |Concat(list[..t], votes)| + |votes[list[t]]| <= |Concat(list[..u], votes)|
    decreases u
  {
    assert list[..u][..u - 1] == list[..u - 1];
    if t < u - 1 { PrefixShorter(list, votes, t, u - 1); }
  }

  /** Bits of different committees never share an index. */
  lemma OwnRangeIsOwn(list: seq<nat>, votes: Votes, committee: nat, u: nat, p: nat)
    requires Committees(list, votes) && committee in list && u < |list| && Committees(list[..u], votes) &&
             p < |votes[list[u]]|
    requires Increasing(list)
    ensures var start := Start(list, votes, committee);
            start <= |Concat(list[..u], votes)| + p < start + |votes[committee]| <==> list[u] == committee
  {
    var t := PositionOf(list, committee).value;
    if u < t { PrefixShorter(list, votes, u, t); }
    if t < u { PrefixShorter(list, votes, t, u); }
  }

  /** The caller's side of the misreading: the position is past the committee's real end, the duty's
      own length does not catch it, and the wrapped index still falls inside the concatenation. */
  predicate PastOwnEnd(list: seq<nat>, votes: Votes, d: AttesterDuty)
    requires Committees(list, votes) && d.committee in list
  {
    && |votes[d.committee]| <= d.position && (d.committeeLength == 0 || d.position < d.committeeLength)
    && Wrap64(Start(list, votes, d.committee) + d.position) < |Concat(list, votes)|
  }

  lemma MisreadIsPastEnd(list: seq<nat>, votes: Votes, lengths: Lengths, d: AttesterDuty, u: nat, p: nat)
    requires |list| <= MAX_COMMITTEES && Committees(list, votes) && LengthsAgree(list, votes, lengths)
    requires d.committee in list && Increasing(list) && LooksAtNeighbour(list, votes, lengths, d, u, p)
    ensures PastOwnEnd(list, votes, d)
  {
    TargetInCommittee(list, votes, lengths, d);
    OwnRangeIsOwn(list, votes, d.committee, u, p);
    IndexInside(list, votes, u, p);
  }

  lemma IndexInside(list: seq<nat>, votes: Votes, u: nat, p: nat)
    requires Committees(list, votes) && u < |list| && p < |votes[list[u]]|
    ensures Committees(list[..u], votes) && |Concat(list[..u], votes)| + p < |Concat(list, votes)|
  {
    ConcatAt(list, votes, u, p);
  }

  lemma PastEndIsMisread(list: seq<nat>, votes: Votes, lengths: Lengths, d: AttesterDuty) returns (u: nat, p: nat)
    requires |list| <= MAX_COMMITTEES && Committees(list, votes) && LengthsAgree(list, votes, lengths)
    requires d.committee in list && Increasing(list) && PastOwnEnd(list, votes, d)
    ensures LooksAtNeighbour(list, votes, lengths, d, u, p)
  {
    u, p := OwnerOf(list, votes, Wrap64(Start(list, votes, d.committee) + d.position));
    PastEndTarget(list, votes, lengths, d);
    OwnRangeIsOwn(list, votes, d.committee, u, p);
  }

  lemma PastEndTarget(list: seq<nat>, votes: Votes, lengths: Lengths, d: AttesterDuty)
    requires |list| <= MAX_COMMITTEES && Committees(list, votes) && LengthsAgree(list, votes, lengths)
    requires d.committee in list && PastOwnEnd(list, votes, d)
    ensures var index := Wrap64(Start(list, votes, d.committee) + d.position);
            && TargetOf(list, d, Some(lengths)) == Look(index)
            && !(Start(list, votes, d.committee) <= index < Start(list, votes, d.committee) + |votes[d.committee]|)
  {
    TargetInCommittee(list, votes, lengths, d);
  }

  /** For every duty of a covered committee: another committee's bit is looked at exactly when the
      position is past the own committee's end, uncaught by the duty's own length, and inside the
      concatenation. */
  lemma MisreadIff(list: seq<nat>, votes: Votes, lengths: Lengths, d: AttesterDuty)
    requires |list| <= MAX_COMMITTEES && Committees(list, votes) && LengthsAgree(list, votes, lengths)
    requires d.committee in list && Increasing(list)
    ensures Misread(list, votes, lengths, d) <==> PastOwnEnd(list, votes, d)
  {
    if PastOwnEnd(list, votes, d) { var u, p := PastEndIsMisread(list, votes, lengths, d); }
    if Misread(list, votes, lengths, d) {
      var u: nat, p: nat :| LooksAtNeighbour(list, votes, lengths, d, u, p);
      MisreadIsPastEnd(list, votes, lengths, d, u, p);
    }
  }

  /** An accepted duty whose length does not exceed the one the committees endpoint reports is never
      answered from another committee's bits. */
  lemma AgreedLengthNeverMisread(list: seq<nat>, votes: Votes, lengths: Lengths, d: AttesterDuty, committeesAtSlot: nat)
    requires |list| <= MAX_COMMITTEES && Committees(list, votes) && LengthsAgree(list, votes, lengths)
    requires d.committee in list && Increasing(list)
    requires DutyAccepted(d, committeesAtSlot) && d.committeeLength <= lengths[d.committee]
    ensures !Misread(list, votes, lengths, d)
  {
    MisreadIff(list, votes, lengths, d);
  }

  /** A duty that carries its committee's length is never answered from another committee's bits. */
  lemma PositionOutsideIsRefused(list: seq<nat>, votes: Votes, lengths: Lengths, d: AttesterDuty)
    requires |list| <= MAX_COMMITTEES && Committees(list, votes) && LengthsAgree(list, votes, lengths)
    requires d.committee in list && d.committeeLength == |votes[d.committee]| <= d.position
    ensures TargetOf(list, d, Some(lengths)) == Settled(Failed(PositionOutside))
  {
    TargetInCommittee(list, votes, lengths, d);
  }

  lemma TargetIsOwnBit(list: seq<nat>, votes: Votes, lengths: Lengths, d: AttesterDuty)
    requires |list| <= MAX_COMMITTEES && Committees(list, votes) && LengthsAgree(list, votes, lengths)
    requires d.committee in list
    requires d.position < |votes[d.committee]| && (d.committeeLength == 0 || d.position < d.committeeLength)
    ensures TargetOf(list, d, Some(lengths)) == Look(Start(list, votes, d.committee) + d.position)
  {
    TargetInCommittee(list, votes, lengths, d);
  }

  lemma AggregateAnswer(slotText: string, raw: Bytes, votes: Votes, blockRoot: string, lengths: Option<Lengths>,
                        d: AttesterDuty)
    requires |raw| == 8 && Indices(raw, MAX_COMMITTEES) != [] && Committees(Indices(raw, MAX_COMMITTEES), votes)
    ensures AnswerFor(Aggregate(slotText, raw, votes, blockRoot), d, lengths) ==
            match TargetOf(Indices(raw, MAX_COMMITTEES), d, lengths)
            case Settled(answer) => answer
            case Look(index) => Vote(Concat(Indices(raw, MAX_COMMITTEES), votes), index)
  {
    EncodingCarries(Concat(Indices(raw, MAX_COMMITTEES), votes));
  }

  /** The answer the bits themselves give: the validator's own vote, or none of its committee's. */
  function OwnVote(list: seq<nat>, votes: Votes, d: AttesterDuty): Answer
    requires Committees(list, votes)
  {
    if d.committee in list then Vote(votes[d.committee], d.position) else NotIncluded
  }

  predicate Fits(list: seq<nat>, votes: Votes, d: AttesterDuty)
    requires Committees(list, votes)
  {
    d.committee in list ==>
        d.position < |votes[d.committee]| && (d.committeeLength == 0 || d.position < d.committeeLength)
  }

  lemma TargetGivesOwnVote(list: seq<nat>, votes: Votes, lengths: Lengths, d: AttesterDuty)
    requires |list| <= MAX_COMMITTEES && Committees(list, votes) && LengthsAgree(list, votes, lengths) &&
             Fits(list, votes, d)
    ensures OwnVote(list, votes, d) ==
            match TargetOf(list, d, Some(lengths))
            case Settled(answer) => answer
            case Look(index) => Vote(Concat(list, votes), index)
  {
    if d.committee in list {
      TargetIsOwnBit(list, votes, lengths, d);
      StartAt(list, votes, d.committee, d.position);
    }
  }

  lemma AggregateGivesOwnVote(slotText: string, raw: Bytes, votes: Votes, blockRoot: string, lengths: Lengths,
                              d: AttesterDuty)
    requires |raw| == 8 && Indices(raw, MAX_COMMITTEES) != [] && Committees(Indices(raw, MAX_COMMITTEES), votes)
    requires LengthsAgree(Indices(raw, MAX_COMMITTEES), votes, lengths) && Fits(Indices(raw, MAX_COMMITTEES), votes, d)
    ensures AnswerFor(Aggregate(slotText, raw, votes, blockRoot), d, Some(lengths)) ==
            OwnVote(Indices(raw, MAX_COMMITTEES), votes, d)
  {
    IndicesBounded(raw, MAX_COMMITTEES);
    AggregateAnswer(slotText, raw, votes, blockRoot, Some(lengths), d);
    TargetGivesOwnVote(Indices(raw, MAX_COMMITTEES), votes, lengths, d);
  }

  /** Decoding an aggregate returns exactly the validator's own bit, and "not included" for a
      committee the aggregate does not cover: never a neighbour's bit, never an error. */
  lemma AggregateReadsOwnBit(slotText: string, raw: Bytes, votes: Votes, blockRoot: string, lengths: Lengths,
                             d: AttesterDuty)
    requires |raw| == 8 && Indices(raw, MAX_COMMITTEES) != []
    requires Committees(Indices(raw, MAX_COMMITTEES), votes) &&
             LengthsAgree(Indices(raw, MAX_COMMITTEES), votes, lengths)
    requires FlatBit(raw, d.committee) && d.committee < MAX_COMMITTEES ==>
               d.committee in votes && d.position < |votes[d.committee]| &&
                   (d.committeeLength == 0 || d.position < d.committeeLength)
    ensures AnswerFor(Aggregate(slotText, raw, votes, blockRoot), d, Some(lengths)) ==
            if FlatBit(raw, d.committee) && d.committee < MAX_COMMITTEES && votes[d.committee][d.position]
            then Included else NotIncluded
  {
    IndicesMembers(raw, MAX_COMMITTEES, d.committee);
    AggregateGivesOwnVote(slotText, raw, votes, blockRoot, lengths, d);
  }

  /** A misread duty is answered with the other committee's vote. */
  lemma MisreadAnswer(slotText: string, raw: Bytes, votes: Votes, blockRoot: string, lengths: Lengths, d: AttesterDuty,
                      u: nat, p: nat)
    requires |raw| == 8 && Indices(raw, MAX_COMMITTEES) != [] && Committees(Indices(raw, MAX_COMMITTEES), votes)
    requires LooksAtNeighbour(Indices(raw, MAX_COMMITTEES), votes, lengths, d, u, p)
    ensures AnswerFor(Aggregate(slotText, raw, votes, blockRoot), d, Some(lengths)) ==
            Vote(votes[Indices(raw, MAX_COMMITTEES)[u]], p)
  {
    AggregateAnswer(slotText, raw, votes, blockRoot, Some(lengths), d);
    ConcatAt(Indices(raw, MAX_COMMITTEES), votes, u, p);
  }

  /** Every ascending committee list has a bit vector. */
  lemma BitsFor(list: seq<nat>, n: nat) returns (raw: Bytes)
    requires Increasing(list) && forall c | c in list :: c < n
    ensures |raw| == (n + 7) / 8 && Indices(raw, n) == list
  {
    raw := Pack(Marks(list, n));
    PackLength(Marks(list, n));
    BitvectorRoundTrip(list, n);
  }

  const TWO_VOTES: Votes := map[0 := [false], 1 := [true]]
  const TWO_LENGTHS: Lengths := map[0 := 1, 1 := 1]
  const OVERLONG_DUTY: AttesterDuty := AttesterDuty(0, 1, 2)

  lemma OverlongTarget()
    ensures Committees([0, 1], TWO_VOTES) && LengthsAgree([0, 1], TWO_VOTES, TWO_LENGTHS)
    ensures LooksAtNeighbour([0, 1], TWO_VOTES, TWO_LENGTHS, OVERLONG_DUTY, 1, 0)
  {
    var list := [0, 1];
    assert list[..1] == [0] && list[..0] == [] && [0][..0] == [];
    assert Concat([0], TWO_VOTES) == [false];
    assert PositionOf(list, 0) == Some(0);
  }

  /** It happens to a duty the client accepts: committees 0 and 1 with one validator each, a duty that
      claims length 2 for committee 0 and position 1.  Validator 0 did not vote, yet the duty is
      reported included, on validator 1's vote. */
  lemma AcceptedDutyMisread(slotText: string, blockRoot: string) returns (raw: Bytes)
    ensures DutyAccepted(OVERLONG_DUTY, 2) && TWO_VOTES[OVERLONG_DUTY.committee] == [false]
    ensures |raw| == 8 && Indices(raw, MAX_COMMITTEES) == [0, 1] && Committees([0, 1], TWO_VOTES)
    ensures LengthsAgree([0, 1], TWO_VOTES, TWO_LENGTHS) && Misread([0, 1], TWO_VOTES, TWO_LENGTHS, OVERLONG_DUTY)
    ensures AnswerFor(Aggregate(slotText, raw, TWO_VOTES, blockRoot), OVERLONG_DUTY, Some(TWO_LENGTHS)) == Included
  {
    raw := BitsFor([0, 1], MAX_COMMITTEES);
    OverlongTarget();
    MisreadAnswer(slotText, raw, TWO_VOTES, blockRoot, TWO_LENGTHS, OVERLONG_DUTY, 1, 0);
    assert Vote(TWO_VOTES[1], 0) == Included;
  }

  /** Before EIP-7549 the aggregation bits are the committee's own. */
  lemma OneCommitteeReadsOwnBit(att: Attestation, votes: seq<bool>, d: AttesterDuty, lengths: Option<Lengths>)
    requires att.committees.NoCommitteeBits? && att.aggregation == Hex(EncodeBitlist(votes))
    ensures AnswerFor(att, d, lengths) ==
            if att.indexText != Decimal(d.committee) then NotIncluded else Vote(votes, d.position)
  {
    EncodingCarries(votes);
  }
}
