/** Looking for an attestation in lists of aggregates and in a window of blocks: the lazy committee
    lookup of attestations.go and blocks.go, and the canonical-root lookback of canonical_roots.go
    (all in internal/source/beaconapi). */
module Inclusion {
  import opened Text
  import opened Domain
  import opened Bits
  import opened Attestations

  // ------------------------------------------------- a list of attestations

  datatype Found = Nothing | Stopped(answer: Answer, att: Attestation)

  function Search(atts: seq<Attestation>, want: Slot, d: AttesterDuty, lengths: Option<Lengths>): Found {
    if atts == [] then Nothing
    else if atts[0].slotText == Decimal(want) && AnswerFor(atts[0], d, lengths) != NotIncluded then
      Stopped(AnswerFor(atts[0], d, lengths), atts[0])
    else Search(atts[1..], want, d, lengths)
  }

  /** An attestation of another slot, or one that does not include the validator. */
  predicate Passed(att: Attestation, want: Slot, d: AttesterDuty, lengths: Option<Lengths>) {
    att.slotText != Decimal(want) || AnswerFor(att, d, lengths) == NotIncluded
  }

  predicate AllPassed(atts: seq<Attestation>, want: Slot, d: AttesterDuty, lengths: Option<Lengths>) {
    forall j | 0 <= j < |atts| :: Passed(atts[j], want, d, lengths)
  }

  /** The first attestation of the slot with any answer but "not included", and its answer. */
  ghost predicate FirstAnswer(atts: seq<Attestation>, want: Slot, d: AttesterDuty, lengths: Option<Lengths>, r: Found) {
    match r
    case Nothing => AllPassed(atts, want, d, lengths)
    case Stopped(answer, att) => exists i: nat :: AnswersAt(atts, want, d, lengths, i, answer, att)
  }

  predicate AnswersAt(atts: seq<Attestation>, want: Slot, d: AttesterDuty, lengths: Option<Lengths>, i: nat,
                      answer: Answer, att: Attestation) {
    && i < |atts| && att == atts[i] && att.slotText == Decimal(want)
    && answer == AnswerFor(att, d, lengths) && answer != NotIncluded
    && forall j | 0 <= j < i :: Passed(atts[j], want, d, lengths)
  }

  lemma {:induction false} SearchIs(atts: seq<Attestation>, want: Slot, d: AttesterDuty, lengths: Option<Lengths>)
    ensures FirstAnswer(atts, want, d, lengths, Search(atts, want, d, lengths))
  {
    if atts != [] {
      var r := Search(atts, want, d, lengths);
      SearchIs(atts[1..], want, d, lengths);
      if Passed(atts[0], want, d, lengths) {
        if r.Stopped? {
          var i: nat :| AnswersAt(atts[1..], want, d, lengths, i, r.answer, r.att);
          forall j | 0 <= j < i + 1 ensures Passed(atts[j], want, d, lengths) {
            if j > 0 { assert atts[j] == atts[1..][j - 1]; }
          }
          assert AnswersAt(atts, want, d, lengths, i + 1, r.answer, r.att);
        } else {
          assert forall j | 1 <= j < |atts| :: atts[j] == atts[1..][j - 1];
        }
      } else {
        assert AnswersAt(atts, want, d, lengths, 0, r.answer, r.att);
      }
    }
  }

  /** That answer is unique, and the search gives it. */
  lemma SearchIff(atts: seq<Attestation>, want: Slot, d: AttesterDuty, lengths: Option<Lengths>, r: Found)
    ensures r == Search(atts, want, d, lengths) <==> FirstAnswer(atts, want, d, lengths, r)
  {
    SearchIs(atts, want, d, lengths);
    var s := Search(atts, want, d, lengths);
    if FirstAnswer(atts, want, d, lengths, r) && r.Stopped? && s.Stopped? {
      var i: nat :| AnswersAt(atts, want, d, lengths, i, r.answer, r.att);
      var k: nat :| AnswersAt(atts, want, d, lengths, k, s.answer, s.att);
      assert i == k;
    }
  }

  method AttestationsIncludeValidator(atts: seq<Attestation>, want: Slot, d: AttesterDuty, lengths: Option<Lengths>)
    returns (r: Found)
    ensures FirstAnswer(atts, want, d, lengths, r)
  {
    for i := 0 to |atts|
      invariant forall j | 0 <= j < i :: Passed(atts[j], want, d, lengths)
    {
      if atts[i].slotText != Decimal(want) { continue; }
      var answer := AttestationIncludesValidator(atts[i], d, lengths);
      if answer != NotIncluded {
        assert AnswersAt(atts, want, d, lengths, i, answer, atts[i]);
        return Stopped(answer, atts[i]);
      }
    }
    r := Nothing;
  }

  // ------------------------------------------------ lazy and eager lookups

  predicate Needs(r: Found) {
    r.Stopped? && r.answer == NeedLengths
  }

  lemma {:induction false} SearchWithLengths(atts: seq<Attestation>, want: Slot, d: AttesterDuty, lengths: Lengths)
    ensures !Needs(Search(atts, want, d, Some(lengths)))
    ensures !Needs(Search(atts, want, d, None)) ==> Search(atts, want, d, None) == Search(atts, want, d, Some(lengths))
  {
    if atts != [] {
      SearchWithLengths(atts[1..], want, d, lengths);
    }
  }

  /** A pass without lengths that asks for none gives the answer every lookup would give, and with
      lengths at hand none are asked for. */
  lemma LazyIsEager(atts: seq<Attestation>, want: Slot, d: AttesterDuty, lengths: Lengths, lazy: Found, eager: Found)
    requires FirstAnswer(atts, want, d, None, lazy) && FirstAnswer(atts, want, d, Some(lengths), eager)
    ensures !Needs(eager) && (!Needs(lazy) ==> lazy == eager)
  {
    SearchWithLengths(atts, want, d, lengths);
    SearchIff(atts, want, d, None, lazy);
    SearchIff(atts, want, d, Some(lengths), eager);
  }

  lemma SomeAnswer(atts: seq<Attestation>, want: Slot, d: AttesterDuty, lengths: Option<Lengths>) returns (r: Found)
    ensures FirstAnswer(atts, want, d, lengths, r)
  {
    r := Search(atts, want, d, lengths);
    SearchIs(atts, want, d, lengths);
  }

  datatype Lookup = Answered(found: Found) | LengthsUnavailable

  /** poolIncludesAttestation: a pass without lengths, and a second one only if the first asks. */
  method PoolIncludesAttestation(atts: seq<Attestation>, d: AttesterDuty, want: Slot, fetched: Option<Lengths>)
    returns (r: Lookup)
    ensures fetched.Some? ==> r.Answered? && FirstAnswer(atts, want, d, fetched, r.found)
    ensures fetched.None? ==>
              match r
              case Answered(found) => FirstAnswer(atts, want, d, None, found) && !Needs(found)
              case LengthsUnavailable => exists att :: FirstAnswer(atts, want, d, None, Stopped(NeedLengths, att))
  {
    var first := AttestationsIncludeValidator(atts, want, d, None);
    if !Needs(first) {
      if fetched.Some? {
        ghost var eager := SomeAnswer(atts, want, d, fetched);
        LazyIsEager(atts, want, d, fetched.value, first, eager);
      }
      return Answered(first);
    }
    if fetched.None? {
      assert first == Stopped(NeedLengths, first.att);
      return LengthsUnavailable;
    }
    var second := AttestationsIncludeValidator(atts, want, d, fetched);
    r := Answered(second);
  }

  // ------------------------------------------------ the inclusion window

  datatype Body = FetchFailed | NoBlock | Block(atts: seq<Attestation>)

  datatype ScanResult =
    | IncludedAt(slot: Slot, att: Attestation)
    | NeverIncluded
    | ScanFailed(slot: Slot)

  /** Lengths a lookup may yet produce: the fetched ones, or any at all while none were fetched. */
  predicate Possible(fetched: Option<Lengths>, lengths: Lengths) {
    fetched.None? || fetched.value == lengths
  }

  /** No block, or one without any answer but "not included". */
  predicate Silent(body: Body, want: Slot, d: AttesterDuty, lengths: Lengths) {
    body.NoBlock? || (body.Block? && AllPassed(body.atts, want, d, Some(lengths)))
  }

  /** Every block strictly between the two slots is silent. */
  ghost predicate Clear(bodies: Slot -> Body, want: Slot, end: int, d: AttesterDuty, fetched: Option<Lengths>) {
    forall lengths: Lengths, s: Slot | Possible(fetched, lengths) && want < s < end ::
      Silent(bodies(s), want, d, lengths)
  }

  /** The block's first answer, by these lengths, is something other than "included". */
  ghost predicate Refuses(body: Body, want: Slot, d: AttesterDuty, lengths: Option<Lengths>) {
    body.FetchFailed? ||
    (body.Block? && exists found: Found ::
       FirstAnswer(body.atts, want, d, lengths, found) && found.Stopped? && found.answer != Included)
  }

  /** The slot scan of CheckInclusion.  `fetched` is what a committee lookup would return.  The scan
      stops at the earliest block of the window that is not silent: included on an attestation there,
      whatever a lookup would still bring, or failed because of the fetch, of an undecodable attestation,
      or of lengths it could not get.  How late the lengths were fetched makes no difference. */
  method CheckInclusion(want: Slot, d: AttesterDuty, until: Slot, bodies: Slot -> Body, fetched: Option<Lengths>)
    returns (r: Option<ScanResult>)
    ensures r.None? <==> until <= want
    ensures r.Some? ==>
      match r.value
      case NeverIncluded => Clear(bodies, want, until + 1, d, fetched)
      case IncludedAt(s, att) =>
        && want < s <= until && Clear(bodies, want, s, d, fetched) && bodies(s).Block?
        && forall lengths | Possible(fetched, lengths) ::
             FirstAnswer(bodies(s).atts, want, d, Some(lengths), Stopped(Included, att))
      case ScanFailed(s) =>
        && want < s <= until && Clear(bodies, want, s, d, fetched) && Refuses(bodies(s), want, d, fetched)
  {
    if until <= want { return None; }
    var lengths: Option<Lengths> := None;
    var s: Slot := want + 1;
    while true
      invariant want < s <= until
      invariant lengths.Some? ==> lengths == fetched
      invariant Clear(bodies, want, s, d, fetched)
      decreases until - s
    {
      var body := bodies(s);
      if body.FetchFailed? { return Some(ScanFailed(s)); }
      if body.Block? {
        var found := AttestationsIncludeValidator(body.atts, want, d, lengths);
        if Needs(found) {
          if lengths.Some? { NoneNeeded(body.atts, want, d, lengths.value, found); }
          if fetched.None? { return Some(ScanFailed(s)); }
          lengths := fetched;
          found := AttestationsIncludeValidator(body.atts, want, d, lengths);
        }
        Settled(body.atts, want, d, lengths, fetched, found);
        if found.Stopped? {
          if found.answer != Included { return Some(ScanFailed(s)); }
          return Some(IncludedAt(s, found.att));
        }
      }
      if s == until { return Some(NeverIncluded); }
      s := s + 1;
    }
  }

  lemma NoneNeeded(atts: seq<Attestation>, want: Slot, d: AttesterDuty, lengths: Lengths, found: Found)
    requires FirstAnswer(atts, want, d, Some(lengths), found)
    ensures !Needs(found)
  {
    var lazy := SomeAnswer(atts, want, d, None);
    LazyIsEager(atts, want, d, lengths, lazy, found);
  }

  /** An answer that asks for no lengths stands for every lookup. */
  lemma Settled(atts: seq<Attestation>, want: Slot, d: AttesterDuty, lengths: Option<Lengths>, fetched: Option<Lengths>,
                found: Found)
    requires FirstAnswer(atts, want, d, lengths, found) && (lengths.Some? ==> lengths == fetched)
    requires lengths.None? ==> !Needs(found)
    ensures forall known | Possible(fetched, known) :: FirstAnswer(atts, want, d, Some(known), found)
    ensures FirstAnswer(atts, want, d, fetched, found)
    ensures found.Stopped? ==> found.answer != NotIncluded
  {
    if lengths.None? {
      forall known: Lengths ensures FirstAnswer(atts, want, d, Some(known), found) {
        var eager := SomeAnswer(atts, want, d, Some(known));
        LazyIsEager(atts, want, d, known, found, eager);
      }
    }
  }

  // -------------------------------------------------- blocks of aggregates

  /** An aggregate whose committees have these votes, of the lengths known, and a duty that fits them. */
  predicate Made(att: Attestation, raw: Bytes, votes: Votes, lengths: Lengths, d: AttesterDuty) {
    && |raw| == 8 && Indices(raw, MAX_COMMITTEES) != []
    && Committees(Indices(raw, MAX_COMMITTEES), votes) && LengthsAgree(Indices(raw, MAX_COMMITTEES), votes, lengths)
    && att == Aggregate(att.slotText, raw, votes, att.blockRoot)
    && Fits(Indices(raw, MAX_COMMITTEES), votes, d)
  }

  /** The validator's own committee took part, and its own bit is set. */
  predicate Voted(raw: Bytes, votes: Votes, d: AttesterDuty) {
    && d.committee in Indices(raw, MAX_COMMITTEES) && d.committee in votes
    && d.position < |votes[d.committee]| && votes[d.committee][d.position]
  }

  ghost predicate WellMade(att: Attestation, lengths: Lengths, d: AttesterDuty) {
    exists raw: Bytes, votes: Votes :: Made(att, raw, votes, lengths, d)
  }

  ghost predicate CarriesVote(att: Attestation, lengths: Lengths, d: AttesterDuty) {
    exists raw: Bytes, votes: Votes :: Made(att, raw, votes, lengths, d) && Voted(raw, votes, d)
  }

  /** Every attestation of the slot is a well-made aggregate; those of other slots may be anything. */
  ghost predicate AllWellMade(atts: seq<Attestation>, want: Slot, lengths: Lengths, d: AttesterDuty) {
    forall att | att in atts && att.slotText == Decimal(want) :: WellMade(att, lengths, d)
  }

  ghost predicate NoVote(atts: seq<Attestation>, want: Slot, lengths: Lengths, d: AttesterDuty) {
    forall att | att in atts && att.slotText == Decimal(want) :: !CarriesVote(att, lengths, d)
  }

  lemma MadeAnswer(att: Attestation, raw: Bytes, votes: Votes, lengths: Lengths, d: AttesterDuty)
    requires Made(att, raw, votes, lengths, d)
    ensures AnswerFor(att, d, Some(lengths)) == if Voted(raw, votes, d) then Included else NotIncluded
  {
    AggregateGivesOwnVote(att.slotText, raw, votes, att.blockRoot, lengths, d);
  }

  lemma WellMadeAnswer(att: Attestation, lengths: Lengths, d: AttesterDuty)
    requires WellMade(att, lengths, d)
    ensures AnswerFor(att, d, Some(lengths)) == if CarriesVote(att, lengths, d) then Included else NotIncluded
  {
    var raw: Bytes, votes: Votes :| Made(att, raw, votes, lengths, d);
    MadeAnswer(att, raw, votes, lengths, d);
    forall r: Bytes, v: Votes | Made(att, r, v, lengths, d) && Voted(r, v, d)
      ensures AnswerFor(att, d, Some(lengths)) == Included
    {
      MadeAnswer(att, r, v, lengths, d);
    }
  }

  /** In a block of aggregates the search stops exactly on the first attestation of the slot that carries
      the validator's own vote, with the answer "included", and finds nothing exactly when there is none. */
  lemma BlockIncludesIff(atts: seq<Attestation>, want: Slot, lengths: Lengths, d: AttesterDuty, r: Found)
    requires AllWellMade(atts, want, lengths, d) && FirstAnswer(atts, want, d, Some(lengths), r)
    ensures r.Nothing? <==> NoVote(atts, want, lengths, d)
    ensures r.Stopped? ==> r.answer == Included && r.att in atts && r.att.slotText == Decimal(want) &&
                           CarriesVote(r.att, lengths, d)
  {
    forall att | att in atts && att.slotText == Decimal(want)
      ensures AnswerFor(att, d, Some(lengths)) == if CarriesVote(att, lengths, d) then Included else NotIncluded
    {
      WellMadeAnswer(att, lengths, d);
    }
  }

  /** The whole window, fetched and made of aggregates: the scan runs clear up to a slot exactly when no
      attestation of the wanted slot in a block before it carries the validator's own vote. */
  lemma WindowClearIff(bodies: Slot -> Body, want: Slot, end: int, d: AttesterDuty, lengths: Lengths)
    requires forall s: Slot | want < s < end :: bodies(s).NoBlock? ||
               (bodies(s).Block? && AllWellMade(bodies(s).atts, want, lengths, d))
    ensures Clear(bodies, want, end, d, Some(lengths)) <==>
            forall s: Slot | want < s < end && bodies(s).Block? :: NoVote(bodies(s).atts, want, lengths, d)
  {
    assert Possible(Some(lengths), lengths);
    forall s: Slot | want < s < end && bodies(s).Block?
      ensures Silent(bodies(s), want, d, lengths) <==> NoVote(bodies(s).atts, want, lengths, d)
    {
      var r := SomeAnswer(bodies(s).atts, want, d, Some(lengths));
      BlockIncludesIff(bodies(s).atts, want, lengths, d, r);
      SearchIff(bodies(s).atts, want, d, Some(lengths), Nothing);
      SearchIff(bodies(s).atts, want, d, Some(lengths), r);
    }
  }

  // ------------------------------------------- canonical-root lookback

  const MAX_CANONICAL_ROOT_LOOKBACK: Slot := 64

  datatype Header = HeaderFailed | NoHeader | Header(root: string, wellFormed: bool)
  datatype RootResult = Root(at: Slot, root: string) | RootFailed(at: Slot) | NoRoot

  /** The nearest block at or below the slot decides, within the lookback and never below slot 0. */
  method FetchCanonicalRootAtSlot(slot: Slot, headers: Slot -> Header) returns (r: RootResult)
    ensures match r
      case Root(at, root) =>
        && slot - MAX_CANONICAL_ROOT_LOOKBACK <= at <= slot && headers(at) == Header(root, true)
        && forall s: Slot | at < s <= slot :: headers(s).NoHeader?
      case RootFailed(at) =>
        && slot - MAX_CANONICAL_ROOT_LOOKBACK <= at <= slot && !headers(at).NoHeader?
        && !(headers(at).Header? && headers(at).wellFormed)
        && forall s: Slot | at < s <= slot :: headers(s).NoHeader?
      case NoRoot => forall s: Slot | slot - MAX_CANONICAL_ROOT_LOOKBACK <= s <= slot :: headers(s).NoHeader?
  {
    var lookback: Slot := 0;
    while lookback <= MAX_CANONICAL_ROOT_LOOKBACK && lookback <= slot
      invariant lookback <= MAX_CANONICAL_ROOT_LOOKBACK + 1
      invariant forall s: Slot | slot - lookback < s <= slot :: headers(s).NoHeader?
      decreases MAX_CANONICAL_ROOT_LOOKBACK + 1 - lookback
    {
      var at: Slot := slot - lookback;
      match headers(at) {
        case HeaderFailed => return RootFailed(at);
        case Header(root, wellFormed) => return if wellFormed then Root(at, root) else RootFailed(at);
        case NoHeader =>
      }
      lookback := lookback + 1;
    }
    r := NoRoot;
  }
}
