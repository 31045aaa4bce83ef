/** NTP timestamps across era rollovers and the SNTP offset arithmetic (internal/clock/packet.go and
    query.go; sections 6 and 8 of RFC 5905).

    Here an instant is a signed count of nanoseconds since the Unix epoch.  The float64 quotient in
    fromNTPNear is exact for every pivot within 2^53 seconds of the epoch, so it is an exact quotient
    here. */
module Ntp {
  import opened Text
  import opened Domain

  const ERA: int := 0x1_0000_0000
  const NTP_EPOCH_OFFSET: int := 2_208_988_800
  const MAX_TRUSTED_ROUND_TRIP: int := SECOND

  function Unix(t: int): int {
    t / SECOND
  }

  function Nanosecond(t: int): nat {
    t % SECOND
  }

  /** math.Round(n / d): to the nearest integer, halves away from zero. */
  function RoundQuotient(n: int, d: int): int
    requires d > 0
  {
    if n >= 0 then (2 * n + d) / (2 * d) else -((d - 2 * n) / (2 * d))
  }

  /** Shifting a 64-bit second count left by 32 keeps its low 32 bits, negative counts included. */
  function ToNtp(t: int): (v: nat)
    ensures v < TWO64
  {
    (Unix(t) + NTP_EPOCH_OFFSET) % ERA * ERA + Nanosecond(t) * ERA / SECOND
  }

  function NtpTime(sec: int, v: nat): int {
    sec * SECOND + (v % ERA) * SECOND / ERA
  }

  function FromNtpNear(v: nat, pivot: int): int {
    var base := v / ERA - NTP_EPOCH_OFFSET;
    NtpTime(base + RoundQuotient(Unix(pivot) - base, ERA) * ERA, v)
  }

  // ------------------------------------------------------------ round trip

  /** Which era, counted from the NTP epoch, an instant falls in. */
  function EraOf(t: int): int {
    (Unix(t) + NTP_EPOCH_OFFSET) / ERA
  }

  /** Rounding k eras plus a remainder gives k exactly when the remainder is below half an era, or is
      exactly half an era and the tie rounds towards k. */
  lemma RoundsToIff(k: int, rest: int)
    ensures RoundQuotient(k * ERA + rest, ERA) == k <==>
            -ERA / 2 < rest < ERA / 2 || (rest == ERA / 2 && k < 0) || (rest == -(ERA / 2) && k > 0)
  {
    var n := k * ERA + rest;
    if n >= 0 {
      var q := (2 * n + ERA) / (2 * ERA);
      assert 2 * ERA * q <= 2 * n + ERA < 2 * ERA * q + 2 * ERA;
    } else {
      var q := (ERA - 2 * n) / (2 * ERA);
      assert 2 * ERA * q <= ERA - 2 * n < 2 * ERA * q + 2 * ERA;
    }
  }

  /** When a decoded timestamp lands in the right second, exactly. */
  predicate PivotFits(t: int, pivot: int) {
    var apart := Unix(pivot) - Unix(t);
    -ERA / 2 < apart < ERA / 2 || (apart == ERA / 2 && EraOf(t) < 0) || (apart == -(ERA / 2) && EraOf(t) > 0)
  }

  lemma DecodedSecond(t: int, pivot: int)
    ensures var back := FromNtpNear(ToNtp(t), pivot);
            && Unix(back) == Unix(t) + (RoundQuotient(EraOf(t) * ERA + (Unix(pivot) - Unix(t)), ERA) - EraOf(t)) * ERA
            && Nanosecond(back) == Nanosecond(t) * ERA / SECOND * SECOND / ERA
  {
    var v := ToNtp(t);
    var base := v / ERA - NTP_EPOCH_OFFSET;
    assert Unix(t) == base + EraOf(t) * ERA;
    assert Unix(pivot) - base == EraOf(t) * ERA + (Unix(pivot) - Unix(t));
    var era := RoundQuotient(Unix(pivot) - base, ERA);
    var sec, ns := base + era * ERA, v % ERA * SECOND / ERA;
    assert (sec * SECOND + ns) / SECOND == sec && (sec * SECOND + ns) % SECOND == ns;
  }

  /** Every instant is recovered to its exact second, and to within one nanosecond below, exactly when
      the pivot fits: in particular for every pivot less than 2^31 seconds away, across any rollover. */
  lemma NtpRoundTripIff(t: int, pivot: int)
    ensures Unix(FromNtpNear(ToNtp(t), pivot)) == Unix(t) <==> PivotFits(t, pivot)
    ensures PivotFits(t, pivot) ==> t - 1 <= FromNtpNear(ToNtp(t), pivot) <= t
    ensures -0x8000_0000 < Unix(pivot) - Unix(t) < 0x8000_0000 ==> PivotFits(t, pivot)
  {
    DecodedSecond(t, pivot);
    RoundsToIff(EraOf(t), Unix(pivot) - Unix(t));
    var back := FromNtpNear(ToNtp(t), pivot);
    assert back == Unix(back) * SECOND + Nanosecond(back) && t == Unix(t) * SECOND + Nanosecond(t);
  }

  lemma DecodingMonotone(t: int, u: int, pivot: int)
    requires t <= u && PivotFits(t, pivot) && PivotFits(u, pivot)
    ensures FromNtpNear(ToNtp(t), pivot) <= FromNtpNear(ToNtp(u), pivot)
  {
    NtpRoundTripIff(t, pivot);
    NtpRoundTripIff(u, pivot);
    DecodedSecond(t, pivot);
    DecodedSecond(u, pivot);
    var a, b := FromNtpNear(ToNtp(t), pivot), FromNtpNear(ToNtp(u), pivot);
    assert a == Unix(a) * SECOND + Nanosecond(a) && b == Unix(b) * SECOND + Nanosecond(b);
  }

  // --------------------------------------------------------------- packets

  type Byte = b: int | 0 <= b < 256 witness 0
  type Packet = p: seq<Byte> | |p| == 48 witness seq(48, _ => 0)

  function Power(n: nat): nat {
    if n == 0 then 1 else 256 * Power(n - 1)
  }

  /** binary.BigEndian. */
  function Put(v: nat, n: nat): (s: seq<Byte>)
    ensures |s| == n
  {
    if n == 0 then [] else Put(v / 256, n - 1) + [v % 256]
  }

  function Get(s: seq<Byte>): nat {
    if s == [] then 0 else 256 * Get(s[..|s| - 1]) + s[|s| - 1]
  }

  lemma {:induction false} GetPut(v: nat, n: nat)
    requires v < Power(n)
    ensures Get(Put(v, n)) == v
  {
    if n > 0 {
      GetPut(v / 256, n - 1);
      assert Put(v, n)[..n - 1] == Put(v / 256, n - 1);
    }
  }

  /** v shifted right by this many bytes. */
  function ShiftedBytes(v: nat, bytes: nat): nat {
    if bytes == 0 then v else ShiftedBytes(v / 256, bytes - 1)
  }

  /** The most significant byte comes first. */
  lemma {:induction false} PutBytes(v: nat, n: nat, i: nat)
    requires i < n
    ensures Put(v, n)[i] == ShiftedBytes(v, n - 1 - i) % 256
  {
    if i < n - 1 { PutBytes(v / 256, n - 1, i); }
  }

  datatype Header = Header(
    leap: nat, version: nat, mode: nat, stratum: nat, origin: nat, receive: nat, transmit: nat)

  function Parse(p: Packet): Header {
    Header(p[0] / 64, p[0] / 8 % 8, p[0] % 8, p[1], Get(p[24..32]), Get(p[32..40]), Get(p[40..48]))
  }

  /** A version 4 client request that carries T1 in its last eight bytes and is zero otherwise. */
  method NewRequest(t1: int) returns (p: Packet)
    ensures p[0] == 0x23 && p[40..48] == Put(ToNtp(t1), 8)
    ensures forall i | 1 <= i < 40 :: p[i] == 0
  {
    var a := new Byte[48](_ => 0);
    a[0] := 4 * 8 + 3;
    PutUint64(a, ToNtp(t1));
    p := a[..];
  }

  /** binary.BigEndian.PutUint64 into the transmit field. */
  method PutUint64(a: array<Byte>, v: nat)
    requires a.Length == 48
    modifies a
    ensures a[40..48] == Put(v, 8) && a[..40] == old(a[..40])
  {
    var stamp := Put(v, 8);
    for i := 0 to 8
      invariant a[..40] == old(a[..40])
      invariant forall j | 0 <= j < i :: a[40 + j] == stamp[j]
    {
      a[40 + i] := stamp[i];
    }
  }

  // ----------------------------------------------------------------- query

  datatype Reading = Reading(at: int, offset: Duration, roundTrip: Duration)

  /** Duration division by two: truncates towards zero. */
  function Half(d: Duration): Duration {
    if d >= 0 then d / 2 else var e: int := d; -((-e) / 2)
  }

  predicate Trustworthy(h: Header, sent: nat) {
    && h.leap != 3 && 1 <= h.stratum <= 15 && 3 <= h.version <= 4 && h.mode == 4
    && h.origin == sent && h.receive != 0 && h.transmit != 0
  }

  function Offset(t1: int, t2: int, t3: int, t4: int): Duration {
    Half(WrapInt(Sub(t2, t1) + Sub(t3, t4)))
  }

  function Delay(t1: int, t2: int, t3: int, t4: int): Duration {
    WrapInt(Sub(t4, t1) - Sub(t3, t2))
  }

  /** The four timestamps, once known. */
  function Judge(t1: int, t2: int, t3: int, t4: int): Option<Reading> {
    var delay := Delay(t1, t2, t3, t4);
    if t3 < t2 || delay < 0 || delay > MAX_TRUSTED_ROUND_TRIP then None
    else Some(Reading(t4, Offset(t1, t2, t3, t4), delay))
  }

  /** What query makes of a reply received at t4 to a request sent at t1. */
  function Query(h: Header, sent: nat, t1: int, t4: int): Option<Reading> {
    if !Trustworthy(h, sent) then None
    else Judge(t1, FromNtpNear(h.receive, t4), FromNtpNear(h.transmit, t4), t4)
  }

  /** The same from the bytes read off the socket. */
  function QueryBytes(reply: seq<Byte>, t1: int, t4: int): Option<Reading> {
    if |reply| < 48 then None else Query(Parse(reply[..48]), ToNtp(t1), t1, t4)
  }

  /** An exchange as it happened, in local time: the request arrives and the reply leaves between t1
      and t4, and the server, whose clock is `theta` ahead, stamps both. */
  datatype Exchange = Exchange(t1: int, arrive: int, leave: int, t4: int, theta: int)

  /** The server stamps both instants; nothing is said about how far its clock is off. */
  predicate Stamped(x: Exchange, h: Header) {
    && x.t1 <= x.arrive <= x.leave <= x.t4
    && h.receive == ToNtp(x.arrive + x.theta) && h.transmit == ToNtp(x.leave + x.theta)
  }

  /** Both stamps are close enough to t4 to be decoded into their own second. */
  predicate PivotsFit(x: Exchange) {
    PivotFits(x.arrive + x.theta, x.t4) && PivotFits(x.leave + x.theta, x.t4)
  }

  // ------------------------------------------------------ decoding, exactly

  const ERA_NS: int := ERA * SECOND
  const REACH: int := 2_200_000_000 * SECOND

  /** Nanoseconds lost when a stamp is encoded and decoded: 0 or 1, decided by its own fraction. */
  function LostIn(t: int): int {
    Nanosecond(t) - Nanosecond(t) * ERA / SECOND * SECOND / ERA
  }

  /** How many eras decoding near the pivot misses an instant by. */
  function Shift(t: int, pivot: int): int {
    RoundQuotient(EraOf(t) * ERA + (Unix(pivot) - Unix(t)), ERA) - EraOf(t)
  }

  /** A decoded stamp: the instant less what it lost, k eras off, and never far from the pivot. */
  predicate DecodedAs(back: int, t: int, pivot: int, k: int) {
    back == t - LostIn(t) + k * ERA_NS && 0 <= LostIn(t) <= 1 && -REACH <= back - pivot <= REACH
  }

  lemma RoundedIsClose(n: int)
    ensures -ERA / 2 <= RoundQuotient(n, ERA) * ERA - n <= ERA / 2
  {
    if n >= 0 {
      var q := (2 * n + ERA) / (2 * ERA);
      assert 2 * ERA * q <= 2 * n + ERA < 2 * ERA * q + 2 * ERA;
    } else {
      var q := (ERA - 2 * n) / (2 * ERA);
      assert 2 * ERA * q <= ERA - 2 * n < 2 * ERA * q + 2 * ERA;
    }
  }

  lemma ShiftIffPivot(t: int, pivot: int)
    ensures Shift(t, pivot) == 0 <==> PivotFits(t, pivot)
  {
    RoundsToIff(EraOf(t), Unix(pivot) - Unix(t));
  }

  lemma LostIsSmall(t: int)
    ensures 0 <= LostIn(t) <= 1
  {
    var ns := Nanosecond(t);
    var f := ns * ERA / SECOND;
    assert f * SECOND <= ns * ERA < f * SECOND + SECOND;
  }

  /** Whatever the pivot, decoding gives the instant to within a nanosecond below, a whole number of
      eras off: none exactly when the pivot fits. */
  lemma DecodedExactly(t: int, pivot: int)
    ensures DecodedAs(FromNtpNear(ToNtp(t), pivot), t, pivot, Shift(t, pivot))
  {
    DecodedSecond(t, pivot);
    LostIsSmall(t);
    RoundedIsClose(EraOf(t) * ERA + (Unix(pivot) - Unix(t)));
    var back, k := FromNtpNear(ToNtp(t), pivot), Shift(t, pivot);
    assert back == Unix(back) * SECOND + Nanosecond(back);
    assert t == Unix(t) * SECOND + Nanosecond(t) && pivot == Unix(pivot) * SECOND + Nanosecond(pivot);
    assert Unix(back) == Unix(t) + k * ERA;
  }

  predicate ExchangeDecoded(x: Exchange, t2: int, t3: int, k2: int, k3: int) {
    && x.t1 <= x.arrive <= x.leave <= x.t4
    && DecodedAs(t2, x.arrive + x.theta, x.t4, k2) && DecodedAs(t3, x.leave + x.theta, x.t4, k3)
  }

  predicate StampsDecode(x: Exchange, h: Header) {
    ExchangeDecoded(x, FromNtpNear(h.receive, x.t4), FromNtpNear(h.transmit, x.t4),
                    Shift(x.arrive + x.theta, x.t4), Shift(x.leave + x.theta, x.t4))
  }

  lemma PairDecodes(x: Exchange, stamp2: int, stamp3: int, v2: nat, v3: nat)
    requires x.t1 <= x.arrive <= x.leave <= x.t4 && stamp2 == x.arrive + x.theta && stamp3 == x.leave + x.theta
    requires v2 == ToNtp(stamp2) && v3 == ToNtp(stamp3)
    ensures ExchangeDecoded(x, FromNtpNear(v2, x.t4), FromNtpNear(v3, x.t4), Shift(stamp2, x.t4), Shift(stamp3, x.t4))
  {
    DecodedExactly(stamp2, x.t4);
    DecodedExactly(stamp3, x.t4);
  }

  lemma StampedDecodes(x: Exchange, h: Header)
    requires Stamped(x, h)
    ensures StampsDecode(x, h)
  {
    PairDecodes(x, x.arrive + x.theta, x.leave + x.theta, h.receive, h.transmit);
  }

  // -------------------------------------------------------- the arithmetic

  function PathDelays(x: Exchange): int {
    (x.arrive - x.t1) + (x.t4 - x.leave)
  }

  /** For stamps near t4 nothing saturates or wraps unnoticed: a reading is accepted exactly when the
      true difference lies between 0 and one second, and it then carries that difference and the true
      mean to within half a nanosecond. */
  lemma JudgedExactly(t1: int, t2: int, t3: int, t4: int)
    requires t1 <= t4 && -REACH <= t2 - t4 <= REACH && -REACH <= t3 - t4 <= REACH
    ensures Judge(t1, t2, t3, t4).Some? <==> t2 <= t3 && 0 <= t4 - t1 - (t3 - t2) <= SECOND
    ensures Judge(t1, t2, t3, t4).Some? ==>
              var r := Judge(t1, t2, t3, t4).value;
              && r.roundTrip == t4 - t1 - (t3 - t2)
              && (t2 - t1) + (t3 - t4) - 1 <= 2 * r.offset <= (t2 - t1) + (t3 - t4) + 1
  {
  }

  /** The round trip is the path delays to within 1 ns and at most one second, and twice the error of
      the offset exceeds it by at most 1 ns above and 3 ns below. */
  predicate Accurate(x: Exchange, r: Reading) {
    && 0 <= r.roundTrip <= SECOND
    && PathDelays(x) - 1 <= r.roundTrip <= PathDelays(x) + 1
    && -(r.roundTrip + 3) <= 2 * (r.offset - x.theta) <= r.roundTrip + 1
  }

  /** Path delays d1 and d2, losses l2 and l3: only unshifted stamps leave the errors small. */
  lemma ShiftsShow(d1: nat, d2: nat, theta: int, l2: int, l3: int, k2: int, k3: int, rt: int, offset: int)
    requires 0 <= l2 <= 1 && 0 <= l3 <= 1 && 0 <= rt <= SECOND
    requires rt == d1 + d2 + l3 - l2 - (k3 - k2) * ERA_NS
    requires var twice := d1 - d2 + 2 * theta - l2 - l3 + (k2 + k3) * ERA_NS; twice - 1 <= 2 * offset <= twice + 1
    ensures d1 + d2 - 1 <= rt <= d1 + d2 + 1 && -(rt + 3) <= 2 * (offset - theta) <= rt + 1 <==> k2 == 0 && k3 == 0
  {
  }

  lemma JudgedAccurateIff(x: Exchange, t2: int, t3: int, k2: int, k3: int)
    requires ExchangeDecoded(x, t2, t3, k2, k3) && Judge(x.t1, t2, t3, x.t4).Some?
    ensures Accurate(x, Judge(x.t1, t2, t3, x.t4).value) <==> k2 == 0 && k3 == 0
  {
    JudgedExactly(x.t1, t2, t3, x.t4);
    var r := Judge(x.t1, t2, t3, x.t4).value;
    ShiftsShow(x.arrive - x.t1, x.t4 - x.leave, x.theta, LostIn(x.arrive + x.theta), LostIn(x.leave + x.theta),
               k2, k3, r.roundTrip, r.offset);
  }

  /** The accepted reading, if any, is accurate exactly when both pivots fit. */
  ghost predicate AccurateExactlyWhenFitting(x: Exchange, h: Header, sent: nat) {
    forall r :: Query(h, sent, x.t1, x.t4) == Some(r) ==> (Accurate(x, r) <==> PivotsFit(x))
  }

  predicate ShiftsVanish(x: Exchange) {
    Shift(x.arrive + x.theta, x.t4) == 0 && Shift(x.leave + x.theta, x.t4) == 0
  }

  lemma ShiftsVanishIff(x: Exchange)
    ensures ShiftsVanish(x) <==> PivotsFit(x)
  {
    ShiftIffPivot(x.arrive + x.theta, x.t4);
    ShiftIffPivot(x.leave + x.theta, x.t4);
  }

  ghost predicate AccurateExactlyUnshifted(x: Exchange, h: Header, sent: nat) {
    forall r :: Query(h, sent, x.t1, x.t4) == Some(r) ==> (Accurate(x, r) <==> ShiftsVanish(x))
  }

  lemma DecodedAccurateIff(x: Exchange, h: Header, sent: nat)
    requires StampsDecode(x, h)
    ensures AccurateExactlyUnshifted(x, h, sent)
  {
    var t2, t3 := FromNtpNear(h.receive, x.t4), FromNtpNear(h.transmit, x.t4);
    var k2, k3 := Shift(x.arrive + x.theta, x.t4), Shift(x.leave + x.theta, x.t4);
    forall r | Query(h, sent, x.t1, x.t4) == Some(r) ensures Accurate(x, r) <==> ShiftsVanish(x) {
      JudgedAccurateIff(x, t2, t3, k2, k3);
    }
  }

  /** Over every exchange with non-negative path delays, however far the server's clock is off: an
      accepted reading is accurate exactly when both stamps lie within half an era of t4 (the pivot
      condition). */
  lemma AccurateIff(x: Exchange, h: Header, sent: nat)
    requires Stamped(x, h)
    ensures AccurateExactlyWhenFitting(x, h, sent)
  {
    StampedDecodes(x, h);
    DecodedAccurateIff(x, h, sent);
    ShiftsVanishIff(x);
  }

  /** A server one whole era ahead is accepted, and its offset read as -1 ns. */
  lemma EraAheadIsAccepted() returns (x: Exchange, h: Header, sent: nat)
    ensures Stamped(x, h) && Trustworthy(h, sent) && sent == ToNtp(x.t1)
    ensures x.theta == ERA_NS && Query(h, sent, x.t1, x.t4) == Some(Reading(2, -1, 2))
    ensures !Accurate(x, Query(h, sent, x.t1, x.t4).value)
  {
    x, sent := Exchange(0, 0, 0, 2, ERA_NS), ToNtp(0);
    h := Header(0, 4, 4, 1, sent, ToNtp(ERA_NS), ToNtp(ERA_NS));
    assert Unix(ERA_NS) == ERA && Nanosecond(ERA_NS) == 0;
    assert FromNtpNear(ToNtp(ERA_NS), 2) == 0;
  }

  // ------------------------------------------------------------- acceptance

  /** The measured delay: path delays, corrected by what each stamp lost and by the eras between them. */
  function MeasuredDelay(x: Exchange): int {
    var s2, s3 := x.arrive + x.theta, x.leave + x.theta;
    PathDelays(x) + LostIn(s3) - LostIn(s2) - (Shift(s3, x.t4) - Shift(s2, x.t4)) * ERA_NS
  }

  /** The decoded stamps are in order. */
  predicate DecodedInOrder(x: Exchange) {
    var s2, s3 := x.arrive + x.theta, x.leave + x.theta;
    s2 - LostIn(s2) + Shift(s2, x.t4) * ERA_NS <= s3 - LostIn(s3) + Shift(s3, x.t4) * ERA_NS
  }

  predicate AcceptedIff(x: Exchange, h: Header, sent: nat) {
    Query(h, sent, x.t1, x.t4).Some? <==> DecodedInOrder(x) && 0 <= MeasuredDelay(x) <= SECOND
  }

  lemma DecodedAcceptedIff(x: Exchange, h: Header, sent: nat)
    requires StampsDecode(x, h) && Trustworthy(h, sent)
    ensures AcceptedIff(x, h, sent)
  {
    JudgedExactly(x.t1, FromNtpNear(h.receive, x.t4), FromNtpNear(h.transmit, x.t4), x.t4);
  }

  /** Over every exchange: a trustworthy reply is accepted exactly when its decoded stamps are in order
      and the measured delay is between 0 and one second. */
  lemma HonestReplyAcceptedIff(x: Exchange, h: Header, sent: nat)
    requires Stamped(x, h) && Trustworthy(h, sent)
    ensures AcceptedIff(x, h, sent)
  {
    StampedDecodes(x, h);
    DecodedAcceptedIff(x, h, sent);
  }

  lemma UnshiftedInOrder(s2: int, s3: int, pivot: int)
    requires s2 <= s3 && PivotFits(s2, pivot) && PivotFits(s3, pivot)
    ensures s2 - LostIn(s2) <= s3 - LostIn(s3)
  {
    DecodedExactly(s2, pivot);
    DecodedExactly(s3, pivot);
    ShiftIffPivot(s2, pivot);
    ShiftIffPivot(s3, pivot);
    DecodingMonotone(s2, s3, pivot);
  }

  /** Where the pivots fit, the stamps are always in order and the measured delay is the path delays,
      corrected by at most the nanosecond each stamp may lose. */
  lemma FittingDelay(x: Exchange)
    requires PivotsFit(x) && x.arrive <= x.leave
    ensures DecodedInOrder(x) && PathDelays(x) - 1 <= MeasuredDelay(x) <= PathDelays(x) + 1
  {
    ShiftsVanishIff(x);
    LostIsSmall(x.arrive + x.theta);
    LostIsSmall(x.leave + x.theta);
    UnshiftedInOrder(x.arrive + x.theta, x.leave + x.theta, x.t4);
  }

  // ------------------------------------------------------------- the bytes

  datatype Fields = Fields(leap: nat, version: nat, mode: nat, stratum: nat, origin: nat)

  /** What a server puts on the wire: its status and version, its stratum, an origin, and its clock's
      readings as the request arrives and as the reply leaves.  Other bytes may be anything. */
  predicate Wire(x: Exchange, f: Fields, reply: seq<Byte>) {
    && |reply| >= 48 && x.t1 <= x.arrive <= x.leave <= x.t4
    && f.leap < 4 && f.version < 8 && f.mode < 8 && f.origin < TWO64
    && reply[0] == f.leap * 64 + f.version * 8 + f.mode && reply[1] == f.stratum
    && reply[24..32] == Put(f.origin, 8)
    && reply[32..40] == Put(ToNtp(x.arrive + x.theta), 8) && reply[40..48] == Put(ToNtp(x.leave + x.theta), 8)
  }

  /** A synchronised server's answer to this very request, with both stamps. */
  predicate Sound(x: Exchange, f: Fields) {
    && f.leap != 3 && 1 <= f.stratum <= 15 && 3 <= f.version <= 4 && f.mode == 4 && f.origin == ToNtp(x.t1)
    && ToNtp(x.arrive + x.theta) != 0 && ToNtp(x.leave + x.theta) != 0
  }

  lemma FirstByte(leap: nat, version: nat, mode: nat)
    requires leap < 4 && version < 8 && mode < 8
    ensures var b := leap * 64 + version * 8 + mode; b / 64 == leap && b / 8 % 8 == version && b % 8 == mode
  {
  }

  lemma StampReadsBack(reply: seq<Byte>, from: nat, v: nat)
    requires from + 8 <= 48 <= |reply| && v < TWO64 && reply[from..from + 8] == Put(v, 8)
    ensures Get(reply[..48][from..from + 8]) == v
  {
    assert reply[..48][from..from + 8] == reply[from..from + 8];
    assert Power(8) == TWO64;
    GetPut(v, 8);
  }

  lemma WireStamps(x: Exchange, f: Fields, reply: seq<Byte>)
    requires Wire(x, f, reply)
    ensures var h := Parse(reply[..48]);
            h.origin == f.origin && h.receive == ToNtp(x.arrive + x.theta) && h.transmit == ToNtp(x.leave + x.theta)
  {
    StampReadsBack(reply, 24, f.origin);
    StampReadsBack(reply, 32, ToNtp(x.arrive + x.theta));
    StampReadsBack(reply, 40, ToNtp(x.leave + x.theta));
  }

  /** The header is read off those bytes. */
  lemma WireParses(x: Exchange, f: Fields, reply: seq<Byte>)
    requires Wire(x, f, reply)
    ensures Parse(reply[..48]) == Header(f.leap, f.version, f.mode, f.stratum, f.origin,
                                         ToNtp(x.arrive + x.theta), ToNtp(x.leave + x.theta))
  {
    FirstByte(f.leap, f.version, f.mode);
    WireStamps(x, f, reply);
  }

  ghost predicate BytesAcceptedWhen(x: Exchange, f: Fields, reply: seq<Byte>) {
    QueryBytes(reply, x.t1, x.t4).Some? <==> Sound(x, f) && DecodedInOrder(x) && 0 <= MeasuredDelay(x) <= SECOND
  }

  /** Every reply, byte for byte: it is accepted exactly when the server claims to be synchronised at
      stratum 1 to 15, in server mode of version 3 or 4, echoes the request's own stamp, leaves neither
      stamp zero, and the stamps decode in order with a measured delay of at most a second. */
  lemma BytesAcceptedIff(x: Exchange, f: Fields, reply: seq<Byte>)
    requires Wire(x, f, reply)
    ensures BytesAcceptedWhen(x, f, reply)
  {
    WireParses(x, f, reply);
    var h := Parse(reply[..48]);
    WireAccepted(x, f, h);
    assert QueryBytes(reply, x.t1, x.t4) == Query(h, ToNtp(x.t1), x.t1, x.t4);
  }

  lemma WireAccepted(x: Exchange, f: Fields, h: Header)
    requires Stamped(x, h) && h.leap == f.leap && h.version == f.version && h.mode == f.mode
    requires h.stratum == f.stratum && h.origin == f.origin
    ensures Query(h, ToNtp(x.t1), x.t1, x.t4).Some? <==>
            Sound(x, f) && DecodedInOrder(x) && 0 <= MeasuredDelay(x) <= SECOND
  {
    if Trustworthy(h, ToNtp(x.t1)) { HonestReplyAcceptedIff(x, h, ToNtp(x.t1)); }
  }

  ghost predicate BytesAccurateWhen(x: Exchange, reply: seq<Byte>) {
    forall r :: QueryBytes(reply, x.t1, x.t4) == Some(r) ==> r.at == x.t4 && (Accurate(x, r) <==> PivotsFit(x))
  }

  lemma BytesAreQueried(x: Exchange, reply: seq<Byte>, h: Header, sent: nat)
    requires |reply| >= 48 && h == Parse(reply[..48]) && sent == ToNtp(x.t1) && AccurateExactlyWhenFitting(x, h, sent)
    ensures BytesAccurateWhen(x, reply)
  {
  }

  /** What is accepted off the wire is dated at its arrival and accurate exactly when both pivots fit. */
  lemma BytesOffsetError(x: Exchange, f: Fields, reply: seq<Byte>)
    requires Wire(x, f, reply)
    ensures BytesAccurateWhen(x, reply)
  {
    WireParses(x, f, reply);
    var h := Parse(reply[..48]);
    AccurateIff(x, h, ToNtp(x.t1));
    BytesAreQueried(x, reply, h, ToNtp(x.t1));
  }

  /** A short read is refused. */
  lemma ShortReadRefused(reply: seq<Byte>, t1: int, t4: int)
    requires |reply| < 48
    ensures QueryBytes(reply, t1, t4).None?
  {
  }
}
