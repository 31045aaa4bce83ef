/** SSZ Bitlists and Bitvectors (internal/source/beaconapi/bitlist.go and bitvectorIndices in
    attestation_bits.go), over decoded bytes. */
module Bits {
  import opened Text

  type Bytes = seq<bv8>

  /** 1 << k on a byte. */
  function Mask(k: nat): bv8
    requires k < 8
  {
    if k == 0 then 1 else if k == 1 then 2 else if k == 2 then 4 else if k == 3 then 8
    else if k == 4 then 16 else if k == 5 then 32 else if k == 6 then 64 else 128
  }

  predicate Bit(b: bv8, k: nat)
    requires k < 8
  {
    b & Mask(k) != 0
  }

  /** Bit i of a byte string, least significant bit of the first byte first. */
  predicate FlatBit(buf: Bytes, i: nat) {
    i / 8 < |buf| && Bit(buf[i / 8], i % 8)
  }

  /** bits.Len8. */
  function Len8(b: bv8): (n: nat)
    ensures n <= 8 && (n == 0 <==> b == 0)
  {
    if b >= 128 then 8 else if b >= 64 then 7 else if b >= 32 then 6 else if b >= 16 then 5
    else if b >= 8 then 4 else if b >= 4 then 3 else if b >= 2 then 2 else if b >= 1 then 1 else 0
  }

  lemma Len8IsTop(b: bv8)
    requires b != 0
    ensures Bit(b, Len8(b) - 1)
    ensures forall k | Len8(b) <= k < 8 :: !Bit(b, k)
  {
  }

  // --------------------------------------------------------- bitlistLength

  function BitlistLength(buf: Bytes): nat {
    if buf == [] then 0
    else if buf[|buf| - 1] == 0 then BitlistLength(buf[..|buf| - 1])
    else (|buf| - 1) * 8 + Len8(buf[|buf| - 1]) - 1
  }

  method BitlistLengthLoop(buf: Bytes) returns (n: nat)
    ensures n == BitlistLength(buf)
  {
    var i := |buf|;
    assert buf[..i] == buf;
    while i > 0
      invariant 0 <= i <= |buf| && BitlistLength(buf) == BitlistLength(buf[..i])
    {
      i := i - 1;
      assert buf[..i + 1][..i] == buf[..i];
      if buf[i] == 0 { continue; }
      return i * 8 + Len8(buf[i]) - 1;
    }
    n := 0;
  }

  /** The length is the position of the highest set bit of the whole string, if any bit is set. */
  lemma {:induction false} LengthIsHighestBit(buf: Bytes, i: nat)
    requires FlatBit(buf, i)
    ensures i <= BitlistLength(buf) && FlatBit(buf, BitlistLength(buf))
    decreases |buf|
  {
    var n := |buf| - 1;
    if buf[n] == 0 {
      assert i / 8 < n;
      LengthIsHighestBit(buf[..n], i);
    } else {
      Len8IsTop(buf[n]);
      var top := Len8(buf[n]) - 1;
      assert BitlistLength(buf) == n * 8 + top;
      assert (n * 8 + top) / 8 == n && (n * 8 + top) % 8 == top;
      if i / 8 == n { assert i % 8 <= top; }
    }
  }

  // ---------------------------------------------------------------- bitSet

  datatype BitResult = Read(bit: bool) | OutOfRange

  function BitSet(buf: Bytes, index: nat): BitResult {
    if index >= BitlistLength(buf) then OutOfRange else Read(FlatBit(buf, index))
  }

  lemma LengthWithinBytes(buf: Bytes)
    ensures BitlistLength(buf) <= 8 * |buf| && (buf != [] ==> BitlistLength(buf) < 8 * |buf|)
  {
    if buf != [] && buf[|buf| - 1] == 0 { LengthWithinBytes(buf[..|buf| - 1]); }
  }

  method BitSetSteps(buf: Bytes, index: nat) returns (r: BitResult)
    ensures r == BitSet(buf, index)
  {
    var length := BitlistLengthLoop(buf);
    if index >= length { return OutOfRange; }
    LengthWithinBytes(buf);
    r := Read(buf[index / 8] & Mask(index % 8) != 0);
  }

  // -------------------------------------------------------------- encoding

  predicate At(bits: seq<bool>, i: nat) {
    i < |bits| && bits[i]
  }

  function Choose(b: bool, mask: bv8): bv8 {
    if b then mask else 0
  }

  function ByteOf(bits: seq<bool>): bv8 {
    Choose(At(bits, 0), 1) | Choose(At(bits, 1), 2) | Choose(At(bits, 2), 4) | Choose(At(bits, 3), 8) |
    Choose(At(bits, 4), 16) | Choose(At(bits, 5), 32) | Choose(At(bits, 6), 64) | Choose(At(bits, 7), 128)
  }

  /** SSZ packing of bits into bytes. */
  function Pack(bits: seq<bool>): Bytes
    decreases |bits|
  {
    if bits == [] then []
    else [ByteOf(bits)] + Pack(if |bits| <= 8 then [] else bits[8..])
  }

  lemma {:induction false} PackLength(bits: seq<bool>)
    ensures |Pack(bits)| == (|bits| + 7) / 8
  {
    if |bits| > 8 { PackLength(bits[8..]); }
  }

  lemma {:induction false} PackBit(bits: seq<bool>, i: nat)
    ensures FlatBit(Pack(bits), i) == At(bits, i)
    decreases |bits|
  {
    if bits != [] {
      var rest := if |bits| <= 8 then [] else bits[8..];
      if i < 8 {
      } else {
        PackBit(rest, i - 8);
        assert (i - 8) / 8 == i / 8 - 1 && (i - 8) % 8 == i % 8;
      }
    }
  }

  /** The SSZ Bitlist encoding: data bits, then the length sentinel. */
  function EncodeBitlist(bits: seq<bool>): Bytes {
    Pack(bits + [true])
  }

  /** Every bit list decodes to itself: its length, each of its bits, and nothing past its end. */
  lemma BitlistRoundTrip(bits: seq<bool>)
    ensures BitlistLength(EncodeBitlist(bits)) == |bits|
    ensures forall i: nat :: BitSet(EncodeBitlist(bits), i) == if i < |bits| then Read(bits[i]) else OutOfRange
  {
    var buf, all := EncodeBitlist(bits), bits + [true];
    PackBit(all, |bits|);
    LengthIsHighestBit(buf, |bits|);
    PackBit(all, BitlistLength(buf));
    forall i: nat ensures BitSet(buf, i) == if i < |bits| then Read(bits[i]) else OutOfRange {
      PackBit(all, i);
    }
  }

  /** The data bits of an encoding. */
  function DecodeBitlist(buf: Bytes): seq<bool> {
    seq(BitlistLength(buf), i requires 0 <= i => FlatBit(buf, i))
  }

  lemma ByteFromBits(a: bv8, b: bv8)
    requires forall k | 0 <= k < 8 :: Bit(a, k) == Bit(b, k)
    ensures a == b
  {
    assert Bit(a, 0) == Bit(b, 0) && Bit(a, 1) == Bit(b, 1) && Bit(a, 2) == Bit(b, 2) && Bit(a, 3) == Bit(b, 3);
    assert Bit(a, 4) == Bit(b, 4) && Bit(a, 5) == Bit(b, 5) && Bit(a, 6) == Bit(b, 6) && Bit(a, 7) == Bit(b, 7);
  }

  lemma BytesFromBits(a: Bytes, b: Bytes)
    requires |a| == |b| && forall i: nat :: FlatBit(a, i) == FlatBit(b, i)
    ensures a == b
  {
    forall j | 0 <= j < |a| ensures a[j] == b[j] {
      forall k: nat | k < 8 ensures Bit(a[j], k) == Bit(b[j], k) {
        var i := 8 * j + k;
        assert i / 8 == j && i % 8 == k;
        assert FlatBit(a, i) == FlatBit(b, i);
      }
      ByteFromBits(a[j], b[j]);
    }
  }

  lemma LengthOfSentinel(buf: Bytes)
    requires buf != [] && buf[|buf| - 1] != 0
    ensures (BitlistLength(buf) + 8) / 8 == |buf| && FlatBit(buf, BitlistLength(buf))
  {
    var n, top := |buf| - 1, Len8(buf[|buf| - 1]) - 1;
    Len8IsTop(buf[n]);
    assert (n * 8 + top) / 8 == n && (n * 8 + top) % 8 == top;
  }

  lemma ReencodedBit(buf: Bytes, i: nat)
    requires buf != [] && buf[|buf| - 1] != 0
    ensures FlatBit(EncodeBitlist(DecodeBitlist(buf)), i) == FlatBit(buf, i)
  {
    LengthOfSentinel(buf);
    PackBit(DecodeBitlist(buf) + [true], i);
    if FlatBit(buf, i) { LengthIsHighestBit(buf, i); }
  }

  /** Conversely, every byte string whose last byte carries the sentinel is the encoding of the bits
      read out of it. */
  lemma BitlistReencodes(buf: Bytes)
    requires buf != [] && buf[|buf| - 1] != 0
    ensures EncodeBitlist(DecodeBitlist(buf)) == buf
  {
    var back := EncodeBitlist(DecodeBitlist(buf));
    forall i: nat ensures FlatBit(back, i) == FlatBit(buf, i) {
      ReencodedBit(buf, i);
    }
    LengthOfSentinel(buf);
    PackLength(DecodeBitlist(buf) + [true]);
    BytesFromBits(back, buf);
  }

  // ------------------------------------------------------ bitvectorIndices

  /** The set positions below n, ascending. */
  function Indices(raw: Bytes, n: nat): seq<nat> {
    if n == 0 then [] else Indices(raw, n - 1) + (if FlatBit(raw, n - 1) then [n - 1] else [])
  }

  predicate Increasing(s: seq<nat>) {
    forall i, j | 0 <= i < j < |s| :: s[i] < s[j]
  }

  lemma {:induction false} IndicesMembers(raw: Bytes, n: nat, c: nat)
    ensures c in Indices(raw, n) <==> c < n && FlatBit(raw, c)
  {
    if n > 0 { IndicesMembers(raw, n - 1, c); }
  }

  lemma {:induction false} IndicesIncrease(raw: Bytes, n: nat)
    ensures Increasing(Indices(raw, n)) && forall i | 0 <= i < |Indices(raw, n)| :: Indices(raw, n)[i] < n
  {
    if n > 0 {
      IndicesIncrease(raw, n - 1);
    }
  }

  /** The list is ascending and holds exactly the set positions. */
  lemma IndicesAre(raw: Bytes, n: nat)
    ensures Increasing(Indices(raw, n))
    ensures forall c: nat :: c in Indices(raw, n) <==> c < n && FlatBit(raw, c)
  {
    IndicesIncrease(raw, n);
    forall c: nat ensures c in Indices(raw, n) <==> c < n && FlatBit(raw, c) {
      IndicesMembers(raw, n, c);
    }
  }

  lemma {:induction false} IncreasingUnique(a: seq<nat>, b: seq<nat>)
    requires Increasing(a) && Increasing(b) && forall c :: c in a <==> c in b
    ensures a == b
    decreases |a|
  {
    assert a == [] <==> b == [] by {
      if a != [] { assert a[0] in a; }
      if b != [] { assert b[0] in b; }
    }
    if a != [] {
      var m, n := |a| - 1, |b| - 1;
      assert a[m] in b && b[n] in a;
      assert a[m] == b[n];
      var a', b' := a[..m], b[..n];
      forall c: nat ensures c in a' <==> c in b' {
        DropLast(a, c);
        DropLast(b, c);
      }
      IncreasingUnique(a', b');
      assert a == a[..m] + [a[m]] && b == b[..n] + [b[n]];
    }
  }

  lemma DropLast(a: seq<nat>, c: nat)
    requires a != [] && Increasing(a)
    ensures c in a[..|a| - 1] <==> c in a && c != a[|a| - 1]
  {
    assert a == a[..|a| - 1] + [a[|a| - 1]];
  }

  /** One bit for each position below n, set where the position is listed. */
  function Marks(list: seq<nat>, n: nat): (r: seq<bool>)
    ensures |r| == n && forall c: nat | c < n :: r[c] <==> c in list
  {
    if n == 0 then [] else Marks(list, n - 1) + [n - 1 in list]
  }

  /** The committee bit vector of an ascending list of committees reads back as that list. */
  lemma BitvectorRoundTrip(list: seq<nat>, n: nat)
    requires Increasing(list) && forall c | c in list :: c < n
    ensures Indices(Pack(Marks(list, n)), n) == list
  {
    var bits := Marks(list, n);
    var raw := Pack(bits);
    IndicesAre(raw, n);
    forall c: nat ensures c in Indices(raw, n) <==> c in list {
      PackBit(bits, c);
    }
    IncreasingUnique(Indices(raw, n), list);
  }

  /** None: the wrong number of bytes, or no bit set. */
  method BitvectorIndices(raw: Bytes, bitLength: nat) returns (r: Option<seq<nat>>)
    ensures r.Some? <==> |raw| == (bitLength + 7) / 8 && Indices(raw, bitLength) != []
    ensures r.Some? ==> r.value == Indices(raw, bitLength)
  {
    if |raw| != (bitLength + 7) / 8 { return None; }
    var indices: seq<nat> := [];
    for index := 0 to bitLength
      invariant indices == Indices(raw, index)
    {
      if raw[index / 8] & Mask(index % 8) != 0 { indices := indices + [index]; }
    }
    r := if indices == [] then None else Some(indices);
  }
}
