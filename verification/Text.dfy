/** Byte-wise string order, decimal numerals and sorted key lists.  A string is a sequence of bytes
    here, as in Go: its length is its byte length. */
module Text {

  datatype Option<+T> = None | Some(value: T)

  /** Go's `<` on strings. */
  predicate Less(a: string, b: string) {
    b != "" && (a == "" || a[0] < b[0] || (a[0] == b[0] && Less(a[1..], b[1..])))
  }

  lemma {:induction false} LessTotal(a: string, b: string)
    ensures a != b ==> Less(a, b) || Less(b, a)
    ensures Less(a, b) ==> a != b && !Less(b, a)
  {
    if a != "" && b != "" && a[0] == b[0] {
      LessTotal(a[1..], b[1..]);
      assert a == [a[0]] + a[1..] && b == [b[0]] + b[1..];
    }
  }

  lemma {:induction false} LessTransitive(a: string, b: string, c: string)
    requires Less(a, b) && Less(b, c)
    ensures Less(a, c)
  {
    if a != "" && a[0] == b[0] == c[0] { LessTransitive(a[1..], b[1..], c[1..]); }
  }

  lemma {:induction false} LessSamePrefix(p: string, a: string, b: string)
    ensures Less(p + a, p + b) <==> Less(a, b)
  {
    if p == "" {
      assert p + a == a && p + b == b;
    } else {
      assert (p + a)[1..] == p[1..] + a && (p + b)[1..] == p[1..] + b;
      LessSamePrefix(p[1..], a, b);
    }
  }

  // ------------------------------------------------------- sorted key lists

  predicate IsFirst(ks: set<string>, k: string) {
    k in ks && forall j | j in ks && j != k :: Less(k, j)
  }

  lemma {:induction false} FirstExists(ks: set<string>)
    requires ks != {}
    ensures exists k :: IsFirst(ks, k)
    decreases |ks|
  {
    var x :| x in ks;
    var rest := ks - {x};
    assert forall j | j in ks :: j == x || j in rest;
    if rest == {} {
      assert IsFirst(ks, x);
    } else {
      FirstExists(rest);
      var k :| IsFirst(rest, k);
      LessTotal(x, k);
      if Less(x, k) {
        forall j | j in ks && j != x ensures Less(x, j) {
          if j != k { LessTransitive(x, k, j); }
        }
        assert IsFirst(ks, x);
      } else {
        assert IsFirst(ks, k);
      }
    }
  }

  lemma FirstUnique(ks: set<string>)
    ensures forall a, b | IsFirst(ks, a) && IsFirst(ks, b) :: a == b
  {
    forall a, b | IsFirst(ks, a) && IsFirst(ks, b) ensures a == b {
      LessTotal(a, b);
    }
  }

  /** The keys of a map in ascending order (a map range followed by a sort). */
  function SortedKeys(ks: set<string>): (r: seq<string>)
    ensures forall k :: k in r <==> k in ks
    ensures |r| == |ks|
    decreases |ks|
  {
    if ks == {} then []
    else
      FirstExists(ks);
      FirstUnique(ks);
      var k :| k in ks && IsFirst(ks, k);
      [k] + SortedKeys(ks - {k})
  }

  lemma {:induction false} SortedKeysAscend(ks: set<string>, i: nat, j: nat)
    requires i < j < |ks|
    ensures Less(SortedKeys(ks)[i], SortedKeys(ks)[j])
    decreases |ks|
  {
    var r := SortedKeys(ks);
    var k := r[0];
    assert IsFirst(ks, k) && r == [k] + SortedKeys(ks - {k});
    if i == 0 {
      assert r[j] in SortedKeys(ks - {k});
    } else {
      SortedKeysAscend(ks - {k}, i - 1, j - 1);
    }
  }

  // ------------------------------------------------------ decimal numerals

  function Digit(d: nat): char
    requires d < 10
  {
    '0' + d as char
  }

  /** fmt's %d on a non-negative integer. */
  function Decimal(n: nat): (s: string)
    ensures s != "" && forall i | 0 <= i < |s| :: '0' <= s[i] <= '9'
  {
    if n < 10 then [Digit(n)] else Decimal(n / 10) + [Digit(n % 10)]
  }

  predicate AllDigits(s: string) {
    forall i | 0 <= i < |s| :: '0' <= s[i] <= '9'
  }

  function NumeralValue(s: string): nat
    requires AllDigits(s)
  {
    if s == "" then 0 else 10 * NumeralValue(s[..|s| - 1]) + (s[|s| - 1] - '0') as nat
  }

  lemma {:induction false} DecimalValue(n: nat)
    ensures NumeralValue(Decimal(n)) == n
  {
    if n >= 10 {
      var s := Decimal(n);
      assert s[..|s| - 1] == Decimal(n / 10);
      DecimalValue(n / 10);
    } else {
      assert Decimal(n)[..0] == "";
    }
  }

  const TWO64: nat := 0x1_0000_0000_0000_0000

  /** strconv.ParseUint(s, 10, 64). */
  function ParseUint(s: string): (r: Option<nat>)
    ensures r.Some? ==> r.value < TWO64
  {
    if s != "" && AllDigits(s) && NumeralValue(s) < TWO64 then Some(NumeralValue(s)) else None
  }

  /** strconv.Atoi: an optional sign, then digits, within int64. */
  function Atoi(s: string): Option<int> {
    var negative := s != "" && s[0] == '-';
    var body := if s != "" && (s[0] == '-' || s[0] == '+') then s[1..] else s;
    if body == "" || !AllDigits(body) then None
    else
      var n: int := NumeralValue(body);
      var v := if negative then -n else n;
      if -0x8000_0000_0000_0000 <= v <= 0x7fff_ffff_ffff_ffff then Some(v) else None
  }

  /** Both parsers read back a number written in decimal, up to their own bounds. */
  lemma NumeralsReadBack(n: nat)
    ensures ParseUint(Decimal(n)) == if n < TWO64 then Some(n) else None
    ensures Atoi(Decimal(n)) == Atoi("+" + Decimal(n)) == if n < TWO64 / 2 then Some(n) else None
    ensures Atoi("-" + Decimal(n)) == if n <= TWO64 / 2 then Some(0 - n) else None
  {
    DecimalValue(n);
    var s := Decimal(n);
    assert '0' <= s[0] <= '9' && ("+" + s)[1..] == s && ("-" + s)[1..] == s;
  }

  // --------------------------------------------- length-prefixed encodings

  /** "%d:%s" of a string's length and the string. */
  function Field(s: string): string {
    Decimal(|s|) + ":" + s
  }

  lemma {:induction false} PrefixUpToColon(a: string, b: string, x: string, y: string)
    requires AllDigits(a) && AllDigits(b)
    requires a + ":" + x == b + ":" + y
    ensures a == b && x == y
  {
    if a == "" || b == "" {
      assert (a + ":" + x)[0] == (b + ":" + y)[0];
      assert x == (a + ":" + x)[1..] && y == (b + ":" + y)[1..];
    } else {
      assert a[0] == (a + ":" + x)[0] && b[0] == (b + ":" + y)[0];
      assert (a + ":" + x)[1..] == a[1..] + ":" + x && (b + ":" + y)[1..] == b[1..] + ":" + y;
      PrefixUpToColon(a[1..], b[1..], x, y);
      assert a == [a[0]] + a[1..] && b == [b[0]] + b[1..];
    }
  }

  /** A length-prefixed field can be read back off the front of any text. */
  lemma FieldReadsBack(a: string, b: string, x: string, y: string)
    requires Field(a) + x == Field(b) + y
    ensures a == b && x == y
  {
    assert Field(a) + x == Decimal(|a|) + ":" + (a + x);
    assert Field(b) + y == Decimal(|b|) + ":" + (b + y);
    PrefixUpToColon(Decimal(|a|), Decimal(|b|), a + x, b + y);
    DecimalValue(|a|);
    DecimalValue(|b|);
    assert a == (a + x)[..|a|] && b == (b + y)[..|b|];
    assert x == (a + x)[|a|..] && y == (b + y)[|b|..];
  }

  function Fields(l: seq<string>): string {
    if l == [] then "" else Field(l[0]) + Fields(l[1..])
  }

  lemma {:induction false} FieldsInjective(a: seq<string>, b: seq<string>)
    requires Fields(a) == Fields(b)
    ensures a == b
  {
    if a != [] && b != [] {
      FieldReadsBack(a[0], b[0], Fields(a[1..]), Fields(b[1..]));
      FieldsInjective(a[1..], b[1..]);
      assert a == [a[0]] + a[1..] && b == [b[0]] + b[1..];
    }
  }
}
