/** The comparators of internal/timeline/assembler.go: how observations and samples are ordered, and
    why two records the comparators cannot tell apart are the same record. */
module RecordOrder {
  import opened Text
  import opened Sorting
  import opened Domain

  // ---------------------------------------------------------- encodeAttrs

  function AttrList(attrs: map<string, string>, keys: seq<string>): seq<string>
    requires forall k | k in keys :: k in attrs
  {
    if keys == [] then [] else [keys[0], attrs[keys[0]]] + AttrList(attrs, keys[1..])
  }

  /** The tie-breaking text of an attribute map: every key and value, length-prefixed, in key order. */
  function EncodeAttrs(attrs: map<string, string>): string {
    Fields(AttrList(attrs, SortedKeys(attrs.Keys)))
  }

  lemma AttrListStep(attrs: map<string, string>, keys: seq<string>, i: nat)
    requires (forall k | k in keys :: k in attrs) && i < |keys|
    ensures keys[i] in attrs
    ensures Fields(AttrList(attrs, keys[i..])) ==
            Field(keys[i]) + (Field(attrs[keys[i]]) + Fields(AttrList(attrs, keys[i + 1..])))
  {
    assert keys[i..][1..] == keys[i + 1..];
  }

  lemma Regroup(text: string, a: string, b: string, rest: string)
    ensures text + (a + (b + rest)) == text + a + b + rest
  {
  }

  method EncodeAttrsLoop(attrs: map<string, string>) returns (text: string)
    ensures text == EncodeAttrs(attrs)
  {
    text := "";
    var keys := SortedKeys(attrs.Keys);
    for i := 0 to |keys|
      invariant text + Fields(AttrList(attrs, keys[i..])) == EncodeAttrs(attrs)
    {
      AttrListStep(attrs, keys, i);
      Regroup(text, Field(keys[i]), Field(attrs[keys[i]]), Fields(AttrList(attrs, keys[i + 1..])));
      text := text + Field(keys[i]) + Field(attrs[keys[i]]);
    }
  }

  lemma {:induction false} AttrListInjective(m: map<string, string>, n: map<string, string>, a: seq<string>,
                                             b: seq<string>)
    requires (forall k | k in a :: k in m) && (forall k | k in b :: k in n)
    requires AttrList(m, a) == AttrList(n, b)
    ensures a == b && forall k | k in a :: m[k] == n[k]
  {
    var l, r := AttrList(m, a), AttrList(n, b);
    if a != [] && b != [] {
      assert l[0] == a[0] && r[0] == b[0] && l[1] == m[a[0]] && r[1] == n[b[0]];
      assert l[2..] == AttrList(m, a[1..]) && r[2..] == AttrList(n, b[1..]);
      AttrListInjective(m, n, a[1..], b[1..]);
      assert a == [a[0]] + a[1..] && b == [b[0]] + b[1..];
    }
  }

  /** Different attribute maps never share an encoding, whatever bytes their keys and values hold. */
  lemma EncodeAttrsInjective(m: map<string, string>, n: map<string, string>)
    requires EncodeAttrs(m) == EncodeAttrs(n)
    ensures m == n
  {
    var a, b := SortedKeys(m.Keys), SortedKeys(n.Keys);
    FieldsInjective(AttrList(m, a), AttrList(n, b));
    AttrListInjective(m, n, a, b);
    assert forall k :: k in m.Keys <==> k in a;
    assert forall k :: k in n.Keys <==> k in b;
  }

  // ----------------------------------------------------------- comparators

  /** The fields of an observation the comparator looks at, as it looks at them. */
  datatype ObservationRow = ObservationRow(
    at: Instant, kind: string, source: string, attrs: string, measured: bool, offset: Duration, sampleAt: Instant)

  function RowOf(o: Observation): ObservationRow {
    ObservationRow(o.at, KindName(o.kind), SourceName(o.source), EncodeAttrs(o.attrs), o.clockMeasured, o.clockOffset,
                   o.clockSampleAt)
  }

  predicate RowLess(a: ObservationRow, b: ObservationRow) {
    if a.at != b.at then a.at < b.at
    else if a.kind != b.kind then Less(a.kind, b.kind)
    else if a.source != b.source then Less(a.source, b.source)
    else if a.attrs != b.attrs then Less(a.attrs, b.attrs)
    else if a.measured != b.measured then !a.measured
    else if a.offset != b.offset then a.offset < b.offset
    else a.sampleAt < b.sampleAt
  }

  predicate ObservationLess(a: Observation, b: Observation) {
    RowLess(RowOf(a), RowOf(b))
  }

  datatype SampleRow = SampleRow(
    at: Instant, component: string, name: string, source: string, value: real, measured: bool, offset: Duration,
    sampleAt: Instant)

  function SampleRowOf(m: Sample): SampleRow {
    SampleRow(m.at, ComponentName(m.component), m.name, SourceName(m.source), m.value, m.clockMeasured, m.clockOffset,
              m.clockSampleAt)
  }

  predicate SampleRowLess(a: SampleRow, b: SampleRow) {
    if a.at != b.at then a.at < b.at
    else if a.component != b.component then Less(a.component, b.component)
    else if a.name != b.name then Less(a.name, b.name)
    else if a.source != b.source then Less(a.source, b.source)
    else if a.value != b.value then a.value < b.value
    else if a.measured != b.measured then !a.measured
    else if a.offset != b.offset then a.offset < b.offset
    else a.sampleAt < b.sampleAt
  }

  predicate SampleLess(a: Sample, b: Sample) {
    SampleRowLess(SampleRowOf(a), SampleRowOf(b))
  }

  /** One compared field. */
  datatype Key = Num(n: int) | Txt(t: string) | Val(v: real)

  predicate KeyLess(a: Key, b: Key) {
    match (a, b)
    case (Num(x), Num(y)) => x < y
    case (Txt(x), Txt(y)) => Less(x, y)
    case (Val(x), Val(y)) => x < y
    case _ => false
  }

  /** Field by field, first difference decides. */
  predicate Lex(a: seq<Key>, b: seq<Key>) {
    a != [] && b != [] && (if a[0] == b[0] then Lex(a[1..], b[1..]) else KeyLess(a[0], b[0]))
  }

  predicate SameShape(a: Key, b: Key) {
    (a.Num? && b.Num?) || (a.Txt? && b.Txt?) || (a.Val? && b.Val?)
  }

  predicate Comparable(a: seq<Key>, b: seq<Key>) {
    |a| == |b| && forall i | 0 <= i < |a| :: SameShape(a[i], b[i])
  }

  lemma {:induction false} LexTotal(a: seq<Key>, b: seq<Key>)
    requires Comparable(a, b)
    ensures a != b ==> Lex(a, b) || Lex(b, a)
    ensures Lex(a, b) ==> a != b && !Lex(b, a)
  {
    if a != [] {
      if a[0] == b[0] {
        LexTotal(a[1..], b[1..]);
        assert a == [a[0]] + a[1..] && b == [b[0]] + b[1..];
      } else if a[0].Txt? {
        LessTotal(a[0].t, b[0].t);
      }
    }
  }

  lemma {:induction false} LexTransitive(a: seq<Key>, b: seq<Key>, c: seq<Key>)
    requires Comparable(a, b) && Comparable(b, c) && Lex(a, b) && Lex(b, c)
    ensures Lex(a, c)
  {
    if a[0] == b[0] == c[0] {
      LexTransitive(a[1..], b[1..], c[1..]);
    } else if a[0] != b[0] && b[0] != c[0] && a[0].Txt? {
      LessTransitive(a[0].t, b[0].t, c[0].t);
      LessTotal(a[0].t, c[0].t);
    }
  }

  function Bit(b: bool): int { if b then 1 else 0 }

  function RowKeys(r: ObservationRow): seq<Key> {
    [Num(r.at), Txt(r.kind), Txt(r.source), Txt(r.attrs), Num(Bit(r.measured)), Num(r.offset), Num(r.sampleAt)]
  }

  function SampleKeys(r: SampleRow): seq<Key> {
    [Num(r.at), Txt(r.component), Txt(r.name), Txt(r.source), Val(r.value), Num(Bit(r.measured)), Num(r.offset),
     Num(r.sampleAt)]
  }

  /** Lex at the first index where two key lists differ. */
  lemma {:induction false} LexAt(a: seq<Key>, b: seq<Key>, i: nat)
    requires |a| == |b| && i < |a| && a[i] != b[i] && forall j | 0 <= j < i :: a[j] == b[j]
    ensures Lex(a, b) == KeyLess(a[i], b[i])
  {
    if i > 0 { LexAt(a[1..], b[1..], i - 1); }
  }

  lemma {:induction false} LexSame(a: seq<Key>)
    ensures !Lex(a, a)
  {
    if a != [] { LexSame(a[1..]); }
  }

  function FirstDifference(a: seq<Key>, b: seq<Key>): (i: nat)
    requires |a| == |b|
    ensures i <= |a| && (forall j | 0 <= j < i :: a[j] == b[j]) && (i < |a| ==> a[i] != b[i])
  {
    if a == [] then 0
    else if a[0] != b[0] then 0
    else
      var i := FirstDifference(a[1..], b[1..]);
      assert forall j | 1 <= j < i + 1 :: a[j] == a[1..][j - 1] && b[j] == b[1..][j - 1];
      i + 1
  }

  lemma RowLessIsLex(a: ObservationRow, b: ObservationRow)
    ensures RowLess(a, b) == Lex(RowKeys(a), RowKeys(b))
  {
    var x, y := RowKeys(a), RowKeys(b);
    var i := FirstDifference(x, y);
    if i == |x| {
      assert x == y;
      LexSame(x);
      assert x[0] == y[0] && x[1] == y[1] && x[2] == y[2] && x[3] == y[3] && x[4] == y[4] && x[5] == y[5] &&
             x[6] == y[6];
    } else {
      LexAt(x, y, i);
      assert i > 0 ==> x[0] == y[0];
      assert i > 1 ==> x[1] == y[1];
      assert i > 2 ==> x[2] == y[2];
      assert i > 3 ==> x[3] == y[3];
      assert i > 4 ==> x[4] == y[4];
      assert i > 5 ==> x[5] == y[5];
    }
  }

  lemma SampleRowLessIsLex(a: SampleRow, b: SampleRow)
    ensures SampleRowLess(a, b) == Lex(SampleKeys(a), SampleKeys(b))
  {
    var x, y := SampleKeys(a), SampleKeys(b);
    var i := FirstDifference(x, y);
    if i == |x| {
      assert x == y;
      LexSame(x);
      assert x[0] == y[0] && x[1] == y[1] && x[2] == y[2] && x[3] == y[3] && x[4] == y[4] && x[5] == y[5] &&
             x[6] == y[6] && x[7] == y[7];
    } else {
      LexAt(x, y, i);
      assert i > 0 ==> x[0] == y[0];
      assert i > 1 ==> x[1] == y[1];
      assert i > 2 ==> x[2] == y[2];
      assert i > 3 ==> x[3] == y[3];
      assert i > 4 ==> x[4] == y[4];
      assert i > 5 ==> x[5] == y[5];
      assert i > 6 ==> x[6] == y[6];
    }
  }

  /** An order defined by comparable key lists is a strict weak order. */
  lemma LexIsStrict(a: seq<Key>, b: seq<Key>, c: seq<Key>)
    requires Comparable(a, b) && Comparable(b, c)
    ensures !Lex(a, a)
    ensures Lex(a, b) && Lex(b, c) ==> Lex(a, c)
    ensures Lex(a, c) ==> Lex(a, b) || Lex(b, c)
  {
    LexSame(a);
    LexTotal(a, b);
    LexTotal(b, c);
    if Lex(a, b) && Lex(b, c) { LexTransitive(a, b, c); }
    if Lex(a, c) && !Lex(a, b) && !Lex(b, c) {
      if a != b && b != c {
        LexTransitive(c, b, a);
        LexTotal(a, c);
      }
    }
  }

  lemma RowStrict(a: ObservationRow, b: ObservationRow, c: ObservationRow)
    ensures !RowLess(a, a)
    ensures RowLess(a, b) && RowLess(b, c) ==> RowLess(a, c)
    ensures RowLess(a, c) ==> RowLess(a, b) || RowLess(b, c)
  {
    RowLessIsLex(a, a);
    RowLessIsLex(a, b);
    RowLessIsLex(b, c);
    RowLessIsLex(a, c);
    LexIsStrict(RowKeys(a), RowKeys(b), RowKeys(c));
  }

  lemma ObservationStrict(a: Observation, b: Observation, c: Observation)
    ensures !ObservationLess(a, a)
    ensures ObservationLess(a, b) && ObservationLess(b, c) ==> ObservationLess(a, c)
    ensures ObservationLess(a, c) ==> ObservationLess(a, b) || ObservationLess(b, c)
  {
    RowStrict(RowOf(a), RowOf(b), RowOf(c));
  }

  lemma ObservationOrder()
    ensures StrictOrder(ObservationLess)
  {
    forall a, b, c
      ensures !ObservationLess(a, a)
      ensures ObservationLess(a, b) && ObservationLess(b, c) ==> ObservationLess(a, c)
      ensures ObservationLess(a, c) ==> ObservationLess(a, b) || ObservationLess(b, c)
    {
      ObservationStrict(a, b, c);
    }
  }

  lemma SampleRowStrict(a: SampleRow, b: SampleRow, c: SampleRow)
    ensures !SampleRowLess(a, a)
    ensures SampleRowLess(a, b) && SampleRowLess(b, c) ==> SampleRowLess(a, c)
    ensures SampleRowLess(a, c) ==> SampleRowLess(a, b) || SampleRowLess(b, c)
  {
    SampleRowLessIsLex(a, a);
    SampleRowLessIsLex(a, b);
    SampleRowLessIsLex(b, c);
    SampleRowLessIsLex(a, c);
    LexIsStrict(SampleKeys(a), SampleKeys(b), SampleKeys(c));
  }

  lemma SampleStrict(a: Sample, b: Sample, c: Sample)
    ensures !SampleLess(a, a)
    ensures SampleLess(a, b) && SampleLess(b, c) ==> SampleLess(a, c)
    ensures SampleLess(a, c) ==> SampleLess(a, b) || SampleLess(b, c)
  {
    SampleRowStrict(SampleRowOf(a), SampleRowOf(b), SampleRowOf(c));
  }

  lemma SampleOrder()
    ensures StrictOrder(SampleLess)
  {
    forall a, b, c
      ensures !SampleLess(a, a)
      ensures SampleLess(a, b) && SampleLess(b, c) ==> SampleLess(a, c)
      ensures SampleLess(a, c) ==> SampleLess(a, b) || SampleLess(b, c)
    {
      SampleStrict(a, b, c);
    }
  }

  // ------------------------------------- what the comparators tell apart

  /** Everything the observation comparator looks at. */
  predicate SameButSlot(a: Observation, b: Observation) {
    a.(slot := b.slot) == b
  }

  lemma RowTie(a: ObservationRow, b: ObservationRow)
    ensures !RowLess(a, b) && !RowLess(b, a) <==> a == b
  {
    LessTotal(a.kind, b.kind);
    LessTotal(a.source, b.source);
    LessTotal(a.attrs, b.attrs);
  }

  /** Two observations tie exactly when they agree on every field but the slot. */
  lemma ObservationTie(a: Observation, b: Observation)
    ensures !ObservationLess(a, b) && !ObservationLess(b, a) <==> SameButSlot(a, b)
  {
    RowTie(RowOf(a), RowOf(b));
    if RowOf(a) == RowOf(b) {
      EncodeAttrsInjective(a.attrs, b.attrs);
    }
  }

  lemma SampleRowTie(a: SampleRow, b: SampleRow)
    ensures !SampleRowLess(a, b) && !SampleRowLess(b, a) <==> a == b
  {
    LessTotal(a.component, b.component);
    LessTotal(a.name, b.name);
    LessTotal(a.source, b.source);
  }

  /** Two samples tie only when they are the same sample. */
  lemma SampleTie(a: Sample, b: Sample)
    ensures !SampleLess(a, b) && !SampleLess(b, a) <==> a == b
  {
    SampleRowTie(SampleRowOf(a), SampleRowOf(b));
    if SampleRowOf(a) == SampleRowOf(b) {
    }
  }
}
