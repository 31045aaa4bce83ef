/** What the assembler needs from sort.SliceStable: a stable sort by a strict order, when its result
    is the same for every arrangement of the input, and when it is not. */
module Sorting {

  ghost predicate StrictOrder<T(!new)>(less: (T, T) -> bool) {
    && (forall a :: !less(a, a))
    && (forall a, b, c :: less(a, b) && less(b, c) ==> less(a, c))
    && (forall a, b, c :: less(a, c) ==> less(a, b) || less(b, c))
  }

  predicate Sorted<T>(less: (T, T) -> bool, s: seq<T>) {
    forall i, j | 0 <= i < j < |s| :: !less(s[j], s[i])
  }

  /** `x` arrived before everything in `s`, so it goes before its equals. */
  function Insert<T>(less: (T, T) -> bool, x: T, s: seq<T>): seq<T> {
    if s == [] || !less(s[0], x) then [x] + s else [s[0]] + Insert(less, x, s[1..])
  }

  /** The stable sort of `s`. */
  function Sort<T>(less: (T, T) -> bool, s: seq<T>): seq<T> {
    if s == [] then [] else Insert(less, s[0], Sort(less, s[1..]))
  }

  lemma {:induction false} InsertMultiset<T>(less: (T, T) -> bool, x: T, s: seq<T>)
    ensures multiset(Insert(less, x, s)) == multiset(s) + multiset{x}
  {
    if s != [] && less(s[0], x) {
      InsertMultiset(less, x, s[1..]);
      assert s == [s[0]] + s[1..];
    }
  }

  lemma {:induction false} SortMultiset<T>(less: (T, T) -> bool, s: seq<T>)
    ensures multiset(Sort(less, s)) == multiset(s)
  {
    if s != [] {
      SortMultiset(less, s[1..]);
      InsertMultiset(less, s[0], Sort(less, s[1..]));
      assert s == [s[0]] + s[1..];
    }
  }

  lemma {:induction false} InsertSorted<T(!new)>(less: (T, T) -> bool, x: T, s: seq<T>)
    requires StrictOrder(less) && Sorted(less, s)
    ensures Sorted(less, Insert(less, x, s))
  {
    var r := Insert(less, x, s);
    if s != [] && less(s[0], x) {
      InsertSorted(less, x, s[1..]);
      var t := Insert(less, x, s[1..]);
      InsertMultiset(less, x, s[1..]);
      forall j | 0 <= j < |t| ensures !less(t[j], s[0]) {
        assert t[j] in multiset(t);
        if t[j] != x {
          assert t[j] in s[1..];
          var k :| 0 <= k < |s[1..]| && s[1..][k] == t[j];
          assert s[k + 1] == t[j];
        }
      }
    } else if s != [] {
      forall j | 0 <= j < |s| ensures !less(s[j], x) {
        if j > 0 { assert !less(s[j], s[0]); }
      }
    }
  }

  lemma {:induction false} SortSorted<T(!new)>(less: (T, T) -> bool, s: seq<T>)
    requires StrictOrder(less)
    ensures Sorted(less, Sort(less, s))
  {
    if s != [] {
      SortSorted(less, s[1..]);
      InsertSorted(less, s[0], Sort(less, s[1..]));
    }
  }

  /** Elements of `s` that the order cannot tell apart are the same element. */
  ghost predicate Separates<T>(less: (T, T) -> bool, s: seq<T>) {
    forall a, b | a in s && b in s && !less(a, b) && !less(b, a) :: a == b
  }

  lemma {:induction false} SortedUnique<T(!new)>(less: (T, T) -> bool, s: seq<T>, t: seq<T>)
    requires StrictOrder(less) && Sorted(less, s) && Sorted(less, t)
    requires multiset(s) == multiset(t) && Separates(less, s)
    ensures s == t
  {
    assert |s| == |multiset(s)| == |multiset(t)| == |t|;
    if s != [] {
      HeadIsLeast(less, s, t);
      HeadIsLeast(less, t, s);
      assert s[0] in multiset(s) && t[0] in multiset(t);
      assert s[0] == t[0];
      TailMultiset(s);
      TailMultiset(t);
      SortedUnique(less, s[1..], t[1..]);
    }
  }

  lemma HeadIsLeast<T(!new)>(less: (T, T) -> bool, s: seq<T>, t: seq<T>)
    requires StrictOrder(less) && Sorted(less, s) && multiset(s) == multiset(t) && s != [] && t != []
    ensures t[0] in s && !less(t[0], s[0])
  {
    assert t[0] in multiset(t);
    var j :| 0 <= j < |s| && s[j] == t[0];
  }

  lemma TailMultiset<T>(s: seq<T>)
    requires s != []
    ensures multiset(s[1..]) == multiset(s) - multiset{s[0]}
    ensures forall a | a in s[1..] :: a in s
  {
    assert s == [s[0]] + s[1..];
  }

  /** Sorting forgets the arrangement of its input when the order separates the elements. */
  lemma SortForgetsArrangement<T(!new)>(less: (T, T) -> bool, s: seq<T>, t: seq<T>)
    requires StrictOrder(less) && multiset(s) == multiset(t) && Separates(less, s)
    ensures Sort(less, s) == Sort(less, t)
  {
    SortMultiset(less, s);
    SortMultiset(less, t);
    SortSorted(less, s);
    SortSorted(less, t);
    var u := Sort(less, s);
    forall a | a in u ensures a in s {
      assert a in multiset(u);
      assert a in multiset(s);
    }
    SortedUnique(less, u, Sort(less, t));
  }

  /** The elements of `s` the order cannot tell from `x`, in their order in `s`. */
  function Ties<T>(less: (T, T) -> bool, x: T, s: seq<T>): seq<T> {
    if s == [] then []
    else (if !less(s[0], x) && !less(x, s[0]) then [s[0]] else []) + Ties(less, x, s[1..])
  }

  lemma {:induction false} InsertKeepsTies<T(!new)>(less: (T, T) -> bool, x: T, y: T, s: seq<T>)
    requires StrictOrder(less)
    ensures Ties(less, x, Insert(less, y, s)) == Ties(less, x, [y] + s)
  {
    assert ([y] + s)[1..] == s;
    if s != [] && less(s[0], y) {
      var r := [s[0]] + Insert(less, y, s[1..]);
      assert r[1..] == Insert(less, y, s[1..]);
      InsertKeepsTies(less, x, y, s[1..]);
      assert ([y] + s[1..])[1..] == s[1..];
    }
  }

  /** Stability: elements the order cannot tell apart keep their arrangement. */
  lemma {:induction false} SortKeepsTies<T(!new)>(less: (T, T) -> bool, x: T, s: seq<T>)
    requires StrictOrder(less)
    ensures Ties(less, x, Sort(less, s)) == Ties(less, x, s)
  {
    if s != [] {
      InsertKeepsTies(less, x, s[0], Sort(less, s[1..]));
      SortKeepsTies(less, x, s[1..]);
      assert ([s[0]] + Sort(less, s[1..]))[1..] == Sort(less, s[1..]);
    }
  }

  lemma {:induction false} TiesOfConcat<T>(less: (T, T) -> bool, x: T, s: seq<T>, t: seq<T>)
    ensures Ties(less, x, s + t) == Ties(less, x, s) + Ties(less, x, t)
  {
    if s == [] {
      assert s + t == t;
    } else {
      assert (s + t)[1..] == s[1..] + t;
      TiesOfConcat(less, x, s[1..], t);
    }
  }
}
