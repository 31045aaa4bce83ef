/** Pruning the two tables of the store (internal/store/retention.go).  Timestamps are the stored
    texts, compared byte by byte as SQLite does; TimeLayout shows that this is time order. */
module Retention {
  import opened Text
  import TimeLayout

  const PRUNE_BATCH_SIZE: nat := 1000

  /** The order of the table names 'observations' and 'samples'. */
  datatype Table = Observations | Samples

  datatype Row = Row(at: string, table: Table, id: nat)

  /** ORDER BY at ASC, table_name ASC, id ASC. */
  predicate Before(a: Row, b: Row) {
    if a.at != b.at then Less(a.at, b.at)
    else if a.table != b.table then a.table == Observations
    else a.id < b.id
  }

  function TableName(table: Table): string {
    match table
    case Observations => "observations"
    case Samples => "samples"
  }

  /** The order is that of the texts: time, then table name, then id. */
  lemma BeforeIff(a: Row, b: Row)
    ensures Before(a, b) <==>
            || Less(a.at, b.at)
            || (a.at == b.at && Less(TableName(a.table), TableName(b.table)))
            || (a.at == b.at && TableName(a.table) == TableName(b.table) && a.id < b.id)
  {
    LessTotal(a.at, b.at);
    LessTotal(TableName(a.table), TableName(b.table));
    assert TableName(Observations)[0] == 'o' && TableName(Samples)[0] == 's';
  }

  lemma BeforeTotal(a: Row, b: Row)
    ensures a != b ==> Before(a, b) || Before(b, a)
    ensures Before(a, b) ==> a != b && !Before(b, a)
  {
    LessTotal(a.at, b.at);
  }

  lemma BeforeTransitive(a: Row, b: Row, c: Row)
    requires Before(a, b) && Before(b, c)
    ensures Before(a, c)
  {
    LessTotal(a.at, c.at);
    LessTotal(b.at, c.at);
    if a.at != b.at && b.at != c.at { LessTransitive(a.at, b.at, c.at); }
  }

  // ------------------------------------------------- the oldest rows of a set

  predicate IsOldest(rows: set<Row>, r: Row) {
    r in rows && forall s | s in rows && s != r :: Before(r, s)
  }

  lemma {:induction false} OldestExists(rows: set<Row>)
    requires rows != {}
    ensures exists r :: IsOldest(rows, r)
    decreases |rows|
  {
    var x :| x in rows;
    var rest := rows - {x};
    assert forall s | s in rows :: s == x || s in rest;
    if rest == {} {
      assert IsOldest(rows, x);
    } else {
      OldestExists(rest);
      var r :| IsOldest(rest, r);
      BeforeTotal(x, r);
      if Before(x, r) {
        forall s | s in rows && s != x ensures Before(x, s) {
          if s != r { BeforeTransitive(x, r, s); }
        }
        assert IsOldest(rows, x);
      } else {
        assert IsOldest(rows, r);
      }
    }
  }

  lemma OldestUnique(rows: set<Row>)
    ensures forall a, b | IsOldest(rows, a) && IsOldest(rows, b) :: a == b
  {
    forall a, b | IsOldest(rows, a) && IsOldest(rows, b) ensures a == b { BeforeTotal(a, b); }
  }

  function Oldest(rows: set<Row>): (r: Row)
    requires rows != {}
    ensures IsOldest(rows, r)
  {
    OldestExists(rows);
    OldestUnique(rows);
    var r :| r in rows && IsOldest(rows, r);
    r
  }

  /** The first `limit` rows in order. */
  function Batch(rows: set<Row>, limit: nat): (b: set<Row>)
    ensures b <= rows
    decreases limit
  {
    if limit == 0 || rows == {} then {}
    else {Oldest(rows)} + Batch(rows - {Oldest(rows)}, limit - 1)
  }

  /** What is left once they are gone. */
  function WithoutOldest(rows: set<Row>, n: nat): set<Row> {
    rows - Batch(rows, n)
  }

  /** Removed rows all come before kept ones. */
  ghost predicate UpwardClosed(all: set<Row>, kept: set<Row>) {
    kept <= all && forall a, b | a in all && a !in kept && b in kept :: Before(a, b)
  }

  /** As many rows as the limit allows. */
  predicate Full(batch: set<Row>, rows: set<Row>, limit: nat) {
    |batch| == if |rows| < limit then |rows| else limit
  }

  lemma FullStep(rows: set<Row>, first: Row, rest: set<Row>, limit: nat)
    requires first in rows && limit > 0 && rest <= rows - {first} && Full(rest, rows - {first}, limit - 1)
    ensures Full({first} + rest, rows, limit)
  {
    assert |rows - {first}| == |rows| - 1;
    assert |{first} + rest| == 1 + |rest|;
  }

  lemma {:induction false} BatchSize(rows: set<Row>, limit: nat)
    ensures Full(Batch(rows, limit), rows, limit)
    decreases limit
  {
    if limit > 0 && rows != {} {
      var first := Oldest(rows);
      BatchSize(rows - {first}, limit - 1);
      FullStep(rows, first, Batch(rows - {first}, limit - 1), limit);
    } else {
    }
  }

  lemma {:induction false} BatchComesFirst(rows: set<Row>, limit: nat)
    ensures UpwardClosed(rows, rows - Batch(rows, limit))
    decreases limit
  {
    if limit > 0 && rows != {} {
      var first := Oldest(rows);
      BatchComesFirst(rows - {first}, limit - 1);
    }
  }

  lemma {:induction false} BatchesCompose(rows: set<Row>, m: nat, n: nat)
    ensures WithoutOldest(WithoutOldest(rows, m), n) == WithoutOldest(rows, m + n)
    decreases m
  {
    if m > 0 && rows != {} {
      var first := Oldest(rows);
      var rest := rows - {first};
      BatchesCompose(rest, m - 1, n);
      assert WithoutOldest(rows, m) == WithoutOldest(rest, m - 1);
      assert WithoutOldest(rows, m + n) == WithoutOldest(rest, m - 1 + n);
    } else {
      assert rows - {} == rows;
    }
  }

  // ------------------------------------------------------------ the tables

  function RowsOf(table: Table, rows: map<nat, string>): set<Row> {
    set id | id in rows :: Row(rows[id], table, id)
  }

  lemma {:induction false} RowsOfSize(table: Table, rows: map<nat, string>)
    ensures |RowsOf(table, rows)| == |rows|
    decreases |rows|
  {
    if rows != map[] {
      var id :| id in rows;
      var rest := rows - {id};
      RowsOfSize(table, rest);
      var row, others := Row(rows[id], table, id), RowsOf(table, rest);
      forall r ensures r in RowsOf(table, rows) <==> r == row || r in others {
        if r in RowsOf(table, rows) && r != row { assert r.id in rest; }
      }
      assert RowsOf(table, rows) == {row} + others;
      assert rows.Keys == rest.Keys + {id};
    }
  }

  /** DELETE FROM t WHERE id IN (SELECT id FROM prune_batch WHERE table_name = t). */
  function Deleted(table: Table, rows: map<nat, string>, batch: set<Row>): map<nat, string> {
    var ids := set r | r in batch && r.table == table :: r.id;
    rows - ids
  }

  lemma DeletedRows(table: Table, rows: map<nat, string>, batch: set<Row>)
    requires forall r | r in batch && r.table == table :: r in RowsOf(table, rows)
    ensures RowsOf(table, Deleted(table, rows, batch)) == RowsOf(table, rows) - batch
  {
    var after := Deleted(table, rows, batch);
    forall r ensures r in RowsOf(table, after) <==> r in RowsOf(table, rows) && r !in batch {
      if r in RowsOf(table, rows) && r !in batch {
        assert r.id in after;
      }
    }
  }

  lemma TablesSize(observations: map<nat, string>, samples: map<nat, string>)
    ensures |RowsOf(Observations, observations) + RowsOf(Samples, samples)| == |observations| + |samples|
  {
    RowsOfSize(Observations, observations);
    RowsOfSize(Samples, samples);
    assert RowsOf(Observations, observations) !! RowsOf(Samples, samples);
  }

  /** Both deletions together remove the batch, row for row. */
  lemma BothDeleted(observations: map<nat, string>, samples: map<nat, string>, batch: set<Row>)
    requires batch <= RowsOf(Observations, observations) + RowsOf(Samples, samples)
    ensures RowsOf(Observations, Deleted(Observations, observations, batch)) +
            RowsOf(Samples, Deleted(Samples, samples, batch)) ==
            RowsOf(Observations, observations) + RowsOf(Samples, samples) - batch
  {
    DeletedRows(Observations, observations, batch);
    DeletedRows(Samples, samples, batch);
  }

  lemma BothDeletedSize(observations: map<nat, string>, samples: map<nat, string>, o: map<nat, string>,
                        s: map<nat, string>, batch: set<Row>)
    requires batch <= RowsOf(Observations, observations) + RowsOf(Samples, samples)
    requires RowsOf(Observations, o) + RowsOf(Samples, s) ==
             RowsOf(Observations, observations) + RowsOf(Samples, samples) - batch
    ensures |batch| == |observations| + |samples| - (|o| + |s|)
  {
    TablesSize(observations, samples);
    TablesSize(o, s);
  }

  /** Rows older than the cutoff, or all of them. */
  function Matching(rows: set<Row>, cutoff: Option<string>): set<Row> {
    set r | r in rows && (cutoff.None? || Less(r.at, cutoff.value))
  }

  datatype PruneResult =
    | Pruned
    | BadAge
    | BadBytes
    | NoRoomForSidecars
    | CannotFit
    | StillTooLarge

  /** Live size as a function of the rows left; nothing is assumed about it. */
  type SizeOf = set<Row> -> int

  /** What is left after k batches. */
  function After(all: set<Row>, k: nat): set<Row> {
    WithoutOldest(all, k * PRUNE_BATCH_SIZE)
  }

  lemma AfterOneMore(all: set<Row>, k: nat)
    ensures After(all, k) - Batch(After(all, k), PRUNE_BATCH_SIZE) == After(all, k + 1)
    ensures After(all, 0) == all
  {
    BatchesCompose(all, k * PRUNE_BATCH_SIZE, PRUNE_BATCH_SIZE);
    assert k * PRUNE_BATCH_SIZE + PRUNE_BATCH_SIZE == (k + 1) * PRUNE_BATCH_SIZE;
  }

  /** The set left by the size pass: after the least number of batches that brings the size within
      the budget. */
  ghost predicate FirstFit(all: set<Row>, kept: set<Row>, size: SizeOf, budget: int, k: nat) {
    kept == After(all, k) && size(kept) <= budget && TooLargeBefore(all, size, budget, k)
  }

  ghost predicate TooLargeBefore(all: set<Row>, size: SizeOf, budget: int, k: nat) {
    forall j: nat | j < k :: size(After(all, j)) > budget
  }

  ghost predicate Fitted(all: set<Row>, kept: set<Row>, size: SizeOf, budget: int) {
    exists k :: FirstFit(all, kept, size, budget, k)
  }

  /** No number of batches brings the size within the budget. */
  ghost predicate NeverFits(all: set<Row>, size: SizeOf, budget: int) {
    forall k: nat :: size(After(all, k)) > budget
  }

  lemma {:induction false} EmptiedStaysEmpty(all: set<Row>, k: nat, j: nat)
    requires After(all, k) == {} && k <= j
    ensures After(all, j) == {}
    decreases j
  {
    if k < j {
      EmptiedStaysEmpty(all, k, j - 1);
      AfterOneMore(all, j - 1);
    }
  }

  lemma NothingFits(all: set<Row>, size: SizeOf, budget: int, k: nat)
    requires After(all, k) == {} && TooLargeBefore(all, size, budget, k) && size({}) > budget
    ensures NeverFits(all, size, budget)
  {
    forall j: nat ensures size(After(all, j)) > budget {
      if j >= k { EmptiedStaysEmpty(all, k, j); }
    }
  }

  /** The rows the age pass is meant to leave. */
  function Young(rows: set<Row>, cutoff: string): set<Row> {
    set r | r in rows && !Less(r.at, cutoff)
  }

  class Store {
    var observations: map<nat, string>
    var samples: map<nat, string>

    function Rows(): set<Row>
      reads this
    {
      RowsOf(Observations, observations) + RowsOf(Samples, samples)
    }

    method DeleteOldestMatchingBatch(limit: nat, cutoff: Option<string>) returns (deleted: int)
      modifies this
      ensures Rows() == old(Rows()) - Batch(Matching(old(Rows()), cutoff), limit)
      ensures deleted == |Batch(Matching(old(Rows()), cutoff), limit)|
    {
      var batch := Batch(Matching(Rows(), cutoff), limit);
      BothDeleted(observations, samples, batch);
      var observationsLeft := Deleted(Observations, observations, batch);
      var samplesLeft := Deleted(Samples, samples, batch);
      BothDeletedSize(observations, samples, observationsLeft, samplesLeft, batch);
      deleted := |observations| - |observationsLeft|;
      deleted := deleted + (|samples| - |samplesLeft|);
      observations, samples := observationsLeft, samplesLeft;
    }

    /** The age pass removes exactly the rows before the cutoff and reports how many there were. */
    method DeleteByAge(cutoff: string) returns (deleted: int)
      modifies this
      ensures Rows() == Young(old(Rows()), cutoff)
      ensures deleted == |old(Rows())| - |Rows()|
    {
      deleted := 0;
      while true
        invariant Young(old(Rows()), cutoff) <= Rows() <= old(Rows())
        invariant deleted == |old(Rows())| - |Rows()|
        decreases |Rows()|
      {
        var matching := Matching(Rows(), Some(cutoff));
        BatchSize(matching, PRUNE_BATCH_SIZE);
        var batchDeleted := DeleteOldestMatchingBatch(PRUNE_BATCH_SIZE, Some(cutoff));
        if batchDeleted == 0 {
          NothingMatches(Rows(), cutoff);
          return;
        }
        deleted := deleted + batchDeleted;
      }
    }

    /** The size pass stops at the first batch boundary that fits, or empties the store because none
        does. */
    method DeleteBySize(size: SizeOf, budget: int) returns (fits: bool)
      modifies this
      ensures fits ==> Fitted(old(Rows()), Rows(), size, budget)
      ensures !fits ==> Rows() == {} && NeverFits(old(Rows()), size, budget)
    {
      ghost var all, k := Rows(), 0;
      AfterOneMore(all, 0);
      while true
        invariant Rows() == After(all, k) && TooLargeBefore(all, size, budget, k)
        decreases |Rows()|
      {
        var here := Rows();
        if size(here) <= budget {
          assert FirstFit(all, here, size, budget, k);
          return true;
        }
        AllMatch(here);
        AfterOneMore(all, k);
        var deleted := DeleteOldestMatchingBatch(PRUNE_BATCH_SIZE, None);
        if deleted == 0 {
          NothingFits(all, size, budget, k);
          return false;
        }
        k := k + 1;
      }
    }

    /** The whole prune: `cutoff` is the formatted instant maxAge ago, `overhead` the sidecars' size,
        `size` and `physical` what the database reports for the rows left. */
    method Prune(maxAge: int, maxBytes: int, cutoff: string, overhead: int, size: SizeOf, physical: SizeOf)
      returns (r: PruneResult)
      modifies this
      ensures r == BadAge <==> maxAge <= 0
      ensures r == BadBytes <==> maxAge > 0 && maxBytes <= 0
      ensures r == NoRoomForSidecars <==> maxAge > 0 && 0 < maxBytes <= overhead
      ensures r == BadAge || r == BadBytes ==> Rows() == old(Rows())
      ensures r == NoRoomForSidecars ==> Rows() == Young(old(Rows()), cutoff)
      ensures r == CannotFit ==> Rows() == {} && NeverFits(Young(old(Rows()), cutoff), size, maxBytes - overhead)
      ensures r == Pruned || r == StillTooLarge ==>
              Fitted(Young(old(Rows()), cutoff), Rows(), size, maxBytes - overhead)
      ensures r == Pruned ==> physical(Rows()) <= maxBytes
      ensures r == StillTooLarge ==> physical(Rows()) > maxBytes
    {
      if maxAge <= 0 { return BadAge; }
      if maxBytes <= 0 { return BadBytes; }
      var _ := DeleteByAge(cutoff);
      if maxBytes - overhead <= 0 { return NoRoomForSidecars; }
      r := TrimToFit(maxBytes, overhead, size, physical);
    }

    method TrimToFit(maxBytes: int, overhead: int, size: SizeOf, physical: SizeOf) returns (r: PruneResult)
      modifies this
      ensures r == CannotFit || r == Pruned || r == StillTooLarge
      ensures r == CannotFit ==> Rows() == {} && NeverFits(old(Rows()), size, maxBytes - overhead)
      ensures r == Pruned || r == StillTooLarge ==> Fitted(old(Rows()), Rows(), size, maxBytes - overhead)
      ensures r == Pruned ==> physical(Rows()) <= maxBytes
      ensures r == StillTooLarge ==> physical(Rows()) > maxBytes
    {
      var fits := DeleteBySize(size, maxBytes - overhead);
      if !fits { return CannotFit; }
      r := if physical(Rows()) > maxBytes then StillTooLarge else Pruned;
    }
  }

  /** Rows removed by age precede every row kept, and so do rows removed by size: what a prune leaves
      is upward closed in (time, table, id). */
  lemma PruneKeepsNewest(all: set<Row>, cutoff: string, kept: set<Row>, size: SizeOf, budget: int)
    requires Fitted(Young(all, cutoff), kept, size, budget)
    ensures UpwardClosed(all, kept)
  {
    var young := Young(all, cutoff);
    var k: nat :| FirstFit(young, kept, size, budget, k);
    BatchComesFirst(young, k * PRUNE_BATCH_SIZE);
    forall a, b | a in all && a !in kept && b in kept ensures Before(a, b) {
      if a !in young { OldPrecedesYoung(a, b, cutoff); }
    }
  }

  lemma OldPrecedesYoung(a: Row, b: Row, cutoff: string)
    requires Less(a.at, cutoff) && !Less(b.at, cutoff)
    ensures Before(a, b)
  {
    LessTotal(b.at, cutoff);
    if b.at != cutoff { LessTransitive(a.at, cutoff, b.at); }
    LessTotal(a.at, b.at);
  }

  /** For rows stamped with formatted instants, the text comparisons of both passes are comparisons of
      the instants: the age pass keeps a row exactly when it is not older than the cutoff, and the
      size pass orders by time first. */
  lemma TextOrderIsTimeOrder(a: Row, t: int, b: Row, u: int, rows: set<Row>)
    requires TimeLayout.FourDigitYear(t) && TimeLayout.FourDigitYear(u)
    requires a.at == TimeLayout.Format(t) && b.at == TimeLayout.Format(u) && a in rows
    ensures a in Young(rows, TimeLayout.Format(u)) <==> u <= t
    ensures Before(a, b) <==> t < u || (t == u && Before(a, b.(at := a.at)))
  {
    TimeLayout.FormatOrder(t, u);
  }

  lemma AllMatch(rows: set<Row>)
    ensures Matching(rows, None) == rows
  {
  }

  lemma NothingMatches(rows: set<Row>, cutoff: string)
    requires Matching(rows, Some(cutoff)) == {}
    ensures Young(rows, cutoff) == rows
  {
    assert forall r | r in rows :: r !in Matching(rows, Some(cutoff));
  }
}
