/**
 * The rows of the `calculations` table and the pure queries over them:
 * deleting the rows of one id, ordering by creation time (newest first) and
 * cutting one page out of that order.
 */
module Records {
  import opened Wrappers
  import opened Calculator

  /**
   * One row of the `calculations` table. The three rate columns are NULL
   * together for a restored row, hence `rates: Option<Rates>`; `createdAt`
   * is the value of a strictly increasing insertion clock.
   */
  datatype Record = Record(
    id: int,
    stockName: string, stockCode: string, date: string,
    trade: Trade,
    derived: Outcome,
    rates: Option<Rates>,
    createdAt: nat)

  /** The row a successful calculation stores. */
  function CalculatedRecord(id: int, createdAt: nat, s: Submission): (rec: Record)
    ensures Consistent(rec)
    ensures rec.id == id && rec.createdAt == createdAt && rec.trade == s.trade
    ensures rec.stockName == s.stockName && rec.stockCode == s.stockCode && rec.date == s.date
    ensures rec.rates == Some(s.rates) && rec.derived == Calculate(s.trade, s.rates)
  {
    Record(id, s.stockName, s.stockCode, s.date, s.trade, Calculate(s.trade, s.rates), Some(s.rates), createdAt)
  }

  /** A row whose derived columns are what the calculator gives for its inputs and rates. */
  predicate Consistent(rec: Record) {
    rec.rates.Some? && rec.derived == Calculate(rec.trade, rec.rates.value)
  }

  /** Ids and creation times both strictly increase along the table (insertion order). */
  predicate Ordered(rows: seq<Record>) {
    forall i, j :: 0 <= i < j < |rows| ==> rows[i].id < rows[j].id && rows[i].createdAt < rows[j].createdAt
  }

  /** Whether some row has the given id. */
  predicate HasId(rows: seq<Record>, id: int) {
    exists k :: 0 <= k < |rows| && rows[k].id == id
  }

  // ---------------------------------------------------------------------------
  // DELETE FROM calculations WHERE id = ?
  // ---------------------------------------------------------------------------

  /** The table after deleting the rows whose id is `id`. */
  function WithoutId(rows: seq<Record>, id: int): (kept: seq<Record>)
    ensures forall r :: r in kept <==> r in rows && r.id != id
    ensures |kept| <= |rows|
  {
    if rows == [] then []
    else if rows[0].id == id then WithoutId(rows[1..], id)
    else [rows[0]] + WithoutId(rows[1..], id)
  }

  /** Deleting keeps the survivors in their order. */
  lemma {:induction false} WithoutIdOrdered(rows: seq<Record>, id: int)
    requires Ordered(rows)
    ensures Ordered(WithoutId(rows, id))
  {
    if rows != [] {
      var tail := rows[1..];
      assert Ordered(tail);
      WithoutIdOrdered(tail, id);
      var rest := WithoutId(tail, id);
      if rows[0].id != id {
        forall j | 0 <= j < |rest|
          ensures rows[0].id < rest[j].id && rows[0].createdAt < rest[j].createdAt
        {
          assert rest[j] in tail;
        }
      }
    }
  }

  /** Deleting an id that no row has leaves the table as it was. */
  lemma {:induction false} WithoutAbsentId(rows: seq<Record>, id: int)
    requires !HasId(rows, id)
    ensures WithoutId(rows, id) == rows
  {
    if rows != [] {
      assert !HasId(rows[1..], id) by {
        forall k | 0 <= k < |rows[1..]| ensures rows[1..][k].id != id {
          assert rows[1..][k] == rows[k + 1];
        }
      }
      WithoutAbsentId(rows[1..], id);
    }
  }

  /** Ids are unique, so deleting a present id removes exactly one row. */
  lemma {:induction false} WithoutPresentId(rows: seq<Record>, id: int)
    requires Ordered(rows) && HasId(rows, id)
    ensures |WithoutId(rows, id)| == |rows| - 1
  {
    if rows[0].id == id {
      assert !HasId(rows[1..], id) by {
        forall k | 0 <= k < |rows[1..]| ensures rows[1..][k].id != id {
          assert rows[1..][k] == rows[k + 1];
        }
      }
      WithoutAbsentId(rows[1..], id);
    } else {
      var k :| 0 <= k < |rows| && rows[k].id == id;
      assert rows[1..][k - 1].id == id;
      WithoutPresentId(rows[1..], id);
    }
  }

  // ---------------------------------------------------------------------------
  // ORDER BY created_at DESC LIMIT ? OFFSET ?
  // ---------------------------------------------------------------------------

  const DefaultPage: nat := 1
  const DefaultLimit: nat := 10

  /** Creation times strictly decrease along the sequence. */
  predicate NewestFirstOrder(rows: seq<Record>) {
    forall i, j :: 0 <= i < j < |rows| ==> rows[i].createdAt > rows[j].createdAt
  }

  /** The table read newest row first. */
  function NewestFirst(rows: seq<Record>): (out: seq<Record>)
    ensures |out| == |rows|
    ensures forall k :: 0 <= k < |rows| ==> out[k] == rows[|rows| - 1 - k]
  {
    if rows == [] then [] else [rows[|rows| - 1]] + NewestFirst(rows[..|rows| - 1])
  }

  /** Reading newest first loses and duplicates nothing. */
  lemma {:induction false} NewestFirstPermutes(rows: seq<Record>)
    ensures multiset(NewestFirst(rows)) == multiset(rows)
  {
    if rows != [] {
      var front := rows[..|rows| - 1];
      NewestFirstPermutes(front);
      assert rows == front + [rows[|rows| - 1]];
    }
  }

  /** On a table in insertion order, reading newest first is ordered by creation time descending. */
  lemma NewestFirstSorted(rows: seq<Record>)
    requires Ordered(rows)
    ensures NewestFirstOrder(NewestFirst(rows))
  {
  }

  /** Position of the first row of a page: `(page - 1) * limit`. */
  function Offset(page: nat, limit: nat): nat
    requires page >= 1
  {
    (page - 1) * limit
  }

  /**
   * One page of `rows`: the at most `limit` rows that follow the first
   * `Offset(page, limit)`; an offset past the end gives an empty page.
   */
  function PageOf(rows: seq<Record>, page: nat, limit: nat): (data: seq<Record>)
    requires page >= 1
    ensures |data| <= limit
    ensures Offset(page, limit) >= |rows| ==> data == []
    ensures Offset(page, limit) < |rows| ==> |data| == IntMin(limit, |rows| - Offset(page, limit))
    ensures forall k :: 0 <= k < |data| ==> data[k] == rows[Offset(page, limit) + k]
  {
    var offset := Offset(page, limit);
    if offset >= |rows| then []
    else if offset + limit >= |rows| then rows[offset..]
    else rows[offset..offset + limit]
  }

  function IntMin(a: int, b: int): int { if a <= b then a else b }

  /** Every row lies on page `k / limit + 1`, at position `k % limit`. */
  lemma RowOnItsPage(rows: seq<Record>, k: nat, limit: nat)
    requires k < |rows| && limit > 0
    ensures var data := PageOf(rows, k / limit + 1, limit);
      k % limit < |data| && data[k % limit] == rows[k]
  {
    var page := k / limit + 1;
    assert Offset(page, limit) + k % limit == k by {
      assert (page - 1) * limit == (k / limit) * limit;
    }
  }

  /** A page of a newest-first sequence is itself newest first. */
  lemma PageKeepsOrder(rows: seq<Record>, page: nat, limit: nat)
    requires page >= 1 && NewestFirstOrder(rows)
    ensures NewestFirstOrder(PageOf(rows, page, limit))
  {
  }
}
