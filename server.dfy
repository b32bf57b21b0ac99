/**
 * The HTTP handlers of the service, as methods of one store object that owns
 * the `calculations` table. Each handler runs one SQL statement (two for the
 * history listing); whether a statement succeeds is a parameter, and a failed
 * statement leaves the table as it was and yields a 500 reply.
 */
module Server {
  import opened Wrappers
  import opened Calculator
  import opened Records

  const SaveFailedMessage: string := "Failed to save calculation"
  const FetchFailedMessage: string := "Failed to fetch history"
  const CountFailedMessage: string := "Failed to fetch total records"
  const DeleteFailedMessage: string := "Failed to delete record"
  const DeleteAllFailedMessage: string := "Failed to delete all records"
  const RestoreFailedMessage: string := "Failed to restore record"

  /** A JSON reply: a 200 body, a 400 error or a 500 error. */
  datatype Reply<T> = Ok(body: T) | BadRequest(message: string) | InternalError(message: string)

  /** The body of a successful `GET /history`. */
  datatype HistoryPage = HistoryPage(data: seq<Record>, total: nat, page: nat, limit: nat)

  /** The body of `POST /history/restore`: a whole row without id, rates or timestamp. */
  datatype RestoreRequest = RestoreRequest(
    stockName: string, stockCode: string, date: string, trade: Trade, derived: Outcome)

  /** The row a restore stores: derived values verbatim, rate columns NULL. */
  function RestoredRecord(id: int, createdAt: nat, req: RestoreRequest): (rec: Record)
    ensures rec.id == id && rec.createdAt == createdAt
    ensures rec.stockName == req.stockName && rec.stockCode == req.stockCode && rec.date == req.date
    ensures rec.trade == req.trade && rec.derived == req.derived && rec.rates.None?
  {
    Record(id, req.stockName, req.stockCode, req.date, req.trade, req.derived, None, createdAt)
  }

  /**
   * Restore checks nothing: a restored row can carry derived values that the
   * calculator does not give for its own trade.
   */
  lemma RestoreAcceptsInconsistentValues()
    ensures var t := Trade(1000.0, 10.0, 500.0, 9.5, 500.0, 10.2);
      RestoredRecord(1, 0, RestoreRequest("x", "1", "d", t, Outcome(5.0, 0.0, 0.0))).derived
        != Calculate(t, DefaultRates)
  {
    WorkedExample();
  }

  /** The `calculations` table with its AUTOINCREMENT counter and the clock behind `created_at`. */
  class CalculationStore {
    var rows: seq<Record>
    var nextId: int
    var clock: nat

    /** Rows in insertion order, every id below the counter, every timestamp below the clock. */
    ghost predicate Valid()
      reads this
    {
      nextId >= 1 && Ordered(rows) &&
      forall k :: 0 <= k < |rows| ==> 1 <= rows[k].id < nextId && rows[k].createdAt < clock
    }

    constructor ()
      ensures Valid() && rows == [] && nextId == 1
    {
      rows, nextId, clock := [], 1, 0;
    }

    /** Appends one row under the next id and the current time. */
    method Insert(rec: Record)
      requires Valid() && rec.id == nextId && rec.createdAt == clock
      modifies this
      ensures Valid()
      ensures rows == old(rows) + [rec] && nextId == old(nextId) + 1 && clock == old(clock) + 1
    {
      rows := rows + [rec];
      nextId := nextId + 1;
      clock := clock + 1;
    }

    /**
     * `POST /calculate`: a malformed request is refused and changes nothing;
     * otherwise the derived values are computed, one row holding inputs, rates
     * and derived values is stored under a fresh id, and the values are replied.
     */
    method HandleCalculate(req: CalcRequest, saved: bool) returns (reply: Reply<Outcome>)
      requires Valid()
      modifies this
      ensures Valid()
      ensures !WellFormed(req) ==> reply == BadRequest(InvalidInputMessage)
      ensures WellFormed(req) && !saved ==> reply == InternalError(SaveFailedMessage)
      ensures reply.Ok? <==> WellFormed(req) && saved
      ensures !reply.Ok? ==> rows == old(rows) && nextId == old(nextId) && clock == old(clock)
      ensures reply.Ok? ==>
        var s := Validate(req).value;
        reply.body == Calculate(s.trade, s.rates) &&
        rows == old(rows) + [CalculatedRecord(old(nextId), old(clock), s)] &&
        nextId == old(nextId) + 1 && clock == old(clock) + 1
      ensures reply.Ok? ==> !HasId(old(rows), rows[|rows| - 1].id)
    {
      var v := Validate(req);
      if v.Failure? {
        return BadRequest(v.error);
      }
      var s := v.value;
      var outcome := Calculate(s.trade, s.rates);
      if !saved {
        return InternalError(SaveFailedMessage);
      }
      Insert(CalculatedRecord(nextId, clock, s));
      reply := Ok(outcome);
    }

    /**
     * `GET /history`: the requested page of the table, newest first, with the
     * total row count and the effective page and limit echoed back.
     */
    method HandleHistory(page: Option<nat>, limit: Option<nat>, fetched: bool, counted: bool)
      returns (reply: Reply<HistoryPage>)
      requires Valid()
      requires page.GetOr(DefaultPage) >= 1
      ensures !fetched ==> reply == InternalError(FetchFailedMessage)
      ensures fetched && !counted ==> reply == InternalError(CountFailedMessage)
      ensures reply.Ok? <==> fetched && counted
      ensures reply.Ok? ==>
        var p, l := page.GetOr(DefaultPage), limit.GetOr(DefaultLimit);
        reply.body.page == p && reply.body.limit == l &&
        reply.body.total == |rows| &&
        |reply.body.data| <= l &&
        reply.body.data == PageOf(NewestFirst(rows), p, l)
      ensures reply.Ok? ==> NewestFirstOrder(reply.body.data)
    {
      var p, l := page.GetOr(DefaultPage), limit.GetOr(DefaultLimit);
      if !fetched {
        return InternalError(FetchFailedMessage);
      }
      var data := PageOf(NewestFirst(rows), p, l);
      if !counted {
        return InternalError(CountFailedMessage);
      }
      NewestFirstSorted(rows);
      PageKeepsOrder(NewestFirst(rows), p, l);
      reply := Ok(HistoryPage(data, |rows|, p, l));
    }

    /**
     * `DELETE /history/:id`: removes the rows with that id, and only those,
     * and reports success whether or not a row matched.
     */
    method HandleDelete(id: int, deleted: bool) returns (reply: Reply<bool>)
      requires Valid()
      modifies this
      ensures Valid()
      ensures nextId == old(nextId) && clock == old(clock)
      ensures deleted ==> reply == Ok(true) && rows == WithoutId(old(rows), id)
      ensures !deleted ==> reply == InternalError(DeleteFailedMessage) && rows == old(rows)
    {
      if !deleted {
        return InternalError(DeleteFailedMessage);
      }
      WithoutIdOrdered(rows, id);
      rows := WithoutId(rows, id);
      reply := Ok(true);
    }

    /** `DELETE /history`: empties the table; the id counter is not reset. */
    method HandleDeleteAll(deleted: bool) returns (reply: Reply<bool>)
      requires Valid()
      modifies this
      ensures Valid()
      ensures nextId == old(nextId) && clock == old(clock)
      ensures deleted ==> reply == Ok(true) && rows == []
      ensures !deleted ==> reply == InternalError(DeleteAllFailedMessage) && rows == old(rows)
    {
      if !deleted {
        return InternalError(DeleteAllFailedMessage);
      }
      rows := [];
      reply := Ok(true);
    }

    /**
     * `POST /history/restore`: stores the supplied row under a fresh id, its
     * derived values as given and its rate columns NULL.
     */
    method HandleRestore(req: RestoreRequest, saved: bool) returns (reply: Reply<bool>)
      requires Valid()
      modifies this
      ensures Valid()
      ensures saved ==> reply == Ok(true)
      ensures saved ==> rows == old(rows) + [RestoredRecord(old(nextId), old(clock), req)]
      ensures saved ==> nextId == old(nextId) + 1 && clock == old(clock) + 1
      ensures !saved ==> reply == InternalError(RestoreFailedMessage)
      ensures !saved ==> rows == old(rows) && nextId == old(nextId) && clock == old(clock)
      ensures saved ==> !HasId(old(rows), rows[|rows| - 1].id)
    {
      if !saved {
        return InternalError(RestoreFailedMessage);
      }
      Insert(RestoredRecord(nextId, clock, req));
      reply := Ok(true);
    }
  }

  /**
   * Submitting the same valid request twice stores two rows with the same
   * derived values under two different ids.
   */
  method SubmitTwice(store: CalculationStore, req: CalcRequest)
    returns (first: Reply<Outcome>, second: Reply<Outcome>)
    requires store.Valid() && WellFormed(req)
    modifies store
    ensures store.Valid()
    ensures first == second && first.Ok?
    ensures |store.rows| == |old(store.rows)| + 2
    ensures var a, b := store.rows[|store.rows| - 2], store.rows[|store.rows| - 1];
      a.id != b.id && a.derived == b.derived == first.body
  {
    first := store.HandleCalculate(req, true);
    second := store.HandleCalculate(req, true);
  }
}
