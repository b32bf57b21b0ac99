# T-trade cost calculator: a Dafny model

This project models the back end of a small single-user tool for "T+0" trading. In a T-trade
the user buys and sells the same stock within one day, against a position they already hold.
The tool computes what such a trade costs and what it earns. It stores every computation in a
single `calculations` table, and lets the user page through that history, delete rows and
restore them.

The model has four modules:

- `Wrappers` (`wrappers.dfy`): `Option` and `Result`.
- `Calculator` (`calculator.dfy`): the pure part of `POST /calculate`.
  - Validation of the request.
  - The fee rates, with their defaults (commission 0.0003, stamp tax 0.001, transfer fee 0.00002).
  - The three derived values. `total_fees` is commission on both legs, stamp tax on the sell
    leg and a transfer fee on all units traded. `new_cost` is the weighted-average cost of what
    remains, and 0 when the position is fully closed. `profit_loss` is the intraday spread on the
    units sold, less the fees.
  - All arithmetic is exact over `real`.
- `Records` (`records.dfy`): the table row and the pure queries over a sequence of rows.
  - Deleting the rows of one id.
  - Reading the table newest first (`ORDER BY created_at DESC`).
  - Cutting out one page (`LIMIT limit OFFSET (page - 1) * limit`).
- `Server` (`server.dfy`): the class `CalculationStore`. It owns the table as a `seq<Record>`,
  the AUTOINCREMENT counter `nextId`, and a strictly increasing clock that stands for
  `created_at`. It has one method per HTTP handler: calculate, history listing, delete one,
  delete all and restore.
  - Whether each SQL statement succeeds is a `bool` parameter. A failed statement gives the
    source's 500 message and leaves the table unchanged.
  - `Valid()` is the table invariant, and every handler keeps it. It says that ids and creation
    times strictly increase along the table, and that every id is below the counter.

Two points about restored rows:

- **Derived values.** `POST /history/restore` stores the caller's `new_cost`, `profit_loss` and
  `total_fees` verbatim; nothing recomputes or checks them. `Server.RestoreAcceptsInconsistentValues`
  exhibits a restored row whose derived values differ from what the calculator gives for its
  own trade at the default rates.
- **Rate columns.** The restore INSERT does not name the rate columns, and the schema gives them
  no default, so they are NULL. The model stores `rates := None`.

## Model

| member | source | states |
|---|---|---|
| `Calculator.TotalFees` | backend/server.js:100-104 | the fee total is non-negative whenever the buy and sell quantities and prices and the three rates are |
| `Calculator.NonNegativeFees` | backend/server.js:100-103 | each of buy commission, sell commission, stamp tax and transfer fee is non-negative for non-negative inputs |
| `Calculator.FeesByLeg` | backend/server.js:100-104 | the fee total regroups as buy leg (notional × commission + quantity × transfer fee) plus sell leg (notional × (commission + stamp tax) + quantity × transfer fee) |
| `Calculator.DefaultRateFees` | backend/server.js:86-104 | with the default rates, total fees = 0.0003·(buy + sell notional) + 0.001·sell notional + 0.00002·(buy + sell quantity) |
| `Calculator.NewCost` | backend/server.js:107-109 | new quantity 0 gives cost 0; otherwise cost × new quantity equals the net book value (old holding + buy outlay − sale proceeds), so the division never has a zero divisor |
| `Calculator.ProfitLoss` | backend/server.js:112 | profit + fees equals the gross spread (sell − buy price) × sold quantity, so with non-negative legs and rates the profit never exceeds the gross spread |
| `Calculator.Calculate` | backend/server.js:100-112 | the returned triple: fees regrouped by leg, profit + fees equals the gross spread (sell − buy price) × sold quantity, and the weighted-average identity for the new cost, with 0 on a closed position |
| `Calculator.BalancedTradeShiftsCost` | backend/server.js:107-112 | when as many units are sold as bought, the position size is unchanged and the new cost is the old cost minus gross spread / held quantity; on a long position (original quantity > 0) a profitable spread lowers the cost and a losing one raises it |
| `Calculator.BalancedTradeProfit` | backend/server.js:112 | when as many units are sold as bought, profit = sale proceeds − buy outlay − fees |
| `Calculator.BuyOnlyAveragesCost` | backend/server.js:107-109 | buying onto a non-negative position without selling gives a new cost between the old cost and the buy price |
| `Calculator.WorkedExample` | backend/server.js:100-112 | 1000 held at 10, buy 500 at 9.5, sell 500 at 10.2, default rates: new cost 9.65, profit 341.925, fees 8.075, exactly |
| `Calculator.Validate` | backend/server.js:92-97 | a request is accepted iff name, code and date are present and non-empty and the six quantity and price fields are numbers; refusal carries "Invalid input data"; an accepted request is carried over unchanged except that omitted rates become their defaults |
| `Calculator.ValidateRequestOf` | backend/server.js:76-97 | round trip: a submission with non-empty labels, written out as a full request, validates back to itself |
| `Calculator.OmittedRatesDefault` | backend/server.js:86-88 | omitting all three rates gives exactly the default rates |
| `Records.CalculatedRecord` | backend/server.js:124-128 | the stored row holds the given id and timestamp, the caller's name, code, date and trade, the effective rates, and as derived columns exactly the calculator's output for that trade and those rates |
| `Records.WithoutId` | backend/server.js:171-173 | a row survives the delete iff it was in the table and its id differs from the one deleted; the table never grows |
| `Records.WithoutIdOrdered` | backend/server.js:171-173 | the rows left by a delete keep their relative order |
| `Records.WithoutAbsentId` | backend/server.js:169-178 | deleting an id that no row has leaves the table exactly as it was |
| `Records.WithoutPresentId` | backend/server.js:171-173 | ids are unique, so deleting a present id removes exactly one row |
| `Records.NewestFirst` | backend/server.js:144 | the newest-first reading has the same length, and position k holds the k-th row from the end |
| `Records.NewestFirstPermutes` | backend/server.js:144 | the newest-first reading is a permutation of the table |
| `Records.NewestFirstSorted` | backend/server.js:144 | on a table in insertion order, the newest-first reading strictly decreases in `created_at` |
| `Records.PageOf` | backend/server.js:141-145 | a page holds at most `limit` rows, and exactly min(limit, rows left after the offset) of them; row k of the page is row offset + k of the ordering, with offset = (page − 1)·limit; an offset past the end gives an empty page |
| `Records.RowOnItsPage` | backend/server.js:142-145 | every row k of the ordering appears on page k / limit + 1 at position k mod limit |
| `Records.PageKeepsOrder` | backend/server.js:144-145 | a page of a newest-first ordering is itself newest first |
| `Server.RestoredRecord` | backend/server.js:212-223 | a restored row holds the given id and timestamp, the supplied name, code, date, trade and derived values verbatim, and its rate columns are NULL |
| `Server.RestoreAcceptsInconsistentValues` | backend/server.js:196-223 | restore validates nothing: the worked-example trade restored with derived values (5, 0, 0) is stored with derived values different from the calculator's output for that trade at the default rates |
| `Server.CalculationStore.constructor` | backend/server.js:49-69 | a new store holds an empty table, satisfies the invariant, and starts the id counter at 1 |
| `Server.CalculationStore.Insert` | backend/server.js:51-67 | appends the row under the next id and the current time, and advances both counters by one |
| `Server.CalculationStore.HandleCalculate` | backend/server.js:75-137 | a malformed request gives "Invalid input data" and changes nothing; a failed save gives "Failed to save calculation" and changes nothing; otherwise exactly one consistent row is appended under an id no existing row has, both counters advance by one, and the same derived values are replied |
| `Server.CalculationStore.HandleHistory` | backend/server.js:140-166 | page and limit default to 1 and 10 and are echoed back; data is page `page` of the newest-first table, at most `limit` rows, in decreasing `created_at`; total is the full row count whatever the page; the two failure messages are distinguished |
| `Server.CalculationStore.HandleDelete` | backend/server.js:169-180 | removes exactly the rows with that id, leaves the other rows and both counters unchanged, and replies success even when no row matched |
| `Server.CalculationStore.HandleDeleteAll` | backend/server.js:183-193 | empties the table without resetting the id counter, and replies success; on failure nothing changes |
| `Server.CalculationStore.HandleRestore` | backend/server.js:196-231 | appends one row with a fresh id holding the supplied values verbatim and NULL rates, advances both counters by one, and replies success; on failure nothing changes |
| `Server.SubmitTwice` | backend/server.js:115-136 | submitting the same valid request twice appends two rows with identical derived values under different ids |

## Left out

- Express, CORS, JSON body parsing, `app.listen` and the SQLite connection (backend/server.js:1-19, 234-236). These are framework and driver plumbing.
- `updateTableSchema` (backend/server.js:22-46). It is a best-effort ALTER TABLE migration that is never called.
- Console logging of storage errors. Each storage failure is a `bool` parameter, so the model does not say why a statement fails.
- IEEE-754 double rounding. The formulas are exact over `real`, so the model does not claim bit-for-bit agreement with JavaScript.
- JavaScript coercions.
  - `isNaN` on `null` (which passes as 0) and on numeric strings.
  - `+` concatenating string inputs in the transfer-fee and new-quantity sums.
  - Rate fields that are present but not numbers (the source never checks them).
  - `parseInt` of the query strings.
- A numeric field is either a number or "not a number". A text field is either absent or a string, and it passes when it is present and non-empty.
- Server.CalculationStore.HandleHistory: requires page ≥ 1 and takes limit as a natural number. SQLite's handling of a negative OFFSET (page 0 or below) and of a negative LIMIT ("no limit") is not modelled.
- The constructor starts the store as on a fresh database file. `CREATE TABLE IF NOT EXISTS` may find an existing table with rows and a higher AUTOINCREMENT counter; such a table is taken to be some state satisfying `Valid()`, from which every handler is specified.
- Each handler is modelled as one atomic step on the table. In the source, the SELECT and the COUNT of `GET /history` are two separate statements, and another request can write between them, so `total` may then disagree with the page; that interleaving is not modelled.
- `created_at` is a strictly increasing counter. Ties between rows created in the same second, and SQLite's order among them, are not modelled.
- Server.CalculationStore.HandleRestore: takes every field as present and of its column's type. A restore body with missing or mistyped fields, which SQLite would store as NULL or as text, is not modelled.
- The DELETE path parameter is modelled as an integer. The comparison between a text id and the INTEGER column is not modelled.
- The Vue router configuration (gupiao-T-cost-calculator/src/router/index.js). It is UI glue.
