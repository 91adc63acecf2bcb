# Read-through price cache of the stock dashboard backend

This project models the core of the dashboard backend in `backend/app.py`.
It is a read-through cache of daily OHLCV bars for ten NSE companies. OHLCV
means open, high, low, close and volume.

The modelled parts are:

- **Symbol lookup.** `yf_symbol` maps an app symbol to its Yahoo Finance
  ticker through `YF_MAP`. `TOP10` supplies the display names (`config.dfy`).
- **Reconciliation pass.** `fetch_and_store` checks the symbol, the download
  and the company row, in that order. It then upserts every bar of the
  download into the `prices` table, keyed by (symbol, date). The pass is a
  value-level specification `Upsert` (`price_table.dfy`). It is also a loop in
  the method `PriceStore.FetchAndStore` (`store.dfy`), proved equal to `Upsert`.
- **Windowed read.** `get_last_n_days_from_db` returns the rows of one symbol
  dated on or after `today - (days + 5)`, ascending by date (`window.dfy`).
- **Response shaping.** `get_stock_series` rejects an unknown company. It
  optionally refreshes, then reads. An empty read triggers one more refresh
  and a re-read. The response replaces missing numbers with 0 and keeps the
  last `days` points, as Python's `data[-days:]` does (`series.dfy`).
  `Serve` states the whole request on values. The method
  `PriceStore.GetStockSeries` runs it against the store object.

Modelling choices:

- Dates are day numbers: proleptic Gregorian ordinals, as Python's
  `date.toordinal()` counts them, so 0001-01-01 is 1 and 9999-12-31 is
  3652059.
- Prices are `Option<real>` and volumes `Option<int>`; no arithmetic is done
  on them.
- The database is an object holding the set of company symbols and the
  sequence of price rows, in storage order.
- Each read calls `date.today()` anew, so the day is a parameter per read:
  `today` for the first read, `rereadToday` for the re-read after the extra
  fetch. A download that runs past midnight makes them differ.
- So are the downloads: `onRefresh` is what a requested refresh receives, and
  `onRetry` is what the extra fetch after an empty read receives.
- `GetStockSeries` also returns `fetches`, the number of `fetch_and_store`
  calls it made.

Behaviour of the code the model keeps:

- The session is opened with `autoflush=False` (`backend/app.py:51`). So the
  existence query of the upsert loop sees only rows stored before the pass.
  A date that is new and appears twice in one download is inserted twice;
  a later bar does not replace the earlier one
  (`RepeatedNewDateInsertedTwice`).
- `count` is `len(data)` taken before `data[-days:]` trims the list
  (`backend/app.py:239-240`), so it can exceed the number of points returned.
- The checks of `fetch_and_store` run in this order: mapping, then download,
  then company row. The download therefore happens before the company check.
- `fetch_and_store` ignores its `days` argument. Its docstring
  (`backend/app.py:128`) speaks of ensuring `days` of data, but the download
  always asks for the same two-month period. The model has no such argument.
- The read computes `date.today() - timedelta(days=days + 5)`. For a `days`
  so large or so negative that this is not a date, Python raises
  OverflowError, and the request fails with status 500. A refresh requested
  before the read has then already written its rows (`ServeCutoffOverflow`).

## Model

| member | source | states |
|---|---|---|
| Config.YfSymbol | backend/app.py:122-124 | the ticker is `symbol + ".NS"` exactly for the ten TOP10 symbols; every other string gives None |
| Config.ListedAreMapped | backend/app.py:18-44 | every TOP10 symbol is a YF_MAP key mapping to its ".NS" ticker |
| Config.MappedAreListed | backend/app.py:18-44 | every YF_MAP key is a TOP10 symbol |
| Config.Top10SymbolsDistinct | backend/app.py:18-30 | no two TOP10 entries share a symbol |
| Config.TickersNonEmpty | backend/app.py:131-133 | no mapped ticker is empty, so the `not yfs` test rejects exactly the unmapped symbols |
| Config.FirstWithSymbol | backend/app.py:238 | returns the index of the first entry with the symbol, or None when no entry has it |
| Config.DisplayName | backend/app.py:238 | the name of the TOP10 entry with that symbol; the symbol itself when TOP10 has none |
| PriceTable.FirstMatch | backend/app.py:163 | the existence query finds the earliest stored row with the (symbol, date) key, or reports that none has it |
| PriceTable.Stored | backend/app.py:171-181 | an inserted row has the pass's symbol and the bar's date as key and the bar's numbers as they came |
| PriceTable.Refreshed | backend/app.py:164-169 | an update keeps the row's key; on a row of the bar's date it leaves what an insert of the bar would have stored |
| PriceTable.UpsertOne | backend/app.py:162-181 | one iteration keeps every row's key and appends exactly one row, the bar stored under the symbol, when the existence query finds nothing |
| PriceTable.Upsert | backend/app.py:161-181 | a pass keeps every stored row and appends at most one row per bar |
| PriceTable.UpsertKeepsKeys | backend/app.py:164-169 | an update rewrites only the five value columns; no stored row changes its key |
| PriceTable.UpsertAppendsOnlyNewBars | backend/app.py:170-181 | every appended row is a batch bar stored as it came, under this symbol, for a date no stored row of this symbol had |
| PriceTable.UpsertFrame | backend/app.py:161-182 | stored rows of other symbols, or of dates not in the batch, are unchanged |
| PriceTable.UpsertCovers | backend/app.py:161-181 | after a pass, the last bar of each batch date is in the table with exactly its values, absent numbers as None; it is on the first stored row with the key, or on an appended row |
| PriceTable.UpsertAppendsFreshKeys | backend/app.py:163-181 | with distinct batch dates, an appended row shares its key with no other row |
| PriceTable.UpsertKeepsUniqueKeys | backend/app.py:161-181 | at most one row per (symbol, date) before the pass, and distinct batch dates, give at most one row per key after it |
| PriceTable.UpsertSettles | backend/app.py:161-181 | with distinct batch dates, the existence query for each batch date afterwards finds the row holding that bar |
| PriceTable.SettledUpsertIsIdentity | backend/app.py:161-181 | a pass whose bars are already what the existence query finds changes nothing |
| PriceTable.UpsertIdempotent | backend/app.py:161-182 | two passes over the same batch with distinct dates leave the table that one pass leaves |
| PriceTable.RepeatedNewDateInsertedTwice | backend/app.py:163-181 | pending inserts are not flushed, so a new date repeated in one batch is inserted twice and breaks key uniqueness |
| PriceTable.RepeatedStoredDateLastWins | backend/app.py:163-169 | a stored date repeated in one batch keeps one row holding the later bar |
| PriceTable.UpsertKeepsReferences | backend/app.py:155-181 | when the pass's symbol has a company row, every price row still refers to a company |
| Window.Cutoff | backend/app.py:185 | the cutoff lies `days + 5` days before today, so for `days >= 0` the window starts before the last `days` days |
| Window.Matching | backend/app.py:189 | the filter keeps each row of the symbol dated on or after the cutoff as often as the table holds it, and nothing else |
| Window.SortByDate | backend/app.py:190 | the result is ascending by date and a permutation of its input |
| Window.LastNDays | backend/app.py:184-192 | raises exactly when `days + 5` does not fit a timedelta or the cutoff is not a date; otherwise the rows of the symbol with date >= today - (days + 5), each as often as stored, ascending by date, empty exactly when no row matches |
| Window.LastNDaysStrictlyAscending | backend/app.py:184-192 | with at most one row per key, a read that succeeds never returns two rows of one date |
| Series.OrZero | backend/app.py:228-231 | `x or 0.0` is the stored price, or 0.0 when it is None |
| Series.OrZeroInt | backend/app.py:232 | `x or 0` is the stored volume, or 0 when it is None |
| Series.Point | backend/app.py:225-233 | a point has the row's date; a price is the stored value, or 0.0 when None; the volume is the stored value, or 0 when None |
| Series.Points | backend/app.py:225-235 | one point per row read, in the read's order |
| Series.TailSlice | backend/app.py:240 | `s[-days:]` is a suffix; for positive `days` it has min(days, len) items; for `days <= 0` it drops the first `-days` items |
| Series.Shape | backend/app.py:225-241 | `count` is the number of rows read; the points shown are those of the most recent rows, in the read's order |
| Series.ShapeKeepsLatest | backend/app.py:225-241 | for positive `days` the data are the points of the min(days, n) most recent rows, in read order; `count` is n, the number of rows before trimming |
| Series.ShapeHeader | backend/app.py:236-241 | the response carries the symbol, its display name and `count` equal to the rows read; `count` bounds the number of points, and so does a positive `days` |
| Series.ShapeUnderFill | backend/app.py:236-241 | with no more rows than `days`, every row is returned |
| Series.ShapeKeepsOrder | backend/app.py:225-240 | rows ascending by date give points ascending by date |
| Series.ShapeKeepsStrictOrder | backend/app.py:225-240 | rows with strictly increasing dates give points with strictly increasing dates |
| Store.Error.Status | backend/app.py:131-158 | 502 for a failed download, 500 for the unhandled date overflow of the read, 404 for the other errors (lines 133, 158 and 214) |
| Store.FetchError | backend/app.py:131-158 | fetch_and_store raises nothing exactly when the symbol is listed, the download is non-empty and the company row exists |
| Store.FetchErrorOrder | backend/app.py:131-158 | an unmapped symbol is 404 whatever the download is; an empty download is 502 before a missing company row is 404 |
| Store.AfterRefreshKeepsKeys | backend/app.py:216-217 | the optional refresh keeps every stored row, under its key |
| Store.Serve | backend/app.py:203-241 | a request fetches at most twice, every error it raises concerns the requested symbol, and every stored row stays at its place under its key |
| Store.ServeUnknownSymbol | backend/app.py:210-214 | an unknown company is a 404 before any fetch, whatever `refresh` is, with the table unchanged |
| Store.ServeRefreshFirst | backend/app.py:216-223 | `refresh` runs a fetch before the read; its error is the response, with no write and no second fetch; otherwise the table becomes the upsert of the download, and a read of it that finds rows is the response, after exactly one fetch |
| Store.ServeCutoffOverflow | backend/app.py:185 | a cutoff that is not a date makes the request fail with 500 after the refresh, if any, has written, with no retry |
| Store.ServeRetryOnEmptyRead | backend/app.py:219-223 | an empty read causes exactly one more fetch_and_store, whatever `refresh` was; that fetch's error is the response; otherwise the table is upserted and re-read on the re-read's own day, whose cutoff overflow is a 500 and whose rows are otherwise the response |
| Store.ServeNoRetryOnRows | backend/app.py:216-223 | a read that finds rows is answered from them with no extra fetch, on the table the optional refresh left; without `refresh` there is no fetch and the table is unchanged |
| Store.ServeShapesFinalRead | backend/app.py:210-241 | a success is the shaped read of the table left behind, taken on the day of the read it comes from |
| Store.ServeResponse | backend/app.py:225-241 | a success names the symbol and its display name, has `count` equal to the rows of its read before trimming, at most `days` points for positive `days`, and ascending dates |
| Store.ServeKeepsUniqueKeys | backend/app.py:204-223 | with unique keys and downloads with distinct dates, the table keeps at most one row per key |
| Store.ServeDatesStrictlyIncrease | backend/app.py:204-241 | under the same conditions no date appears twice in a response |
| Store.PriceStore.FetchAndStore | backend/app.py:126-182 | raises the first failing check with the table unchanged; otherwise the table becomes `Upsert` of the old table; company rows unchanged; every price row still refers to a company |
| Store.PriceStore.GetStockSeries | backend/app.py:203-241 | with `days` 30 and `refresh` true by default, the response, the table afterwards and the number of fetches are those of `Serve` on the old state; company rows unchanged; rows that referred to companies still do |

## Left out

- The HTTP layer is not modelled: the FastAPI app, CORS middleware, route decorators, Pydantic schemas and the `/` health route. HTTP exceptions, and the unhandled OverflowError the framework answers with status 500, are the `Error` datatype, with its status code and detail text.
- The `yf.download` call and its parameters (a two-month daily period, threads) are not modelled, because the call goes to a network library. Its result is an input: no frame, or a frame of bars.
- The pandas normalisation is not modelled: `reset_index`, timestamp-to-date conversion, `pd.notna`, and `float()`/`int()` coercion. Bars arrive with day-number dates and optional numbers. A NaN is already None.
- The SQLAlchemy engine, sessions, commit, rollback and table creation are not modelled. The table is in-memory state. Partial commits, crashes and concurrent requests are not modelled.
- `seed_companies` and `list_companies` are not modelled. They are start-up I/O and an `ORDER BY name` done by the database. The company rows are a given set of symbols.
- `date.today()` is not called: the day each read sees is a parameter.
- PriceTable.FirstMatch: `.first()` has no `ORDER BY`, so the database picks among duplicate keys. The model takes the earliest stored row.
- Window.SortByDate: rows of one date are kept in storage order, where the database leaves their order unspecified. This matters only when the table holds duplicate keys.
- Floating-point behaviour of prices is not modelled: prices are reals, and `x or 0.0` is modelled on reals.
