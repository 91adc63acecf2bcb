/** The `prices` table and the reconciliation pass of fetch_and_store as
    functions on values: the table is a sequence of rows in storage order, a
    download is a sequence of daily bars, and `Upsert` is the table after one
    pass. The class in module Store runs the same pass as a loop. */
module PriceTable {
  import opened Wrappers

  /** A row of the `prices` table. The date is a day number; the four prices
      and the volume are nullable columns. The surrogate `id` column is left
      out: a row's position in the sequence identifies it. */
  datatype Price = Price(
    symbol: string,
    date: int,
    open: Option<real>,
    high: Option<real>,
    low: Option<real>,
    close: Option<real>,
    volume: Option<int>)

  /** One daily bar of a download, its timestamp already reduced to a day
      number; a number the feed did not report is None. */
  datatype Bar = Bar(
    date: int,
    open: Option<real>,
    high: Option<real>,
    low: Option<real>,
    close: Option<real>,
    volume: Option<int>)

  /** The row inserted for `bar` under `symbol`: keyed by the symbol and the
      bar's date, holding the bar's numbers as they came. */
  function Stored(symbol: string, bar: Bar): (r: Price)
    ensures HasKey(r, symbol, bar.date)
    ensures r.open == bar.open && r.high == bar.high && r.low == bar.low && r.close == bar.close && r.volume == bar.volume
  {
    Price(symbol, bar.date, bar.open, bar.high, bar.low, bar.close, bar.volume)
  }

  /** An existing row with its five value columns overwritten from `bar`:
      the key stays, and on a row of the bar's date the result is the row an
      insert of the bar would have made. */
  function Refreshed(row: Price, bar: Bar): (r: Price)
    ensures SameKey(r, row)
    ensures row.date == bar.date ==> r == Stored(row.symbol, bar)
  {
    row.(open := bar.open, high := bar.high, low := bar.low, close := bar.close, volume := bar.volume)
  }

  predicate HasKey(row: Price, symbol: string, date: int) {
    row.symbol == symbol && row.date == date
  }

  predicate SameKey(a: Price, b: Price) {
    a.symbol == b.symbol && a.date == b.date
  }

  /** At most one row per (symbol, date). */
  predicate UniqueKeys(table: seq<Price>) {
    forall i, j :: 0 <= i < j < |table| ==> !SameKey(table[i], table[j])
  }

  /** No two bars of a download share a date. */
  predicate DistinctDates(bars: seq<Bar>) {
    forall i, j :: 0 <= i < j < |bars| ==> bars[i].date != bars[j].date
  }

  predicate InBatch(date: int, bars: seq<Bar>) {
    exists i :: 0 <= i < |bars| && bars[i].date == date
  }

  /** The existence query `.filter(symbol, date).first()`: the earliest
      stored row with that key, if any. */
  function FirstMatch(rows: seq<Price>, symbol: string, date: int): (r: Option<nat>)
    ensures r.Some? ==> r.value < |rows| && HasKey(rows[r.value], symbol, date)
    ensures r.Some? ==> forall j :: 0 <= j < r.value ==> !HasKey(rows[j], symbol, date)
    ensures r.None? ==> forall j :: 0 <= j < |rows| ==> !HasKey(rows[j], symbol, date)
  {
    if rows == [] then None
    else if HasKey(rows[0], symbol, date) then Some(0)
    else match FirstMatch(rows[1..], symbol, date)
      case None => None
      case Some(k) => Some(k + 1)
  }

  /** One iteration of the upsert loop. The existence query runs against
      `stored`, the rows that were in the table when the pass began: the
      session does not flush pending inserts before a query. A hit updates
      that row of the current table in place; a miss appends a new row. */
  function UpsertOne(table: seq<Price>, stored: seq<Price>, symbol: string, bar: Bar): (r: seq<Price>)
    requires |stored| <= |table|
    ensures |r| == |table| + (if FirstMatch(stored, symbol, bar.date).None? then 1 else 0)
    ensures forall k :: 0 <= k < |table| ==> SameKey(r[k], table[k])
    ensures FirstMatch(stored, symbol, bar.date).None? ==> r[|table|] == Stored(symbol, bar)
  {
    match FirstMatch(stored, symbol, bar.date)
    case Some(k) => table[k := Refreshed(table[k], bar)]
    case None => table + [Stored(symbol, bar)]
  }

  /** The table after a whole pass of fetch_and_store over `bars`, starting
      from `stored`. */
  function Upsert(stored: seq<Price>, symbol: string, bars: seq<Bar>): (r: seq<Price>)
    ensures |stored| <= |r| <= |stored| + |bars|
    decreases |bars|
  {
    if bars == [] then stored
    else UpsertOne(Upsert(stored, symbol, bars[..|bars| - 1]), stored, symbol, bars[|bars| - 1])
  }

  /** The last bar of a pass either refreshes the first stored row with its
      key or is appended. */
  lemma UpsertLastStep(stored: seq<Price>, symbol: string, bars: seq<Bar>)
    requires bars != []
    ensures var n := |bars| - 1;
      var prev := Upsert(stored, symbol, bars[..n]);
      var m := FirstMatch(stored, symbol, bars[n].date);
      && (m.Some? ==> Upsert(stored, symbol, bars) == prev[m.value := Refreshed(prev[m.value], bars[n])])
      && (m.None? ==> Upsert(stored, symbol, bars) == prev + [Stored(symbol, bars[n])])
  {
  }

  /** A pass never changes the key of a row that was already stored. */
  lemma {:induction false} UpsertKeepsKeys(stored: seq<Price>, symbol: string, bars: seq<Bar>)
    ensures forall k :: 0 <= k < |stored| ==> SameKey(Upsert(stored, symbol, bars)[k], stored[k])
    decreases |bars|
  {
    if bars != [] {
      UpsertKeepsKeys(stored, symbol, bars[..|bars| - 1]);
      UpsertLastStep(stored, symbol, bars);
    }
  }

  /** The existence query gives the same answer on any table whose first
      rows carry the keys of `rows`, when `rows` already has a match. */
  lemma FirstMatchOnExtension(rows: seq<Price>, longer: seq<Price>, symbol: string, date: int)
    requires |rows| <= |longer|
    requires forall k :: 0 <= k < |rows| ==> SameKey(longer[k], rows[k])
    ensures FirstMatch(rows, symbol, date).Some? ==> FirstMatch(longer, symbol, date) == FirstMatch(rows, symbol, date)
  {
    var r := FirstMatch(rows, symbol, date);
    if r.Some? {
      assert HasKey(longer[r.value], symbol, date);
    }
  }

  /** Every row a pass appends belongs to `symbol`, is a batch bar stored as
      it came, and has a date the stored rows did not hold for `symbol`. */
  lemma {:induction false} UpsertAppendsOnlyNewBars(stored: seq<Price>, symbol: string, bars: seq<Bar>)
    ensures forall k :: |stored| <= k < |Upsert(stored, symbol, bars)| ==>
      && FirstMatch(stored, symbol, Upsert(stored, symbol, bars)[k].date).None?
      && exists i :: 0 <= i < |bars| && Upsert(stored, symbol, bars)[k] == Stored(symbol, bars[i])
    decreases |bars|
  {
    if bars != [] {
      var n := |bars| - 1;
      var prev := Upsert(stored, symbol, bars[..n]);
      UpsertAppendsOnlyNewBars(stored, symbol, bars[..n]);
      UpsertLastStep(stored, symbol, bars);
      var r := Upsert(stored, symbol, bars);
      forall k | |stored| <= k < |r|
        ensures FirstMatch(stored, symbol, r[k].date).None?
        ensures exists i :: 0 <= i < |bars| && r[k] == Stored(symbol, bars[i])
      {
        if k < |prev| {
          assert r[k] == prev[k];
          var i :| 0 <= i < n && prev[k] == Stored(symbol, bars[..n][i]);
          assert r[k] == Stored(symbol, bars[i]);
        } else {
          assert r[k] == Stored(symbol, bars[n]);
        }
      }
    }
  }

  /** Nothing else changes: a stored row of another symbol, or of a date the
      batch does not hold, is left as it was. */
  lemma {:induction false} UpsertFrame(stored: seq<Price>, symbol: string, bars: seq<Bar>)
    ensures forall k :: 0 <= k < |stored| && (stored[k].symbol != symbol || !InBatch(stored[k].date, bars)) ==>
      Upsert(stored, symbol, bars)[k] == stored[k]
    decreases |bars|
  {
    if bars != [] {
      var n := |bars| - 1;
      UpsertFrame(stored, symbol, bars[..n]);
      UpsertLastStep(stored, symbol, bars);
      var r := Upsert(stored, symbol, bars);
      var prev := Upsert(stored, symbol, bars[..n]);
      forall k | 0 <= k < |stored| && (stored[k].symbol != symbol || !InBatch(stored[k].date, bars))
        ensures r[k] == stored[k]
      {
        if InBatch(stored[k].date, bars[..n]) {
          var i :| 0 <= i < n && bars[..n][i].date == stored[k].date;
          assert bars[i].date == stored[k].date;
        }
      }
    }
  }

  /** After a pass, the last bar of each date is in the table with exactly
      its values: on the first stored row with that key when there is one,
      otherwise on a row the pass appended. Absent numbers stay None. */
  lemma {:induction false} UpsertCovers(stored: seq<Price>, symbol: string, bars: seq<Bar>, i: nat)
    requires i < |bars|
    requires forall j :: i < j < |bars| ==> bars[j].date != bars[i].date
    ensures var r := Upsert(stored, symbol, bars);
      var m := FirstMatch(stored, symbol, bars[i].date);
      && (m.Some? ==> r[m.value] == Stored(symbol, bars[i]))
      && (m.None? ==> exists k :: |stored| <= k < |r| && r[k] == Stored(symbol, bars[i]))
    decreases |bars|
  {
    var n := |bars| - 1;
    var prev := Upsert(stored, symbol, bars[..n]);
    var r := Upsert(stored, symbol, bars);
    var m := FirstMatch(stored, symbol, bars[i].date);
    UpsertKeepsKeys(stored, symbol, bars[..n]);
    UpsertLastStep(stored, symbol, bars);
    if i == n {
      if m.Some? {
        assert SameKey(prev[m.value], stored[m.value]);
      } else {
        assert r[|prev|] == Stored(symbol, bars[i]);
      }
    } else {
      UpsertCovers(stored, symbol, bars[..n], i);
      assert bars[..n][i] == bars[i];
      var m' := FirstMatch(stored, symbol, bars[n].date);
      if m.Some? {
        if m'.Some? {
          assert m'.value != m.value;
        }
        assert r[m.value] == prev[m.value];
      } else {
        var k :| |stored| <= k < |prev| && prev[k] == Stored(symbol, bars[i]);
        assert r[k] == prev[k];
      }
    }
  }

  /** A row a pass appends shares its key with no earlier row, provided the
      batch has distinct dates. */
  lemma {:induction false} UpsertAppendsFreshKeys(stored: seq<Price>, symbol: string, bars: seq<Bar>)
    requires DistinctDates(bars)
    ensures forall i, j :: 0 <= i < j < |Upsert(stored, symbol, bars)| && |stored| <= j ==>
      !SameKey(Upsert(stored, symbol, bars)[i], Upsert(stored, symbol, bars)[j])
    decreases |bars|
  {
    if bars != [] {
      var n := |bars| - 1;
      var prev := Upsert(stored, symbol, bars[..n]);
      var r := Upsert(stored, symbol, bars);
      UpsertAppendsFreshKeys(stored, symbol, bars[..n]);
      UpsertKeepsKeys(stored, symbol, bars[..n]);
      UpsertAppendsOnlyNewBars(stored, symbol, bars[..n]);
      UpsertLastStep(stored, symbol, bars);
      var m := FirstMatch(stored, symbol, bars[n].date);
      if m.Some? {
        assert SameKey(prev[m.value], stored[m.value]);
        forall i, j | 0 <= i < j < |r| && |stored| <= j
          ensures !SameKey(r[i], r[j])
        {
          assert SameKey(r[i], prev[i]) && r[j] == prev[j];
        }
      } else {
        forall i, j | 0 <= i < j < |r| && |stored| <= j
          ensures !SameKey(r[i], r[j])
        {
          if j == |prev| {
            assert r[j] == Stored(symbol, bars[n]);
            assert r[i] == prev[i];
            if i < |stored| {
              assert SameKey(prev[i], stored[i]);
            } else {
              var i' :| 0 <= i' < n && prev[i] == Stored(symbol, bars[..n][i']);
              assert bars[i'].date != bars[n].date;
            }
          }
        }
      }
    }
  }

  /** A pass over a batch with distinct dates keeps the table free of
      duplicate keys. */
  lemma {:induction false} UpsertKeepsUniqueKeys(stored: seq<Price>, symbol: string, bars: seq<Bar>)
    requires UniqueKeys(stored) && DistinctDates(bars)
    ensures UniqueKeys(Upsert(stored, symbol, bars))
  {
    var r := Upsert(stored, symbol, bars);
    UpsertKeepsKeys(stored, symbol, bars);
    UpsertAppendsFreshKeys(stored, symbol, bars);
    forall i, j | 0 <= i < j < |r|
      ensures !SameKey(r[i], r[j])
    {
      if j < |stored| {
        assert SameKey(r[i], stored[i]) && SameKey(r[j], stored[j]);
        assert !SameKey(stored[i], stored[j]);
      }
    }
  }

  /** Every bar of the batch is what the existence query finds in `table`. */
  predicate Settled(table: seq<Price>, symbol: string, bars: seq<Bar>) {
    forall i :: 0 <= i < |bars| ==>
      var m := FirstMatch(table, symbol, bars[i].date);
      m.Some? && table[m.value] == Stored(symbol, bars[i])
  }

  /** After a pass over a batch with distinct dates, the existence query for
      each batch date finds the row holding that bar. */
  lemma UpsertSettles(stored: seq<Price>, symbol: string, bars: seq<Bar>)
    requires DistinctDates(bars)
    ensures Settled(Upsert(stored, symbol, bars), symbol, bars)
  {
    var r := Upsert(stored, symbol, bars);
    UpsertKeepsKeys(stored, symbol, bars);
    UpsertAppendsFreshKeys(stored, symbol, bars);
    forall i | 0 <= i < |bars|
      ensures var m := FirstMatch(r, symbol, bars[i].date);
        m.Some? && r[m.value] == Stored(symbol, bars[i])
    {
      var d := bars[i].date;
      UpsertCovers(stored, symbol, bars, i);
      var m := FirstMatch(stored, symbol, d);
      if m.Some? {
        FirstMatchOnExtension(stored, r, symbol, d);
      } else {
        var k :| |stored| <= k < |r| && r[k] == Stored(symbol, bars[i]);
        assert HasKey(r[k], symbol, d);
      }
    }
  }

  /** A pass over a batch that is already settled in the table changes
      nothing. */
  lemma {:induction false} SettledUpsertIsIdentity(table: seq<Price>, symbol: string, bars: seq<Bar>)
    requires Settled(table, symbol, bars)
    ensures Upsert(table, symbol, bars) == table
    decreases |bars|
  {
    if bars != [] {
      var n := |bars| - 1;
      assert Settled(table, symbol, bars[..n]) by {
        forall i | 0 <= i < n ensures bars[..n][i] == bars[i] { }
      }
      SettledUpsertIsIdentity(table, symbol, bars[..n]);
      UpsertLastStep(table, symbol, bars);
      var m := FirstMatch(table, symbol, bars[n].date);
      assert table[m.value] == Stored(symbol, bars[n]);
    }
  }

  /** Idempotence: running the same pass twice, with the batch's dates
      distinct, leaves the table the first pass left. */
  lemma UpsertIdempotent(stored: seq<Price>, symbol: string, bars: seq<Bar>)
    requires DistinctDates(bars)
    ensures Upsert(Upsert(stored, symbol, bars), symbol, bars) == Upsert(stored, symbol, bars)
  {
    UpsertSettles(stored, symbol, bars);
    SettledUpsertIsIdentity(Upsert(stored, symbol, bars), symbol, bars);
  }

  /** As written, a date that is not yet stored and appears twice in one
      batch is inserted twice, because the existence query does not see the
      first, still pending, insert. */
  lemma RepeatedNewDateInsertedTwice(stored: seq<Price>, symbol: string, first: Bar, second: Bar)
    requires first.date == second.date
    requires FirstMatch(stored, symbol, first.date).None?
    ensures Upsert(stored, symbol, [first, second]) == stored + [Stored(symbol, first), Stored(symbol, second)]
    ensures !UniqueKeys(Upsert(stored, symbol, [first, second]))
  {
    assert [first, second][..1] == [first];
    assert [first][..0] == [];
    UpsertLastStep(stored, symbol, [first]);
    UpsertLastStep(stored, symbol, [first, second]);
    var r := Upsert(stored, symbol, [first, second]);
    assert SameKey(r[|stored|], r[|stored| + 1]);
  }

  /** A date that is already stored and appears twice in one batch keeps its
      one row, which ends with the values of the later bar. */
  lemma RepeatedStoredDateLastWins(stored: seq<Price>, symbol: string, first: Bar, second: Bar)
    requires first.date == second.date
    requires FirstMatch(stored, symbol, first.date).Some?
    ensures Upsert(stored, symbol, [first, second])
      == stored[FirstMatch(stored, symbol, first.date).value := Stored(symbol, second)]
  {
    assert [first, second][..1] == [first];
    assert [first][..0] == [];
    UpsertLastStep(stored, symbol, [first]);
    UpsertLastStep(stored, symbol, [first, second]);
  }

  /** Every row keeps referring to a company in `companies` when the pass's
      own symbol is one of them. */
  lemma UpsertKeepsReferences(stored: seq<Price>, symbol: string, bars: seq<Bar>, companies: set<string>)
    requires forall k :: 0 <= k < |stored| ==> stored[k].symbol in companies
    requires symbol in companies
    ensures forall k :: 0 <= k < |Upsert(stored, symbol, bars)| ==> Upsert(stored, symbol, bars)[k].symbol in companies
  {
    var r := Upsert(stored, symbol, bars);
    UpsertKeepsKeys(stored, symbol, bars);
    UpsertAppendsOnlyNewBars(stored, symbol, bars);
    forall k | 0 <= k < |r| ensures r[k].symbol in companies {
      if k < |stored| {
        assert SameKey(r[k], stored[k]);
      } else {
        var i :| 0 <= i < |bars| && r[k] == Stored(symbol, bars[i]);
      }
    }
  }
}
