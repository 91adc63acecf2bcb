/** The read path of get_last_n_days_from_db: the rows of one symbol dated on
    or after a cutoff, ordered by ascending date. The table and today's day
    number are parameters. */
module Window {
  import opened Wrappers
  import opened PriceTable

  /** Calendar days read beyond the requested count, to absorb weekends and
      holidays. */
  const CUSHION: int := 5

  /** The day number of 9999-12-31, the last date Python's `date` can hold;
      day numbers are proleptic Gregorian ordinals, 0001-01-01 being 1. */
  const MAX_ORDINAL: int := 3652059

  /** The largest number of days a `timedelta` can hold, either sign. */
  const MAX_DELTA_DAYS: int := 999999999

  /** The first day number the read keeps for a request of `days` days: the
      cushion widens the window beyond the requested count. */
  function Cutoff(today: int, days: int): (c: int)
    ensures today - c == days + CUSHION
    ensures 0 <= days ==> c < today - days
  {
    today - (days + CUSHION)
  }

  /** Whether `date.today() - timedelta(days=days + 5)` yields a date: the
      delta must fit a `timedelta` and the difference must be a date between
      0001-01-01 and 9999-12-31; otherwise Python raises OverflowError. */
  predicate CutoffRepresentable(today: int, days: int) {
    && -MAX_DELTA_DAYS <= days + CUSHION <= MAX_DELTA_DAYS
    && 1 <= Cutoff(today, days) <= MAX_ORDINAL
  }

  predicate InWindow(row: Price, symbol: string, cutoff: int) {
    row.symbol == symbol && row.date >= cutoff
  }

  predicate SortedByDate(rows: seq<Price>) {
    forall i, j :: 0 <= i < j < |rows| ==> rows[i].date <= rows[j].date
  }

  /** The filter of the query: the rows in the window, in storage order, each
      as often as the table holds it. */
  function Matching(table: seq<Price>, symbol: string, cutoff: int): (r: seq<Price>)
    ensures forall p :: multiset(r)[p] == if InWindow(p, symbol, cutoff) then multiset(table)[p] else 0
    ensures forall k :: 0 <= k < |r| ==> InWindow(r[k], symbol, cutoff)
  {
    if table == [] then []
    else
      assert table == [table[0]] + table[1..];
      var rest := Matching(table[1..], symbol, cutoff);
      if InWindow(table[0], symbol, cutoff) then [table[0]] + rest else rest
  }

  /** `row` placed before the first row of `sorted` with a date not earlier
      than its own. */
  function InsertByDate(row: Price, sorted: seq<Price>): (r: seq<Price>)
    requires SortedByDate(sorted)
    ensures SortedByDate(r)
    ensures multiset(r) == multiset(sorted) + multiset{row}
    ensures |r| == |sorted| + 1 && (r[0] == row || (sorted != [] && r[0] == sorted[0]))
  {
    if sorted == [] || row.date <= sorted[0].date then [row] + sorted
    else
      assert sorted == [sorted[0]] + sorted[1..];
      var rest := InsertByDate(row, sorted[1..]);
      assert sorted[0].date <= rest[0].date;
      [sorted[0]] + rest
  }

  /** The `ORDER BY date ASC` of the query, as a stable insertion sort. */
  function SortByDate(rows: seq<Price>): (r: seq<Price>)
    ensures SortedByDate(r)
    ensures multiset(r) == multiset(rows)
  {
    if rows == [] then []
    else
      assert rows == [rows[0]] + rows[1..];
      InsertByDate(rows[0], SortByDate(rows[1..]))
  }

  /** get_last_n_days_from_db: the rows of `symbol` dated on or after
      today - (days + 5), ascending by date; the empty sequence, not an
      error, when no row is in the window. None stands for the OverflowError
      raised when that cutoff is not a date. */
  function LastNDays(table: seq<Price>, symbol: string, days: int, today: int): (r: Option<seq<Price>>)
    ensures r.None? <==> !CutoffRepresentable(today, days)
    ensures r.Some? ==> SortedByDate(r.value)
    ensures r.Some? ==> forall p :: multiset(r.value)[p] == if InWindow(p, symbol, Cutoff(today, days)) then multiset(table)[p] else 0
    ensures r.Some? ==> forall p :: p in r.value <==> p in table && InWindow(p, symbol, Cutoff(today, days))
    ensures r.Some? ==> (r.value == [] <==> forall k :: 0 <= k < |table| ==> !InWindow(table[k], symbol, Cutoff(today, days)))
  {
    if !CutoffRepresentable(today, days) then None
    else
      var m := Matching(table, symbol, Cutoff(today, days));
      MatchingEmpty(table, symbol, Cutoff(today, days));
      Some(SortByDate(m))
  }

  /** The filter keeps nothing exactly when no row is in the window. */
  lemma MatchingEmpty(table: seq<Price>, symbol: string, cutoff: int)
    ensures Matching(table, symbol, cutoff) == [] <==> forall k :: 0 <= k < |table| ==> !InWindow(table[k], symbol, cutoff)
  {
    var m := Matching(table, symbol, cutoff);
    if m == [] {
      forall k | 0 <= k < |table| ensures !InWindow(table[k], symbol, cutoff) {
        assert multiset(m)[table[k]] == 0;
      }
    }
  }

  /** Removing rows never creates a duplicate key. */
  lemma {:induction false} MatchingKeepsUniqueKeys(table: seq<Price>, symbol: string, cutoff: int)
    requires UniqueKeys(table)
    ensures UniqueKeys(Matching(table, symbol, cutoff))
  {
    if table != [] {
      MatchingKeepsUniqueKeys(table[1..], symbol, cutoff);
      var rest := Matching(table[1..], symbol, cutoff);
      if InWindow(table[0], symbol, cutoff) {
        var r := [table[0]] + rest;
        forall i, j | 0 <= i < j < |r| ensures !SameKey(r[i], r[j]) {
          if i == 0 {
            assert r[j] in multiset(rest);
            assert multiset(table[1..])[r[j]] > 0;
            var k :| 0 <= k < |table[1..]| && table[1..][k] == r[j];
            assert !SameKey(table[0], table[k + 1]);
          } else {
            assert r[i] == rest[i - 1] && r[j] == rest[j - 1];
          }
        }
      }
    }
  }

  /** A stable insertion keeps keys unique when the inserted row's key is new. */
  lemma {:induction false} InsertKeepsUniqueKeys(row: Price, sorted: seq<Price>)
    requires SortedByDate(sorted) && UniqueKeys(sorted)
    requires forall k :: 0 <= k < |sorted| ==> !SameKey(sorted[k], row)
    ensures UniqueKeys(InsertByDate(row, sorted))
  {
    var r := InsertByDate(row, sorted);
    if sorted == [] || row.date <= sorted[0].date {
      assert r == [row] + sorted;
      forall i, j | 0 <= i < j < |r| ensures !SameKey(r[i], r[j]) {
        if i > 0 {
          assert r[i] == sorted[i - 1] && r[j] == sorted[j - 1];
        }
      }
    } else {
      var rest := InsertByDate(row, sorted[1..]);
      InsertKeepsUniqueKeys(row, sorted[1..]);
      assert r == [sorted[0]] + rest;
      forall i, j | 0 <= i < j < |r| ensures !SameKey(r[i], r[j]) {
        if i == 0 {
          assert r[j] in multiset(rest);
          if r[j] == row {
          } else {
            assert r[j] in multiset(sorted[1..]);
            var k :| 0 <= k < |sorted[1..]| && sorted[1..][k] == r[j];
            assert !SameKey(sorted[0], sorted[k + 1]);
          }
        } else {
          assert r[i] == rest[i - 1] && r[j] == rest[j - 1];
        }
      }
    }
  }

  /** Sorting never creates a duplicate key. */
  lemma {:induction false} SortKeepsUniqueKeys(rows: seq<Price>)
    requires UniqueKeys(rows)
    ensures UniqueKeys(SortByDate(rows))
  {
    if rows != [] {
      var rest := SortByDate(rows[1..]);
      SortKeepsUniqueKeys(rows[1..]);
      forall k | 0 <= k < |rest| ensures !SameKey(rest[k], rows[0]) {
        assert rest[k] in multiset(rows[1..]);
        var m :| 0 <= m < |rows[1..]| && rows[1..][m] == rest[k];
        assert !SameKey(rows[0], rows[m + 1]);
      }
      InsertKeepsUniqueKeys(rows[0], rest);
    }
  }

  /** With at most one row per (symbol, date), the read never returns two
      rows of the same date: its dates strictly increase. */
  lemma LastNDaysStrictlyAscending(table: seq<Price>, symbol: string, days: int, today: int)
    requires UniqueKeys(table)
    ensures LastNDays(table, symbol, days, today).Some? ==>
      var r := LastNDays(table, symbol, days, today).value;
      forall i, j :: 0 <= i < j < |r| ==> r[i].date < r[j].date
  {
    if CutoffRepresentable(today, days) {
      var cutoff := Cutoff(today, days);
      var m := Matching(table, symbol, cutoff);
      MatchingKeepsUniqueKeys(table, symbol, cutoff);
      SortKeepsUniqueKeys(m);
      var r := SortByDate(m);
      assert LastNDays(table, symbol, days, today) == Some(r);
      forall i, j | 0 <= i < j < |r| ensures r[i].date < r[j].date {
        assert r[i] in multiset(m) && r[j] in multiset(m);
        assert !SameKey(r[i], r[j]);
      }
    }
  }
}
