/** The response of get_stock_series: each stored row becomes a point whose
    missing numbers read as 0, the list is cut to its last `days` points the
    way Python's `data[-days:]` does, and the display name and the untrimmed
    count come with it. Stored rows are read, never changed. */
module Series {
  import opened Wrappers
  import opened PriceTable
  import Config
  import Window

  /** One point of the response: every number present. */
  datatype PricePoint = PricePoint(date: int, open: real, high: real, low: real, close: real, volume: int)

  datatype StockSeries = StockSeries(symbol: string, name: string, count: int, data: seq<PricePoint>)

  /** Python's `x or 0.0` on a nullable float column: None and 0.0 are both
      falsy and give 0.0; any other value is kept. */
  function OrZero(x: Option<real>): (r: real)
    ensures r == if x.Some? then x.value else 0.0
  {
    if x.Some? && x.value != 0.0 then x.value else 0.0
  }

  /** Python's `x or 0` on a nullable integer column. */
  function OrZeroInt(x: Option<int>): (r: int)
    ensures r == if x.Some? then x.value else 0
  {
    if x.Some? && x.value != 0 then x.value else 0
  }

  /** The point a stored row is shown as: the row's date, and each number
      as stored, or 0 where the row holds None. */
  function Point(row: Price): (pt: PricePoint)
    ensures pt.date == row.date
    ensures pt.open == (if row.open.Some? then row.open.value else 0.0)
    ensures pt.high == (if row.high.Some? then row.high.value else 0.0)
    ensures pt.low == (if row.low.Some? then row.low.value else 0.0)
    ensures pt.close == (if row.close.Some? then row.close.value else 0.0)
    ensures pt.volume == (if row.volume.Some? then row.volume.value else 0)
  {
    PricePoint(row.date, OrZero(row.open), OrZero(row.high), OrZero(row.low), OrZero(row.close), OrZeroInt(row.volume))
  }

  function Points(rows: seq<Price>): (points: seq<PricePoint>)
    ensures |points| == |rows|
    ensures forall k :: 0 <= k < |rows| ==> points[k] == Point(rows[k])
  {
    seq(|rows|, k requires 0 <= k < |rows| => Point(rows[k]))
  }

  /** Python's `s[-days:]`. A positive `days` keeps the last `days` items (all
      of them when there are fewer); `days == 0` keeps everything, since
      `-0` is `0`; a negative `days` drops the first `-days` items. */
  function TailSlice<T>(s: seq<T>, days: int): (r: seq<T>)
    ensures |r| <= |s| && r == s[|s| - |r|..]
    ensures 1 <= days ==> |r| == if days < |s| then days else |s|
    ensures days <= 0 ==> |r| == if |s| + days > 0 then |s| + days else 0
  {
    var start := -days;
    if start < 0 then
      (if |s| + start < 0 then s else s[|s| + start..])
    else
      (if start > |s| then [] else s[start..])
  }

  /** The response body built from the rows the read returned: the points
      shown are those of the most recent rows, in read order, and `count`
      is the number of rows before trimming. */
  function Shape(symbol: string, days: int, rows: seq<Price>): (out: StockSeries)
    ensures out.count == |rows| && |out.data| <= |rows|
    ensures forall k :: 0 <= k < |out.data| ==> out.data[k] == Point(rows[|rows| - |out.data| + k])
  {
    var points := Points(rows);
    var data := TailSlice(points, days);
    assert forall k :: 0 <= k < |data| ==> data[k] == points[|points| - |data| + k];
    StockSeries(symbol, Config.DisplayName(symbol), |rows|, data)
  }

  /** Trim: for a positive `days`, the response holds the points of the
      `days` most recent rows (all rows when there are fewer), oldest first
      and in the read's order, while `count` still gives the untrimmed
      number of rows. */
  lemma {:induction false} ShapeKeepsLatest(symbol: string, days: int, rows: seq<Price>)
    requires 1 <= days
    ensures var out := Shape(symbol, days, rows);
      var kept := if days < |rows| then days else |rows|;
      && |out.data| == kept
      && out.count == |rows|
      && forall k :: 0 <= k < kept ==> out.data[k] == Point(rows[|rows| - kept + k])
  {
    var points := Points(rows);
    var data := TailSlice(points, days);
    assert Shape(symbol, days, rows).data == data;
    var kept := if days < |rows| then days else |rows|;
    assert |data| == kept;
    assert data == points[|points| - kept..];
    forall k | 0 <= k < kept ensures data[k] == Point(rows[|rows| - kept + k]) {
      assert data[k] == points[|points| - kept + k];
    }
  }

  /** The header of the response: the symbol, its display name, and the
      number of rows read, which bounds the number of points shown; a
      positive `days` bounds it too. */
  lemma ShapeHeader(symbol: string, days: int, rows: seq<Price>)
    ensures var out := Shape(symbol, days, rows);
      && out.symbol == symbol && out.name == Config.DisplayName(symbol)
      && out.count == |rows| && |out.data| <= out.count
      && (1 <= days ==> |out.data| <= days)
  {
    var data := TailSlice(Points(rows), days);
    assert Shape(symbol, days, rows).data == data;
  }

  /** Under-fill: with no more rows than requested, every row is returned
      and nothing is an error. */
  lemma ShapeUnderFill(symbol: string, days: int, rows: seq<Price>)
    requires 1 <= days && |rows| <= days
    ensures Shape(symbol, days, rows).data == Points(rows)
    ensures Shape(symbol, days, rows).count == |rows|
  {
    ShapeKeepsLatest(symbol, days, rows);
  }

  /** Rows read in ascending date order are shown in ascending date order. */
  lemma ShapeKeepsOrder(symbol: string, days: int, rows: seq<Price>)
    requires Window.SortedByDate(rows)
    ensures var data := Shape(symbol, days, rows).data;
      forall i, j :: 0 <= i < j < |data| ==> data[i].date <= data[j].date
  {
    var points := Points(rows);
    var data := Shape(symbol, days, rows).data;
    var off := |points| - |data|;
    assert data == points[off..];
    forall i, j | 0 <= i < j < |data| ensures data[i].date <= data[j].date {
      assert data[i] == Point(rows[off + i]) && data[j] == Point(rows[off + j]);
    }
  }

  /** Rows read with strictly increasing dates are shown with strictly
      increasing dates. */
  lemma ShapeKeepsStrictOrder(symbol: string, days: int, rows: seq<Price>)
    requires forall i, j :: 0 <= i < j < |rows| ==> rows[i].date < rows[j].date
    ensures var data := Shape(symbol, days, rows).data;
      forall i, j :: 0 <= i < j < |data| ==> data[i].date < data[j].date
  {
    var points := Points(rows);
    var data := Shape(symbol, days, rows).data;
    var off := |points| - |data|;
    assert data == points[off..];
    forall i, j | 0 <= i < j < |data| ensures data[i].date < data[j].date {
      assert data[i] == Point(rows[off + i]) && data[j] == Point(rows[off + j]);
    }
  }
}
