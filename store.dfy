/** The stateful side of the backend: the database as an object holding the
    `companies` symbols and the `prices` rows, fetch_and_store as a method
    that runs the upsert loop over a download, and get_stock_series as a
    method that orchestrates checks, refreshes and reads. The download that
    each call to the upstream feed would return, and today's day number, are
    parameters. */
module Store {
  import opened Wrappers
  import opened PriceTable
  import Config
  import Window
  import Series

  /** What the upstream download returned: no frame at all, or a frame of
      daily bars (possibly with no rows). */
  datatype Download = NoFrame | Frame(bars: seq<Bar>)

  /** `df is None or df.empty`. */
  predicate Empty(download: Download) {
    download.NoFrame? || |download.bars| == 0
  }

  /** The errors the core raises: four HTTP exceptions, and the
      OverflowError of a read cutoff that is not a date, which the web
      framework answers as an internal server error. */
  datatype Error =
    | NotSupported(symbol: string)
    | FetchFailed(symbol: string)
    | CompanyMissing(symbol: string)
    | UnknownSymbol(symbol: string)
    | CutoffOverflow(symbol: string)
  {
    /** 502 for a failed download, 500 for the unhandled overflow, and 404
        for the rest. */
    function Status(): (code: int)
      ensures code == 502 <==> FetchFailed?
      ensures code == 500 <==> CutoffOverflow?
      ensures code != 500 && code != 502 ==> code == 404
    {
      if FetchFailed? then 502 else if CutoffOverflow? then 500 else 404
    }

    function Detail(): string {
      match this
      case NotSupported(s) => "Symbol '" + s + "' not supported"
      case FetchFailed(s) => "Failed to fetch data for " + s
      case CompanyMissing(s) => "Company '" + s + "' not found in DB"
      case UnknownSymbol(s) => "Unknown symbol '" + s + "'"
      case CutoffOverflow(_) => "Internal Server Error"
    }
  }

  /** The error fetch_and_store raises before writing anything, if any: an
      unmapped symbol first, then an empty download, then a missing company
      row. */
  function FetchError(symbol: string, download: Download, companies: set<string>): (e: Option<Error>)
    ensures e.None? <==> Config.Listed(symbol) && !Empty(download) && symbol in companies
    ensures e.Some? ==> e.value.symbol == symbol && !e.value.UnknownSymbol? && !e.value.CutoffOverflow?
  {
    var ticker := Config.YfSymbol(symbol);
    if ticker.None? || ticker.value == "" then Some(NotSupported(symbol))
    else if Empty(download) then Some(FetchFailed(symbol))
    else if symbol !in companies then Some(CompanyMissing(symbol))
    else None
  }

  /** The order of the checks: the symbol mapping decides first, whatever the
      download and the company rows; an empty download is reported before a
      missing company row. */
  lemma FetchErrorOrder(symbol: string, download: Download, companies: set<string>)
    ensures !Config.Listed(symbol) ==> FetchError(symbol, download, companies) == Some(NotSupported(symbol))
    ensures Config.Listed(symbol) && Empty(download) ==> FetchError(symbol, download, companies) == Some(FetchFailed(symbol))
    ensures Config.Listed(symbol) && !Empty(download) && symbol !in companies ==>
      FetchError(symbol, download, companies) == Some(CompanyMissing(symbol))
    ensures FetchError(symbol, download, companies).Some? ==>
      FetchError(symbol, download, companies).value.Status() == (if Config.Listed(symbol) && Empty(download) then 502 else 404)
  {
  }

  /** What one call of get_stock_series leaves behind: the response or the
      error raised, the price rows afterwards, and how many times it ran
      fetch_and_store. */
  datatype Served = Served(response: Result<Series.StockSeries, Error>, table: seq<Price>, fetches: nat)

  /** The table after the optional refresh that precedes the read, when that
      refresh raised nothing. */
  function AfterRefresh(table: seq<Price>, symbol: string, refresh: bool, onRefresh: Download, companies: set<string>): seq<Price>
    requires refresh ==> FetchError(symbol, onRefresh, companies).None?
  {
    if refresh then Upsert(table, symbol, onRefresh.bars) else table
  }

  /** A pass never changes the key of a row already in the table, so
      neither does the optional refresh. */
  lemma AfterRefreshKeepsKeys(table: seq<Price>, symbol: string, refresh: bool, onRefresh: Download, companies: set<string>)
    requires refresh ==> FetchError(symbol, onRefresh, companies).None?
    ensures var before := AfterRefresh(table, symbol, refresh, onRefresh, companies);
      |table| <= |before| && forall k :: 0 <= k < |table| ==> SameKey(before[k], table[k])
  {
    if refresh {
      UpsertKeepsKeys(table, symbol, onRefresh.bars);
    }
  }

  /** get_stock_series on values. `onRefresh` is what the download returns to
      the refresh that `refresh` asks for; `onRetry` is what it returns to
      the one extra fetch made when the read comes back empty. Each read
      asks for today's date anew: `today` is the day of the first read and
      `rereadToday` the day of the re-read after that extra fetch. No
      request fetches more than twice, every error concerns the requested
      symbol, and every stored row stays, under its key. */
  function Serve(
    companies: set<string>, table: seq<Price>, symbol: string, days: int, refresh: bool, today: int,
    rereadToday: int, onRefresh: Download, onRetry: Download): (s: Served)
    ensures s.fetches <= 2
    ensures s.response.Failure? ==> s.response.error.symbol == symbol
    ensures |table| <= |s.table| && forall k :: 0 <= k < |table| ==> SameKey(s.table[k], table[k])
  {
    if symbol !in companies then Served(Failure(UnknownSymbol(symbol)), table, 0)
    else if refresh && FetchError(symbol, onRefresh, companies).Some? then
      Served(Failure(FetchError(symbol, onRefresh, companies).value), table, 1)
    else
      var before := AfterRefresh(table, symbol, refresh, onRefresh, companies);
      AfterRefreshKeepsKeys(table, symbol, refresh, onRefresh, companies);
      var fetched: nat := if refresh then 1 else 0;
      var read := Window.LastNDays(before, symbol, days, today);
      if read.None? then Served(Failure(CutoffOverflow(symbol)), before, fetched)
      else if read.value != [] then Served(Success(Series.Shape(symbol, days, read.value)), before, fetched)
      else if FetchError(symbol, onRetry, companies).Some? then
        Served(Failure(FetchError(symbol, onRetry, companies).value), before, fetched + 1)
      else
        var after := Upsert(before, symbol, onRetry.bars);
        UpsertKeepsKeys(before, symbol, onRetry.bars);
        var reread := Window.LastNDays(after, symbol, days, rereadToday);
        if reread.None? then Served(Failure(CutoffOverflow(symbol)), after, fetched + 1)
        else Served(Success(Series.Shape(symbol, days, reread.value)), after, fetched + 1)
  }

  /** The day of the read a response of `s` comes from: the re-read's when
      the extra fetch ran, the first read's otherwise. */
  function ReadDay(s: Served, refresh: bool, today: int, rereadToday: int): int {
    if s.fetches == (if refresh then 2 else 1) then rereadToday else today
  }

  /** An unknown company is a 404 raised before any fetch, whatever
      `refresh` says, and leaves the table alone. */
  lemma ServeUnknownSymbol(
    companies: set<string>, table: seq<Price>, symbol: string, days: int, refresh: bool, today: int,
    rereadToday: int, onRefresh: Download, onRetry: Download)
    requires symbol !in companies
    ensures var s := Serve(companies, table, symbol, days, refresh, today, rereadToday, onRefresh, onRetry);
      && s.response == Failure(UnknownSymbol(symbol))
      && s.response.error.Status() == 404
      && s.fetches == 0
      && s.table == table
  {
  }

  /** With `refresh`, the refresh runs before the read. An error it raises
      is the response, with nothing written and no second fetch. Otherwise
      the download is upserted first, and when the read of the upserted
      table finds rows, they are the response, after exactly one fetch. */
  lemma ServeRefreshFirst(
    companies: set<string>, table: seq<Price>, symbol: string, days: int, today: int,
    rereadToday: int, onRefresh: Download, onRetry: Download)
    requires symbol in companies
    ensures var s := Serve(companies, table, symbol, days, true, today, rereadToday, onRefresh, onRetry);
      && s.fetches >= 1
      && (FetchError(symbol, onRefresh, companies).Some? ==>
            s.response == Failure(FetchError(symbol, onRefresh, companies).value) && s.fetches == 1 && s.table == table)
      && (FetchError(symbol, onRefresh, companies).None? ==>
            var read := Window.LastNDays(Upsert(table, symbol, onRefresh.bars), symbol, days, today);
            read.Some? && read.value != [] ==>
              && s.table == Upsert(table, symbol, onRefresh.bars)
              && s.fetches == 1
              && s.response == Success(Series.Shape(symbol, days, read.value)))
  {
  }

  /** A first read whose cutoff is not a date raises an internal error after
      the refresh, if one was asked for, has already written its rows; there
      is no retry. */
  lemma ServeCutoffOverflow(
    companies: set<string>, table: seq<Price>, symbol: string, days: int, refresh: bool, today: int,
    rereadToday: int, onRefresh: Download, onRetry: Download)
    requires symbol in companies
    requires refresh ==> FetchError(symbol, onRefresh, companies).None?
    requires !Window.CutoffRepresentable(today, days)
    ensures var s := Serve(companies, table, symbol, days, refresh, today, rereadToday, onRefresh, onRetry);
      && s.response == Failure(CutoffOverflow(symbol))
      && s.response.error.Status() == 500
      && s.table == (if refresh then Upsert(table, symbol, onRefresh.bars) else table)
      && s.fetches == (if refresh then 1 else 0)
  {
  }

  /** An empty read triggers exactly one more fetch_and_store, whether or not
      a refresh ran: its error is the response, or else the table is upserted
      with the retry's download and read again, on the day of that re-read,
      which may itself raise for a cutoff that is not a date. */
  lemma ServeRetryOnEmptyRead(
    companies: set<string>, table: seq<Price>, symbol: string, days: int, refresh: bool, today: int,
    rereadToday: int, onRefresh: Download, onRetry: Download)
    requires symbol in companies
    requires refresh ==> FetchError(symbol, onRefresh, companies).None?
    requires Window.LastNDays(AfterRefresh(table, symbol, refresh, onRefresh, companies), symbol, days, today) == Some([])
    ensures var s := Serve(companies, table, symbol, days, refresh, today, rereadToday, onRefresh, onRetry);
      var before := AfterRefresh(table, symbol, refresh, onRefresh, companies);
      && s.fetches == (if refresh then 2 else 1)
      && (FetchError(symbol, onRetry, companies).Some? ==>
            s.response == Failure(FetchError(symbol, onRetry, companies).value) && s.table == before)
      && (FetchError(symbol, onRetry, companies).None? ==>
            && s.table == Upsert(before, symbol, onRetry.bars)
            && (Window.LastNDays(s.table, symbol, days, rereadToday).None? ==>
                  s.response == Failure(CutoffOverflow(symbol)))
            && (Window.LastNDays(s.table, symbol, days, rereadToday).Some? ==>
                  s.response == Success(Series.Shape(symbol, days, Window.LastNDays(s.table, symbol, days, rereadToday).value))))
  {
  }

  /** A read that finds rows is answered from them, with no extra fetch: the
      table is the one the optional refresh left, which without `refresh`
      means no fetch at all and an unchanged table. */
  lemma ServeNoRetryOnRows(
    companies: set<string>, table: seq<Price>, symbol: string, days: int, refresh: bool, today: int,
    rereadToday: int, onRefresh: Download, onRetry: Download)
    requires symbol in companies
    requires refresh ==> FetchError(symbol, onRefresh, companies).None?
    requires var read := Window.LastNDays(AfterRefresh(table, symbol, refresh, onRefresh, companies), symbol, days, today);
      read.Some? && read.value != []
    ensures var s := Serve(companies, table, symbol, days, refresh, today, rereadToday, onRefresh, onRetry);
      && s.fetches == (if refresh then 1 else 0)
      && s.table == AfterRefresh(table, symbol, refresh, onRefresh, companies)
      && (!refresh ==> s.table == table)
      && Window.LastNDays(s.table, symbol, days, today).Some?
      && s.response == Success(Series.Shape(symbol, days, Window.LastNDays(s.table, symbol, days, today).value))
  {
  }

  /** A successful response is the shaped read of the table left behind,
      taken on the day of the read it comes from. */
  lemma ServeShapesFinalRead(
    companies: set<string>, table: seq<Price>, symbol: string, days: int, refresh: bool, today: int,
    rereadToday: int, onRefresh: Download, onRetry: Download)
    ensures var s := Serve(companies, table, symbol, days, refresh, today, rereadToday, onRefresh, onRetry);
      var day := ReadDay(s, refresh, today, rereadToday);
      s.response.Success? ==>
        && Window.LastNDays(s.table, symbol, days, day).Some?
        && s.response.value == Series.Shape(symbol, days, Window.LastNDays(s.table, symbol, days, day).value)
  {
    var s := Serve(companies, table, symbol, days, refresh, today, rereadToday, onRefresh, onRetry);
    if symbol in companies && !(refresh && FetchError(symbol, onRefresh, companies).Some?) {
      var before := AfterRefresh(table, symbol, refresh, onRefresh, companies);
      var read := Window.LastNDays(before, symbol, days, today);
      if read.Some? && read.value != [] {
        assert s == Served(Success(Series.Shape(symbol, days, read.value)), before, if refresh then 1 else 0);
        assert ReadDay(s, refresh, today, rereadToday) == today;
      } else if read.Some? && FetchError(symbol, onRetry, companies).None? {
        var after := Upsert(before, symbol, onRetry.bars);
        var reread := Window.LastNDays(after, symbol, days, rereadToday);
        if reread.Some? {
          assert s == Served(Success(Series.Shape(symbol, days, reread.value)), after, if refresh then 2 else 1);
          assert ReadDay(s, refresh, today, rereadToday) == rereadToday;
        }
      }
    }
  }

  /** Every successful response names the symbol and its display name,
      counts the rows read before trimming, shows at most `days` of them for
      a positive `days`, and is ascending by date. */
  lemma ServeResponse(
    companies: set<string>, table: seq<Price>, symbol: string, days: int, refresh: bool, today: int,
    rereadToday: int, onRefresh: Download, onRetry: Download)
    ensures var s := Serve(companies, table, symbol, days, refresh, today, rereadToday, onRefresh, onRetry);
      var day := ReadDay(s, refresh, today, rereadToday);
      s.response.Success? ==>
        && Window.LastNDays(s.table, symbol, days, day).Some?
        && var rows := Window.LastNDays(s.table, symbol, days, day).value;
          var out := s.response.value;
          && out.symbol == symbol && out.name == Config.DisplayName(symbol)
          && out.count == |rows| && |out.data| <= out.count
          && (1 <= days ==> |out.data| <= days)
          && forall i, j :: 0 <= i < j < |out.data| ==> out.data[i].date <= out.data[j].date
  {
    var s := Serve(companies, table, symbol, days, refresh, today, rereadToday, onRefresh, onRetry);
    ServeShapesFinalRead(companies, table, symbol, days, refresh, today, rereadToday, onRefresh, onRetry);
    if s.response.Success? {
      var rows := Window.LastNDays(s.table, symbol, days, ReadDay(s, refresh, today, rereadToday)).value;
      Series.ShapeHeader(symbol, days, rows);
      Series.ShapeKeepsOrder(symbol, days, rows);
    }
  }

  /** When the table holds at most one row per (symbol, date) and each
      download has distinct dates, so does the table afterwards. */
  lemma ServeKeepsUniqueKeys(
    companies: set<string>, table: seq<Price>, symbol: string, days: int, refresh: bool, today: int,
    rereadToday: int, onRefresh: Download, onRetry: Download)
    requires UniqueKeys(table)
    requires onRefresh.Frame? ==> DistinctDates(onRefresh.bars)
    requires onRetry.Frame? ==> DistinctDates(onRetry.bars)
    ensures UniqueKeys(Serve(companies, table, symbol, days, refresh, today, rereadToday, onRefresh, onRetry).table)
  {
    if symbol in companies && !(refresh && FetchError(symbol, onRefresh, companies).Some?) {
      var before := AfterRefresh(table, symbol, refresh, onRefresh, companies);
      if refresh {
        UpsertKeepsUniqueKeys(table, symbol, onRefresh.bars);
      }
      if Window.LastNDays(before, symbol, days, today) == Some([]) && FetchError(symbol, onRetry, companies).None? {
        UpsertKeepsUniqueKeys(before, symbol, onRetry.bars);
      }
    }
  }

  /** Under the same conditions, the dates of a successful response strictly
      increase: no day is shown twice. */
  lemma ServeDatesStrictlyIncrease(
    companies: set<string>, table: seq<Price>, symbol: string, days: int, refresh: bool, today: int,
    rereadToday: int, onRefresh: Download, onRetry: Download)
    requires UniqueKeys(table)
    requires onRefresh.Frame? ==> DistinctDates(onRefresh.bars)
    requires onRetry.Frame? ==> DistinctDates(onRetry.bars)
    ensures var s := Serve(companies, table, symbol, days, refresh, today, rereadToday, onRefresh, onRetry);
      s.response.Success? ==>
        forall i, j :: 0 <= i < j < |s.response.value.data| ==>
          s.response.value.data[i].date < s.response.value.data[j].date
  {
    var s := Serve(companies, table, symbol, days, refresh, today, rereadToday, onRefresh, onRetry);
    ServeKeepsUniqueKeys(companies, table, symbol, days, refresh, today, rereadToday, onRefresh, onRetry);
    if s.response.Success? {
      ServeShapesFinalRead(companies, table, symbol, days, refresh, today, rereadToday, onRefresh, onRetry);
      var day := ReadDay(s, refresh, today, rereadToday);
      var rows := Window.LastNDays(s.table, symbol, days, day).value;
      Window.LastNDaysStrictlyAscending(s.table, symbol, days, day);
      Series.ShapeKeepsStrictOrder(symbol, days, rows);
    }
  }

  /** The database: the symbols of the `companies` table and the rows of the
      `prices` table in storage order. */
  class PriceStore {
    var companies: set<string>
    var prices: seq<Price>

    constructor (companies: set<string>, prices: seq<Price>)
      ensures this.companies == companies && this.prices == prices
    {
      this.companies := companies;
      this.prices := prices;
    }

    /** Every price row refers to a company row. */
    predicate RowsReferToCompanies()
      reads this
    {
      forall k :: 0 <= k < |prices| ==> prices[k].symbol in companies
    }

    /** fetch_and_store: check the symbol, the download and the company row,
        in that order, raising before any write; then upsert each bar of the
        download. The existence query of each iteration sees the rows stored
        before the pass began. */
    method FetchAndStore(symbol: string, download: Download) returns (raised: Option<Error>)
      modifies this
      ensures companies == old(companies)
      ensures raised == FetchError(symbol, download, companies)
      ensures raised.Some? ==> prices == old(prices)
      ensures raised.None? ==> prices == Upsert(old(prices), symbol, download.bars)
      ensures old(RowsReferToCompanies()) ==> RowsReferToCompanies()
    {
      var ticker := Config.YfSymbol(symbol);
      if ticker.None? || ticker.value == "" {
        return Some(NotSupported(symbol));
      }
      if download.NoFrame? || |download.bars| == 0 {
        return Some(FetchFailed(symbol));
      }
      if symbol !in companies {
        return Some(CompanyMissing(symbol));
      }
      var bars := download.bars;
      var stored := prices;
      var i := 0;
      while i < |bars|
        invariant 0 <= i <= |bars|
        invariant companies == old(companies) && stored == old(prices)
        invariant prices == Upsert(stored, symbol, bars[..i])
      {
        var bar := bars[i];
        assert bars[..i + 1][..i] == bars[..i] && bars[..i + 1][i] == bar;
        UpsertLastStep(stored, symbol, bars[..i + 1]);
        var existing := FirstMatch(stored, symbol, bar.date);
        if existing.Some? {
          var k := existing.value;
          prices := prices[k := Refreshed(prices[k], bar)];
        } else {
          prices := prices + [Stored(symbol, bar)];
        }
        i := i + 1;
      }
      assert bars[..i] == bars;
      if old(RowsReferToCompanies()) {
        UpsertKeepsReferences(stored, symbol, bars, companies);
      }
      raised := None;
    }

    /** get_stock_series: reject an unknown company, refresh first when
        asked, read the window, refresh once more and re-read when the read
        is empty, then shape the response. A cutoff that is not a date
        raises at the read that computes it. `days` and `refresh` default to
        30 and true, as the endpoint's query parameters do. `today` and
        `rereadToday` are what each read's call for today's date returns;
        `fetches` counts the calls of fetch_and_store. */
    method GetStockSeries(
      symbol: string, days: int := 30, refresh: bool := true, today: int, rereadToday: int,
      onRefresh: Download, onRetry: Download)
      returns (response: Result<Series.StockSeries, Error>, fetches: nat)
      modifies this
      ensures companies == old(companies)
      ensures Served(response, prices, fetches)
        == Serve(old(companies), old(prices), symbol, days, refresh, today, rereadToday, onRefresh, onRetry)
      ensures old(RowsReferToCompanies()) ==> RowsReferToCompanies()
    {
      if symbol !in companies {
        return Failure(UnknownSymbol(symbol)), 0;
      }
      fetches := 0;
      if refresh {
        var raised := FetchAndStore(symbol, onRefresh);
        fetches := 1;
        if raised.Some? {
          return Failure(raised.value), fetches;
        }
      }
      assert prices == AfterRefresh(old(prices), symbol, refresh, onRefresh, companies);
      var read := Window.LastNDays(prices, symbol, days, today);
      if read.None? {
        return Failure(CutoffOverflow(symbol)), fetches;
      }
      var rows := read.value;
      if rows == [] {
        var raised := FetchAndStore(symbol, onRetry);
        fetches := fetches + 1;
        if raised.Some? {
          return Failure(raised.value), fetches;
        }
        var reread := Window.LastNDays(prices, symbol, days, rereadToday);
        if reread.None? {
          return Failure(CutoffOverflow(symbol)), fetches;
        }
        rows := reread.value;
      }
      response := Success(Series.Shape(symbol, days, rows));
    }
  }
}
