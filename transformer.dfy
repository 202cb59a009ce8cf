/**
 * The report transformation: from the brokerage's transaction rows to the rows
 * the portfolio tracker imports. Only market buys and sells are kept, two
 * tickers the tracker cannot handle are dropped, and brokerage ticker symbols
 * are rewritten to the tracker's exchange-qualified symbols.
 */
module ReportTransformer {

  /** One row of the report. `rest` holds the cells of every other column, which the transformation never touches. */
  datatype Row = Row(action: string, ticker: string, rest: seq<string>)

  /** The actions that survive the first filter. */
  const AllowedActions: set<string> := {"Market buy", "Market sell"}

  /** Tickers dropped outright: VNTRF because of a stock split, BRK.A because the tracker does not list it. */
  const TickerBlacklist: set<string> := {"VNTRF", "BRK.A"}

  /** Brokerage symbol to tracker symbol; a symbol that is not a key passes through unchanged. */
  const TickerMap: map<string, string> := map[
    "VWCE" := "VWCE.DE",
    "VUAA" := "VUAA.DE",
    "SXRV" := "SXRV.DE",
    "ZPRV" := "ZPRV.DE",
    "ZPRX" := "ZPRX.DE",
    "MC" := "MC.PA",
    "ASML" := "ASML.AS",
    "CSPX" := "CSPX.L",
    "EISU" := "EISU.L",
    "IITU" := "IITU.L",
    "IUHC" := "IUHC.L",
    "NDIA" := "NDIA.L",
    "NUKL" := "NUKL.DE",
    "AVWS" := "AVWS.DE"
  ]

  predicate HasAllowedAction(row: Row) { row.action in AllowedActions }

  predicate HasAdmittedTicker(row: Row) { row.ticker !in TickerBlacklist }

  /** A row survives both filters. */
  predicate Kept(row: Row) { HasAllowedAction(row) && HasAdmittedTicker(row) }

  /** The table is closed: no mapped symbol is itself a key or blacklisted, and no key is blacklisted. */
  lemma TickerMapIsClosed()
    ensures forall t :: t in TickerMap ==> TickerMap[t] !in TickerMap && TickerMap[t] !in TickerBlacklist
    ensures forall t :: t in TickerMap ==> t !in TickerBlacklist
  {
  }

  /** Boolean-mask row selection (`df[mask]`): the rows satisfying `keep`, in their original order. */
  function Select(rows: seq<Row>, keep: Row -> bool): (r: seq<Row>)
    ensures |r| <= |rows|
    ensures forall x :: x in r <==> x in rows && keep(x)
  {
    if rows == [] then []
    else
      assert rows == [rows[0]] + rows[1..];
      if keep(rows[0]) then [rows[0]] + Select(rows[1..], keep) else Select(rows[1..], keep)
  }

  /** The dict-driven `replace` on one symbol. */
  function MapTicker(t: string): (r: string)
    ensures r !in TickerMap
    ensures r in TickerBlacklist <==> t in TickerBlacklist
  {
    TickerMapIsClosed();
    if t in TickerMap then TickerMap[t] else t
  }

  function RemapRow(row: Row): Row
  {
    row.(ticker := MapTicker(row.ticker))
  }

  /** `report_df['Ticker'] = report_df['Ticker'].replace(ticker_map)`. */
  function RemapTickers(rows: seq<Row>): seq<Row>
  {
    seq(|rows|, k requires 0 <= k < |rows| => RemapRow(rows[k]))
  }

  function FilterActions(rows: seq<Row>): seq<Row>
  {
    Select(rows, HasAllowedAction)
  }

  function FilterBlacklist(rows: seq<Row>): seq<Row>
  {
    Select(rows, HasAdmittedTicker)
  }

  /** The whole transformation; the final `convert_dtypes()` changes no value and is the identity here. */
  function Transform(rows: seq<Row>): seq<Row>
  {
    RemapTickers(FilterBlacklist(FilterActions(rows)))
  }

  /** `xs` is `ys` with some elements left out and the rest in their original order. */
  ghost predicate IsSubsequence(xs: seq<Row>, ys: seq<Row>)
    decreases |ys|
  {
    if xs == [] then true
    else if ys == [] then false
    else (xs[0] == ys[0] && IsSubsequence(xs[1..], ys[1..])) || IsSubsequence(xs, ys[1..])
  }

  lemma {:induction false} SelectIsSubsequence(rows: seq<Row>, keep: Row -> bool)
    ensures IsSubsequence(Select(rows, keep), rows)
    decreases |rows|
  {
    if rows != [] {
      SelectIsSubsequence(rows[1..], keep);
      var rest := Select(rows[1..], keep);
      if keep(rows[0]) {
        assert Select(rows, keep) == [rows[0]] + rest;
        assert ([rows[0]] + rest)[1..] == rest;
      }
    }
  }

  /** Selection keeps every copy of a wanted row and no copy of an unwanted one. */
  lemma {:induction false} SelectMultiplicity(rows: seq<Row>, keep: Row -> bool, x: Row)
    ensures multiset(Select(rows, keep))[x] == if keep(x) then multiset(rows)[x] else 0
    decreases |rows|
  {
    if rows != [] {
      SelectMultiplicity(rows[1..], keep, x);
      assert rows == [rows[0]] + rows[1..];
      assert multiset(rows) == multiset{rows[0]} + multiset(rows[1..]);
    }
  }

  lemma {:induction false} SelectAll(rows: seq<Row>, keep: Row -> bool)
    requires forall k :: 0 <= k < |rows| ==> keep(rows[k])
    ensures Select(rows, keep) == rows
    decreases |rows|
  {
    if rows != [] {
      SelectAll(rows[1..], keep);
      assert rows == [rows[0]] + rows[1..];
    }
  }

  /** The two filters in a row select the same rows as the one combined filter. */
  lemma {:induction false} FiltersCombine(rows: seq<Row>)
    ensures FilterBlacklist(FilterActions(rows)) == Select(rows, Kept)
    decreases |rows|
  {
    if rows != [] {
      FiltersCombine(rows[1..]);
      var tail := FilterActions(rows[1..]);
      if HasAllowedAction(rows[0]) {
        assert FilterActions(rows) == [rows[0]] + tail;
        assert ([rows[0]] + tail)[1..] == tail;
      }
    }
  }

  /** Filter correctness: a row appears in the output iff it is the remapped image of an input row that survives both filters. */
  lemma TransformMembership(rows: seq<Row>, x: Row)
    ensures x in Transform(rows) <==> exists r :: r in rows && Kept(r) && RemapRow(r) == x
  {
    FiltersCombine(rows);
    var kept := Select(rows, Kept);
    if x in Transform(rows) {
      var k :| 0 <= k < |kept| && Transform(rows)[k] == x;
      assert kept[k] in kept;
    }
    if r :| r in rows && Kept(r) && RemapRow(r) == x {
      assert r in kept;
      var k :| 0 <= k < |kept| && kept[k] == r;
      assert Transform(rows)[k] == x;
    }
  }

  /**
   * Order preservation: the surviving rows form an order-preserving
   * subsequence of the input, each surviving row as often as it occurs in the
   * input and no other row at all.
   */
  lemma KeptRowsInOrder(rows: seq<Row>)
    ensures IsSubsequence(Select(rows, Kept), rows)
    ensures forall x :: multiset(Select(rows, Kept))[x] == if Kept(x) then multiset(rows)[x] else 0
  {
    SelectIsSubsequence(rows, Kept);
    forall x {
      SelectMultiplicity(rows, Kept, x);
    }
  }

  /**
   * Remap correctness: position by position, the output is the surviving rows
   * with action and other cells unchanged, a ticker that is a table key
   * replaced by its mapped value, and any other ticker unchanged.
   */
  lemma TransformRowByRow(rows: seq<Row>)
    ensures |Transform(rows)| == |Select(rows, Kept)|
    ensures forall k :: 0 <= k < |Transform(rows)| ==>
      var (out, kept) := (Transform(rows)[k], Select(rows, Kept)[k]);
      && out.action == kept.action && out.rest == kept.rest
      && out.ticker == if kept.ticker in TickerMap then TickerMap[kept.ticker] else kept.ticker
  {
    FiltersCombine(rows);
  }

  /** Every output row is an allowed trade of an admitted ticker that the table no longer rewrites. */
  lemma TransformOutputIsClean(rows: seq<Row>)
    ensures forall k :: 0 <= k < |Transform(rows)| ==>
      Kept(Transform(rows)[k]) && Transform(rows)[k].ticker !in TickerMap
  {
    FiltersCombine(rows);
    var kept := Select(rows, Kept);
    forall k | 0 <= k < |Transform(rows)|
      ensures Kept(Transform(rows)[k]) && Transform(rows)[k].ticker !in TickerMap
    {
      assert kept[k] in kept;
    }
  }

  /** Idempotence: transforming an already transformed report changes nothing. */
  lemma TransformIdempotent(rows: seq<Row>)
    ensures Transform(Transform(rows)) == Transform(rows)
  {
    var out := Transform(rows);
    TransformOutputIsClean(rows);
    FiltersCombine(out);
    SelectAll(out, Kept);
    assert RemapTickers(out) == out by {
      forall k | 0 <= k < |out| ensures RemapTickers(out)[k] == out[k] {
        assert MapTicker(out[k].ticker) == out[k].ticker;
      }
    }
  }

  /** The worked example: a dividend is dropped by the action filter, BRK.A by the blacklist, and VWCE is remapped. */
  lemma TransformExample()
    ensures Transform([Row("Market buy", "VWCE", []), Row("Dividend", "AAPL", []), Row("Market sell", "BRK.A", [])])
         == [Row("Market buy", "VWCE.DE", [])]
  {
  }
}
