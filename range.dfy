/** `get_lp_data` and the default upload name of `export_for_oracle`: every
    (day, LDC) request of a date range, the day tables they return gathered
    and stacked, and the file named after the earliest day. */
module Range {
  import opened Core
  import opened Strings
  import opened Calendar
  import opened Fetch
  import opened Frames
  import opened Series

  /** `[... for dt in rng for ldc in self.ldcs]`: each day with `CND` and then
      `CNM`, the days in their order. */
  function Requests(days: seq<Day>): (r: seq<(Day, string)>)
    ensures |r| == 2 * |days|
    ensures forall i :: 0 <= i < |days| ==> r[2 * i] == (days[i], "CND") && r[2 * i + 1] == (days[i], "CNM")
  {
    if days == [] then []
    else
      var rest := Requests(days[1..]);
      assert forall i :: 1 <= i < |days| ==> rest[2 * (i - 1)] == (days[i], "CND") && rest[2 * (i - 1) + 1] == (days[i], "CNM");
      [(days[0], LDCS[0]), (days[0], LDCS[1])] + rest
  }

  /** The requests are exactly the listed days crossed with the accepted LDCs. */
  lemma RequestsCover(days: seq<Day>, d: Day, ldc: string)
    ensures (d, ldc) in Requests(days) <==> d in days && ldc in LDCS
  {
    var r := Requests(days);
    if (d, ldc) in r {
      var k :| 0 <= k < |r| && r[k] == (d, ldc);
      assert r[2 * (k / 2) + k % 2] == (d, ldc);
      assert days[k / 2] == d;
    }
    if d in days && ldc in LDCS {
      var i :| 0 <= i < |days| && days[i] == d;
      assert r[2 * i] == (d, "CND") && r[2 * i + 1] == (d, "CNM");
    }
  }

  /** For a date range: twice as many requests as days, and a (day, LDC)
      pair is requested exactly when the day lies between the bounds, both
      included, and the LDC is accepted. */
  lemma RangeRequested(first: Day, last: Day, d: Day, ldc: string)
    ensures |Requests(DateRange(first, last))| == 2 * |DateRange(first, last)|
    ensures (d, ldc) in Requests(DateRange(first, last)) <==> !Before(d, first) && !Before(last, d) && ldc in LDCS
  {
    DateRangeMembers(first, last, d);
    RequestsCover(DateRange(first, last), d, ldc);
  }

  /** `get_lp_series(dt, ldc)` for each request in turn, `agg_dst_hr2` left at `True`. */
  function Outcomes(reqs: seq<(Day, string)>, get: string -> Response,
                    num: string -> Option<real>, when: string -> Option<Day>): seq<Result<Option<Table>, Error>>
  {
    seq(|reqs|, k requires 0 <= k < |reqs| => LpSeries(reqs[k].0, reqs[k].1, true, get, num, when))
  }

  /** Position of the first request that raised, or `|outs|` when none did. */
  function FirstFailure(outs: seq<Result<Option<Table>, Error>>): (k: nat)
    ensures k <= |outs|
    ensures forall j :: 0 <= j < k ==> outs[j].Success?
    ensures k < |outs| ==> outs[k].Failure?
  {
    if outs == [] || outs[0].Failure? then 0 else 1 + FirstFailure(outs[1..])
  }

  /** The list comprehension evaluated left to right and handed to
      `pd.concat`: the first request that raises ends it with that error;
      otherwise the returned tables, the `None`s dropped (in request order,
      as `CollectInOrder` states). */
  function Collect(outs: seq<Result<Option<Table>, Error>>): (r: Result<seq<Table>, Error>)
    ensures r.Failure? <==> FirstFailure(outs) < |outs|
    ensures r.Failure? ==> r.error == outs[FirstFailure(outs)].error
    ensures r.Success? ==> forall t :: t in r.value <==> Success(Some(t)) in outs
    ensures r.Success? ==> |r.value| <= |outs|
  {
    if outs == [] then Success([])
    else
      match outs[0]
      case Failure(e) => Failure(e)
      case Success(o) =>
        var rest := Collect(outs[1..]);
        assert outs == [outs[0]] + outs[1..];
        if rest.Failure? then rest
        else if o.None? then rest
        else Success([o.value] + rest.value)
  }

  /** Whether a request returned a table. */
  predicate Returns(o: Result<Option<Table>, Error>) {
    o.Success? && o.value.Some?
  }

  /** The positions from `from` on of the requests that returned a table,
      in increasing order. */
  function ReturnedFrom(outs: seq<Result<Option<Table>, Error>>, from: nat): (idx: seq<nat>)
    ensures forall k :: 0 <= k < |idx| ==> from <= idx[k] < |outs| && Returns(outs[idx[k]])
    ensures forall k, l :: 0 <= k < l < |idx| ==> idx[k] < idx[l]
    ensures forall j :: from <= j < |outs| && Returns(outs[j]) ==> j in idx
    decreases |outs| - from
  {
    if from >= |outs| then []
    else if Returns(outs[from]) then [from] + ReturnedFrom(outs, from + 1)
    else ReturnedFrom(outs, from + 1)
  }

  /** Table `k` is what the request at position `idx[k]` returned. */
  predicate GatheredAt(outs: seq<Result<Option<Table>, Error>>, idx: seq<nat>, ts: seq<Table>) {
    |ts| == |idx| && forall k :: 0 <= k < |ts| ==> idx[k] < |outs| && outs[idx[k]] == Success(Some(ts[k]))
  }

  /** What is gathered from `outs[from..]` is, one for one and in order, the
      tables of the requests at `ReturnedFrom(outs, from)`. */
  lemma {:induction false} CollectFromOrder(outs: seq<Result<Option<Table>, Error>>, from: nat)
    requires from <= |outs| && Collect(outs[from..]).Success?
    ensures GatheredAt(outs, ReturnedFrom(outs, from), Collect(outs[from..]).value)
    decreases |outs| - from
  {
    if from < |outs| {
      var c := outs[from..];
      assert c[0] == outs[from] && c[1..] == outs[from + 1..];
      var rest := Collect(outs[from + 1..]);
      assert rest.Success?;
      CollectFromOrder(outs, from + 1);
      var idx' := ReturnedFrom(outs, from + 1);
      if Returns(outs[from]) {
        var t := outs[from].value.value;
        var ts := [t] + rest.value;
        var idx := [from] + idx';
        assert Collect(c).value == ts && ReturnedFrom(outs, from) == idx;
        forall k | 0 <= k < |ts| ensures idx[k] < |outs| && outs[idx[k]] == Success(Some(ts[k])) {
          if k > 0 {
            assert ts[k] == rest.value[k - 1] && idx[k] == idx'[k - 1];
          }
        }
      } else {
        assert Collect(c) == rest && ReturnedFrom(outs, from) == idx';
      }
    }
  }

  /** The gathered tables are the returned ones in request order, none lost
      and none repeated: table `k` is what the `k`-th request that returned
      a table returned. */
  lemma CollectInOrder(outs: seq<Result<Option<Table>, Error>>)
    requires Collect(outs).Success?
    ensures var idx := ReturnedFrom(outs, 0);
      && GatheredAt(outs, idx, Collect(outs).value)
      && (forall k, l :: 0 <= k < l < |idx| ==> idx[k] < idx[l])
      && (forall j :: 0 <= j < |outs| && Returns(outs[j]) ==> j in idx)
  {
    assert outs[0..] == outs;
    CollectFromOrder(outs, 0);
  }

  /** Requests that all return `None` gather no table at all. */
  lemma {:induction false} CollectNone(outs: seq<Result<Option<Table>, Error>>)
    requires forall j :: 0 <= j < |outs| ==> outs[j] == Success(None)
    ensures Collect(outs) == Success([])
  {
    if outs != [] {
      CollectNone(outs[1..]);
    }
  }

  /** A table gathered with `agg_dst_hr2` on has the normal day's 26 columns:
      the daylight-saving day was folded. */
  lemma SeriesShape(dt: Day, ldc: string, get: string -> Response,
                    num: string -> Option<real>, when: string -> Option<Day>, t: Table)
    requires LpSeries(dt, ldc, true, get, num, when) == Success(Some(t))
    ensures WellFormed(t) && t.names == ColumnNames(Hours())
  {
    var raw := Retrieve(dt, ldc, get);
    ParsedCells(raw.value, true, num, when);
  }

  /** Every gathered table of a request list has the normal day's columns. */
  lemma CollectedShape(reqs: seq<(Day, string)>, get: string -> Response,
                       num: string -> Option<real>, when: string -> Option<Day>)
    requires Collect(Outcomes(reqs, get, num, when)).Success?
    ensures forall t :: t in Collect(Outcomes(reqs, get, num, when)).value ==>
      WellFormed(t) && t.names == ColumnNames(Hours())
  {
    var outs := Outcomes(reqs, get, num, when);
    forall t | t in Collect(outs).value ensures WellFormed(t) && t.names == ColumnNames(Hours()) {
      var k :| 0 <= k < |outs| && outs[k] == Success(Some(t));
      SeriesShape(reqs[k].0, reqs[k].1, get, num, when, t);
    }
  }

  /** `pd.concat([a, b], ignore_index=True)` of two tables with the same
      columns: the rows of `b` below those of `a`. */
  function Stack(a: Table, b: Table): (u: Table)
    requires WellFormed(a) && WellFormed(b) && a.names == b.names
    ensures WellFormed(u) && u.names == a.names && u.height == a.height + b.height
    ensures forall k, i :: 0 <= k < |u.cols| && 0 <= i < a.height ==> u.cols[k][i] == a.cols[k][i]
    ensures forall k, i :: 0 <= k < |u.cols| && 0 <= i < b.height ==> u.cols[k][a.height + i] == b.cols[k][i]
  {
    Table(a.names, seq(|a.cols|, k requires 0 <= k < |a.cols| => a.cols[k] + b.cols[k]), a.height + b.height)
  }

  /** The number of rows of all the tables together. */
  function TotalHeight(ts: seq<Table>): nat {
    if ts == [] then 0 else ts[0].height + TotalHeight(ts[1..])
  }

  /** Tables that share one list of columns. */
  predicate SameColumns(ts: seq<Table>) {
    forall j :: 0 <= j < |ts| ==> WellFormed(ts[j]) && ts[j].names == ts[0].names
  }

  /** `pd.concat(ts, ignore_index=True)` of tables sharing their columns: all
      their rows, table after table. */
  function Concat(ts: seq<Table>): (u: Table)
    requires ts != [] && SameColumns(ts)
    ensures WellFormed(u) && u.names == ts[0].names && u.height == TotalHeight(ts)
  {
    if |ts| == 1 then ts[0] else Stack(ts[0], Concat(ts[1..]))
  }

  /** Row `i` of the `j`-th table is row `TotalHeight(ts[..j]) + i` of the
      concatenation, in every column. */
  lemma {:induction false} ConcatRows(ts: seq<Table>, j: nat, i: nat, k: nat)
    requires ts != [] && SameColumns(ts)
    requires j < |ts| && i < ts[j].height && k < |ts[0].names|
    ensures TotalHeight(ts[..j]) + i < TotalHeight(ts)
    ensures Concat(ts).cols[k][TotalHeight(ts[..j]) + i] == ts[j].cols[k][i]
  {
    if j == 0 {
      assert ts[..0] == [];
      ConcatFirst(ts, i, k);
    } else {
      var rest := ts[1..];
      SameColumnsTail(ts);
      PrefixHeight(ts, j);
      ConcatRows(rest, j - 1, i, k);
      ConcatRest(ts, TotalHeight(rest[..j - 1]) + i, k);
    }
  }

  /** The first table's rows open the concatenation. */
  lemma ConcatFirst(ts: seq<Table>, i: nat, k: nat)
    requires ts != [] && SameColumns(ts) && i < ts[0].height && k < |ts[0].names|
    ensures i < TotalHeight(ts) && Concat(ts).cols[k][i] == ts[0].cols[k][i]
  {
    if |ts| > 1 {
      SameColumnsTail(ts);
      assert Concat(ts) == Stack(ts[0], Concat(ts[1..]));
    }
  }

  /** After the first table's rows come those of the rest concatenated. */
  lemma ConcatRest(ts: seq<Table>, i: nat, k: nat)
    requires |ts| > 1 && SameColumns(ts) && k < |ts[0].names|
    requires SameColumns(ts[1..]) && i < TotalHeight(ts[1..])
    ensures ts[0].height + i < TotalHeight(ts)
    ensures Concat(ts).cols[k][ts[0].height + i] == Concat(ts[1..]).cols[k][i]
  {
    SameColumnsTail(ts);
    assert Concat(ts) == Stack(ts[0], Concat(ts[1..]));
  }

  /** Well-formed tables with one given list of columns share their columns. */
  lemma SameColumnsOf(ts: seq<Table>, names: seq<string>)
    requires forall t :: t in ts ==> WellFormed(t) && t.names == names
    ensures SameColumns(ts)
  {
    forall j | 0 <= j < |ts| ensures WellFormed(ts[j]) && ts[j].names == ts[0].names {
      assert ts[j] in ts && ts[0] in ts;
    }
  }

  /** The tables after the first still share their columns. */
  lemma SameColumnsTail(ts: seq<Table>)
    requires |ts| > 1 && SameColumns(ts)
    ensures SameColumns(ts[1..]) && ts[1..][0].names == ts[0].names
  {
  }

  /** The rows before the `j`-th table: those of the first, then those
      before it among the rest. */
  lemma PrefixHeight(ts: seq<Table>, j: nat)
    requires 0 < j <= |ts|
    ensures TotalHeight(ts[..j]) == ts[0].height + TotalHeight(ts[1..][..j - 1])
  {
    assert ts[..j][1..] == ts[1..][..j - 1];
  }

  /** The rows before the `j`-th table and its own fit in the concatenation. */
  lemma {:induction false} ConcatRowsFit(ts: seq<Table>, j: nat)
    requires j < |ts|
    ensures TotalHeight(ts[..j]) + ts[j].height <= TotalHeight(ts)
  {
    if j > 0 {
      PrefixHeight(ts, j);
      ConcatRowsFit(ts[1..], j - 1);
    } else {
      assert ts[..0] == [];
    }
  }

  /** The rows of `t` are the rows of `u` from row `o` on, column by column. */
  predicate RowsAt(u: Table, t: Table, o: nat) {
    && WellFormed(u) && WellFormed(t) && u.names == t.names && o + t.height <= u.height
    && forall k, i :: 0 <= k < |u.names| && 0 <= i < t.height ==> u.cols[k][o + i] == t.cols[k][i]
  }

  /** A table among those concatenated has all its rows in the result, one
      after another from the row `o`. */
  lemma ConcatHolds(ts: seq<Table>, t: Table, u: Table) returns (o: nat)
    requires ts != [] && SameColumns(ts) && t in ts && u == Concat(ts)
    ensures RowsAt(u, t, o)
  {
    var j :| 0 <= j < |ts| && ts[j] == t;
    o := TotalHeight(ts[..j]);
    ConcatRowsFit(ts, j);
    assert WellFormed(t) && u.names == t.names;
    forall k, i | 0 <= k < |u.names| && 0 <= i < t.height
      ensures o + i < u.height && u.cols[k][o + i] == t.cols[k][i]
    {
      ConcatRows(ts, j, i, k);
    }
  }

  /** `get_lp_data(from_dt, to_dt)`: the tables of every day of the range for
      both LDCs, stacked; the first request that raises ends it, and no table
      at all is the error `pd.concat` raises. */
  function LpData(first: Day, last: Day, get: string -> Response,
                  num: string -> Option<real>, when: string -> Option<Day>): (r: Result<Table, Error>)
    ensures r.Success? ==> WellFormed(r.value) && r.value.names == ColumnNames(Hours())
  {
    var reqs := Requests(DateRange(first, last));
    match Collect(Outcomes(reqs, get, num, when))
    case Failure(e) => Failure(e)
    case Success(ts) =>
      if ts == [] then Failure(NoObjectsToConcatenate)
      else
        CollectedShape(reqs, get, num, when);
        SameColumnsOf(ts, ColumnNames(Hours()));
        Success(Concat(ts))
  }

  /** How `get_lp_data` fails: with the error of the first request that
      raised, else (no request raised) exactly when every request returned
      `None`, which an empty range gives too. */
  lemma LpDataErrors(first: Day, last: Day, get: string -> Response,
                     num: string -> Option<real>, when: string -> Option<Day>)
    ensures var outs := Outcomes(Requests(DateRange(first, last)), get, num, when);
      var k := FirstFailure(outs);
      && (k < |outs| ==> LpData(first, last, get, num, when) == Failure(outs[k].error))
      && (k == |outs| ==>
            (LpData(first, last, get, num, when) == Failure(NoObjectsToConcatenate) <==>
             forall j :: 0 <= j < |outs| ==> outs[j] == Success(None)))
      && (k == |outs| && LpData(first, last, get, num, when).Failure? ==>
            LpData(first, last, get, num, when) == Failure(NoObjectsToConcatenate))
    ensures Before(last, first) ==> LpData(first, last, get, num, when) == Failure(NoObjectsToConcatenate)
  {
    var outs := Outcomes(Requests(DateRange(first, last)), get, num, when);
    if FirstFailure(outs) == |outs| {
      if forall j :: 0 <= j < |outs| ==> outs[j] == Success(None) {
        CollectNone(outs);
      } else {
        var j :| 0 <= j < |outs| && outs[j] != Success(None);
        assert outs[j].Success?;
        assert Success(Some(outs[j].value.value)) in outs;
      }
    }
  }

  /** Every table a request of the range returns is in `get_lp_data`'s
      result `u` with all its rows, one after another from the row `o`. */
  lemma LpDataHolds(first: Day, last: Day, get: string -> Response,
                    num: string -> Option<real>, when: string -> Option<Day>,
                    d: Day, ldc: string, t: Table, u: Table) returns (o: nat)
    requires !Before(d, first) && !Before(last, d) && ldc in LDCS
    requires LpSeries(d, ldc, true, get, num, when) == Success(Some(t))
    requires LpData(first, last, get, num, when) == Success(u)
    ensures RowsAt(u, t, o)
  {
    var reqs := Requests(DateRange(first, last));
    var ts := LpDataTables(first, last, get, num, when, u);
    RangeRequested(first, last, d, ldc);
    var q :| 0 <= q < |reqs| && reqs[q] == (d, ldc);
    RequestedTable(reqs, get, num, when, q, t);
    o := ConcatHolds(ts, t, u);
  }

  /** A table some request returned is among those gathered. */
  lemma RequestedTable(reqs: seq<(Day, string)>, get: string -> Response,
                       num: string -> Option<real>, when: string -> Option<Day>, q: nat, t: Table)
    requires q < |reqs| && LpSeries(reqs[q].0, reqs[q].1, true, get, num, when) == Success(Some(t))
    requires Collect(Outcomes(reqs, get, num, when)).Success?
    ensures t in Collect(Outcomes(reqs, get, num, when)).value
  {
    assert Outcomes(reqs, get, num, when)[q] == Success(Some(t));
  }

  /** A successful `get_lp_data` is the concatenation of the tables the
      requests of the range returned. */
  lemma LpDataTables(first: Day, last: Day, get: string -> Response,
                     num: string -> Option<real>, when: string -> Option<Day>, u: Table) returns (ts: seq<Table>)
    requires LpData(first, last, get, num, when) == Success(u)
    ensures Collect(Outcomes(Requests(DateRange(first, last)), get, num, when)) == Success(ts)
    ensures ts != [] && SameColumns(ts) && u == Concat(ts) && u.height == TotalHeight(ts)
    ensures var outs := Outcomes(Requests(DateRange(first, last)), get, num, when);
      GatheredAt(outs, ReturnedFrom(outs, 0), ts)
  {
    var reqs := Requests(DateRange(first, last));
    ts := Collect(Outcomes(reqs, get, num, when)).value;
    CollectInOrder(Outcomes(reqs, get, num, when));
    CollectedShape(reqs, get, num, when);
    SameColumnsOf(ts, ColumnNames(Hours()));
  }

  /** `lp_data.date.min()`: the earliest of the days in the date column. */
  function Earliest(days: seq<Day>): (m: Day)
    requires days != []
    ensures m in days
    ensures forall d :: d in days ==> !Before(d, m)
  {
    if |days| == 1 then days[0]
    else
      var m := Earliest(days[1..]);
      assert days == [days[0]] + days[1..];
      if Before(days[0], m) then days[0] else m
  }

  /** The upload file name: the name given when it is not empty, else
      `Conectiv_YYYYMMDD.txt` for the earliest day of the date column
      `days`, which an empty column does not have. */
  function ExportName(days: seq<Day>, fileName: Option<string>): (r: Result<string, Error>)
    ensures fileName.Some? && fileName.value != "" ==> r == Success(fileName.value)
    ensures (fileName.None? || fileName.value == "") ==> (r.Failure? <==> days == [])
    ensures r.Failure? ==> r.error == NoDate
  {
    if fileName.Some? && fileName.value != "" then Success(fileName.value)
    else if days == [] then Failure(NoDate)
    else Success(DefaultName(Earliest(days)))
  }

  /** `'Conectiv_{:%Y%m%d}.txt'.format(m)`. */
  function DefaultName(m: Day): (name: string)
    ensures |name| == 21
  {
    "Conectiv_" + CompactDate(m) + ".txt"
  }

  /** The default name field by field: 21 characters, `Conectiv_`, the
      eight digits of the earliest day (`CompactDate` spells its year, month
      and day), `.txt`. */
  lemma DefaultExportName(days: seq<Day>)
    requires days != []
    ensures ExportName(days, None) == Success(DefaultName(Earliest(days)))
    ensures var name := DefaultName(Earliest(days));
      var m := Earliest(days);
      && name[..9] == "Conectiv_" && name[17..] == ".txt" && name[9..17] == CompactDate(m)
  {
    var m := Earliest(days);
    DefaultNameFields(m);
  }

  /** The fields of one default name. */
  lemma DefaultNameFields(m: Day)
    ensures var name := DefaultName(m);
      && name[..9] == "Conectiv_" && name[17..] == ".txt" && name[9..17] == CompactDate(m)
  {
  }

  /** Two date columns share a default name exactly when they share their earliest day. */
  lemma DefaultExportNameInjective(a: seq<Day>, b: seq<Day>)
    requires a != [] && b != []
    ensures ExportName(a, None) == ExportName(b, None) <==> Earliest(a) == Earliest(b)
  {
    if ExportName(a, None) == ExportName(b, None) {
      DefaultNameFields(Earliest(a));
      DefaultNameFields(Earliest(b));
      CompactDateInjective(Earliest(a), Earliest(b));
    }
  }
}
