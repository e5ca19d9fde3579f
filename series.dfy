/** `Delmarva.get_lp_series`: one day's raw text for one LDC turned into a
    table of per-segment hourly readings. The text is split into rows, the
    first row's width picks the schema (a normal day or the fall
    daylight-saving day with its repeated hour 2), every column is
    converted, and the two hour-2 readings are optionally summed. */
module Series {
  import opened Core
  import opened Strings
  import opened Calendar
  import opened Fetch
  import opened Frames

  // ---------------------------------------------------------------- lines and rows

  /** `data.replace('\r', '').split('\n')`: the lines of the text, with no
      carriage return or newline left in any of them. */
  function Lines(data: string): (lines: seq<string>)
    ensures |lines| >= 1
    ensures forall i :: 0 <= i < |lines| ==> '\r' !in lines[i] && '\n' !in lines[i]
    ensures Join(lines, '\n') == RemoveAll(data, '\r')
  {
    var lines := Split(RemoveAll(data, '\r'), '\n');
    forall i | 0 <= i < |lines| ensures '\r' !in lines[i] {
      if '\r' in lines[i] {
        JoinKeeps(lines, '\n', i, '\r');
      }
    }
    lines
  }

  /** Whether line `i` becomes a row: `len(line) > 1 and i > 3`. The four
      header lines never do, whatever they hold. */
  predicate Kept(lines: seq<string>, i: int) {
    3 < i < |lines| && |lines[i]| > 1
  }

  /** The positions of the kept lines from `from` on, in increasing order. */
  function KeptFrom(lines: seq<string>, from: nat): (idx: seq<nat>)
    ensures forall k :: 0 <= k < |idx| ==> from <= idx[k] && Kept(lines, idx[k])
    ensures forall k, l :: 0 <= k < l < |idx| ==> idx[k] < idx[l]
    ensures forall i :: from <= i && Kept(lines, i) ==> i in idx
    decreases |lines| - from
  {
    if from >= |lines| then []
    else if Kept(lines, from) then [from] + KeptFrom(lines, from + 1)
    else KeptFrom(lines, from + 1)
  }

  /** `[line.split() for i, line in enumerate(lines) if len(line) > 1 and i > 3]`. */
  function Rows(lines: seq<string>): seq<seq<string>> {
    var idx := KeptFrom(lines, 0);
    seq(|idx|, k requires 0 <= k < |idx| => Tokens(lines[idx[k]]))
  }

  /** The rows are the tokens of the kept lines, in line order: row `k` comes
      from a kept line, later rows from later lines, and every kept line
      gives a row. */
  lemma RowsOfKeptLines(lines: seq<string>)
    ensures var idx := KeptFrom(lines, 0);
      && |Rows(lines)| == |idx|
      && (forall k :: 0 <= k < |idx| ==> Kept(lines, idx[k]) && Rows(lines)[k] == Tokens(lines[idx[k]]))
      && (forall k, l :: 0 <= k < l < |idx| ==> idx[k] < idx[l])
      && (forall i :: Kept(lines, i) ==> i in idx)
  {
  }

  /** Only the lines themselves from position 4 on decide the kept positions. */
  lemma {:induction false} KeptFromSame(a: seq<string>, b: seq<string>, from: nat)
    requires |a| == |b| && 4 <= from <= |a| && a[from..] == b[from..]
    ensures KeptFrom(a, from) == KeptFrom(b, from)
    decreases |a| - from
  {
    if from < |a| {
      assert a[from] == a[from..][0] && b[from] == b[from..][0];
      assert a[from + 1..] == a[from..][1..] && b[from + 1..] == b[from..][1..];
      KeptFromSame(a, b, from + 1);
    }
  }

  /** No line before position 4 is kept. */
  lemma {:induction false} KeptFromHeader(lines: seq<string>, from: nat)
    requires from <= 4 <= |lines|
    ensures KeptFrom(lines, from) == KeptFrom(lines, 4)
    decreases 4 - from
  {
    if from < 4 {
      KeptFromHeader(lines, from + 1);
    }
  }

  /** The four header lines are dropped even when they hold data: texts that
      agree from line 4 on give the same rows. */
  lemma HeaderIgnored(a: seq<string>, b: seq<string>)
    requires |a| == |b| >= 4 && a[4..] == b[4..]
    ensures Rows(a) == Rows(b)
  {
    KeptFromHeader(a, 0);
    KeptFromHeader(b, 0);
    KeptFromSame(a, b, 4);
  }

  /** A line of two or more blanks is not skipped: it becomes an empty row,
      since only the line's length is tested, not its tokens. */
  lemma BlankLineKept(lines: seq<string>, i: nat)
    requires 3 < i < |lines| && |lines[i]| > 1
    requires forall j :: 0 <= j < |lines[i]| ==> IsSpace(lines[i][j])
    ensures [] in Rows(lines)
  {
    RowsOfKeptLines(lines);
    var idx := KeptFrom(lines, 0);
    assert Kept(lines, i);
    assert i in idx;
    var k :| 0 <= k < |idx| && idx[k] == i;
    assert Rows(lines)[k] == [];
  }

  /** The `n_lines < 2` test: no row at all is an error; exactly one row is
      let through with a warning (`true`); two or more pass silently. */
  function CheckRowCount(n: nat): (r: Result<bool, Error>)
    ensures r.Failure? <==> n == 0
    ensures r.Failure? ==> r.error == NoValidData
    ensures r.Success? ==> (r.value <==> n == 1)
  {
    if n < 2 then (if n == 0 then Failure(NoValidData) else Success(true)) else Success(false)
  }

  // ---------------------------------------------------------------- column names

  /** `'H' + str(h).zfill(2)`. */
  function HourName(h: nat): string {
    "H" + Pad2(h)
  }

  /** `['H' + str(h).zfill(2) for h in range(1, 25)]`. */
  function Hours(): seq<string> {
    seq(24, k requires 0 <= k < 24 => HourName(k + 1))
  }

  /** `hours.insert(2, x)` as a value: `x` placed before position 2. */
  function InsertAt(s: seq<string>, k: nat, x: string): (r: seq<string>)
    requires k <= |s|
    ensures |r| == |s| + 1 && r[k] == x
    ensures r[..k] == s[..k] && r[k + 1..] == s[k..]
  {
    s[..k] + [x] + s[k..]
  }

  /** The fall daylight-saving day's hours: `H02X` straight after `H02`. */
  function DstHours(): seq<string> {
    InsertAt(Hours(), 2, "H02X")
  }

  /** `cols = ['segment', 'date']; cols += hours`. */
  function ColumnNames(hours: seq<string>): seq<string> {
    ["segment", "date"] + hours
  }

  /** `H` followed by the two digits that spell `h`. */
  lemma HourNameSpelled(h: nat)
    requires 1 <= h < 100
    ensures |HourName(h)| == 3 && HourName(h)[0] == 'H' && HourName(h)[1..] == Pad2(h)
    ensures AllDigits(Pad2(h)) && Value(Pad2(h)) == h
  {
    Pad2Spells(h);
  }

  /** The hour names are `H` and two digits spelling 1 to 24. */
  lemma HoursSpelled()
    ensures |Hours()| == 24
    ensures forall k :: 0 <= k < 24 ==>
      |Hours()[k]| == 3 && Hours()[k][0] == 'H' && AllDigits(Hours()[k][1..]) && Value(Hours()[k][1..]) == k + 1
  {
    forall k | 0 <= k < 24
      ensures |Hours()[k]| == 3 && Hours()[k][0] == 'H' && AllDigits(Hours()[k][1..]) && Value(Hours()[k][1..]) == k + 1
    {
      HourNameSpelled(k + 1);
    }
  }

  /** No two hours share a name. */
  lemma HoursDistinct()
    ensures Distinct(Hours())
  {
    HoursSpelled();
    var hs := Hours();
    forall i, j | 0 <= i < j < 24 ensures hs[i] != hs[j] {
      assert Value(hs[i][1..]) != Value(hs[j][1..]);
    }
  }

  /** The first three hour names and the last, written out. */
  lemma HoursNamed()
    ensures Hours()[0] == "H01" && Hours()[1] == "H02" && Hours()[2] == "H03" && Hours()[23] == "H24"
  {
    assert Digits(1) == "1" && Digits(2) == "2" && Digits(3) == "3";
    assert Digits(24) == Digits(2) + [DigitChar(4)];
  }

  /** The normal day's 26 column names are all different. */
  lemma Columns26()
    ensures |ColumnNames(Hours())| == 26 && Distinct(ColumnNames(Hours()))
    ensures "H02X" !in ColumnNames(Hours())
  {
    HoursSpelled();
    HoursDistinct();
    var hs := Hours();
    var c26 := ColumnNames(hs);
    forall i, j | 0 <= i < j < 26 ensures c26[i] != c26[j] {
      if i >= 2 { assert c26[i] == hs[i - 2] && c26[j] == hs[j - 2]; }
      else if j >= 2 { assert |c26[j]| == 3; }
    }
    forall k | 0 <= k < 26 ensures c26[k] != "H02X" {
      if k >= 2 { assert |c26[k]| == 3; }
    }
  }

  /** The daylight-saving day's 25 hour names are all different. */
  lemma DstHoursDistinct()
    ensures |DstHours()| == 25 && Distinct(DstHours())
  {
    HoursSpelled();
    HoursDistinct();
    var hs, ds := Hours(), DstHours();
    forall i, j | 0 <= i < j < 25 ensures ds[i] != ds[j] {
      if j == 2 {
        assert |ds[i]| == 3;
      } else if i == 2 {
        assert |ds[j]| == 3;
      } else {
        var i', j' := if i < 2 then i else i - 1, if j < 2 then j else j - 1;
        assert ds[i] == hs[i'] && ds[j] == hs[j'];
      }
    }
  }

  /** The daylight-saving day's 27 column names: all different, and the
      normal day's names with `H02X` inserted between `H02` and `H03`. */
  lemma Columns27()
    ensures |ColumnNames(DstHours())| == 27 && Distinct(ColumnNames(DstHours()))
    ensures ColumnNames(DstHours())[3] == "H02" && ColumnNames(DstHours())[4] == "H02X"
    ensures ColumnNames(DstHours())[5] == "H03"
    ensures RemoveAt(ColumnNames(DstHours()), 4) == ColumnNames(Hours())
  {
    HoursSpelled();
    HoursNamed();
    DstHoursDistinct();
    var ds := DstHours();
    var c27 := ColumnNames(ds);
    forall i, j | 0 <= i < j < 27 ensures c27[i] != c27[j] {
      if i >= 2 {
        assert c27[i] == ds[i - 2] && c27[j] == ds[j - 2];
      } else if j >= 2 {
        if j == 4 { assert c27[j][0] == 'H'; } else { assert c27[j] == ds[j - 2]; }
      }
    }
    assert RemoveAt(c27, 4) == ColumnNames(Hours());
  }

  /** The schema picked from the first row's width: the hour names of a
      normal day for 26, of the daylight-saving day for 27, and an error
      for any other width. */
  function Schema(width: nat): (r: Result<seq<string>, Error>)
    ensures r.Success? <==> width == 26 || width == 27
    ensures r.Failure? ==> r.error == InvalidStructure(width)
    ensures r.Success? ==> |ColumnNames(r.value)| == width && Distinct(ColumnNames(r.value))
    ensures r.Success? ==> PlanFits(Plan(r.value), ColumnNames(r.value))
    ensures width == 27 ==> "H02" in ColumnNames(r.value) && "H02X" in ColumnNames(r.value)
  {
    Columns26();
    Columns27();
    PlanFitsColumns(Hours());
    PlanFitsColumns(DstHours());
    if width == 27 then Success(DstHours())
    else if width != 26 then Failure(InvalidStructure(width))
    else Success(Hours())
  }

  // ---------------------------------------------------------------- conversions

  /** `s.strip()[8:]`: the segment code after its fixed 8-character prefix. */
  function Segment(raw: string): string {
    DropPrefix(Strip(raw), 8)
  }

  /** On a token that `split()` produced, stripping changes nothing: the
      segment is the token without its first 8 characters, or empty when
      the token is no longer than that. */
  lemma SegmentOfToken(t: string)
    requires IsToken(t)
    ensures |t| <= 8 ==> Segment(t) == []
    ensures |t| > 8 ==> Segment(t) == t[8..] && t == t[..8] + Segment(t)
  {
  }

  /** What one entry of `dtypes` does to its column. */
  datatype Conversion = ToFloat | ToDate | ToSegment

  /** `dtypes`: every hour column to float (from `dict.fromkeys(hours, ...)`),
      then `date`, then `segment`, in that insertion order. */
  function Plan(hours: seq<string>): seq<(string, Conversion)> {
    seq(|hours|, k requires 0 <= k < |hours| => (hours[k], ToFloat)) + [("date", ToDate), ("segment", ToSegment)]
  }

  /** One raw cell converted; `None` when the conversion raises. Number and
      date parsing are the parameters `num` and `when`. */
  function ConvertText(c: Conversion, s: string, num: string -> Option<real>, when: string -> Option<Day>): Option<Cell> {
    match c
    case ToFloat => if num(s).Some? then Some(Number(num(s).value)) else None
    case ToDate => if when(s).Some? then Some(Stamp(when(s).value)) else None
    case ToSegment => Some(Text(Segment(s)))
  }

  /** One cell converted. Each column is converted once, from text; a cell
      that is not text is kept as it is. */
  function ConvertCell(c: Conversion, cell: Cell, num: string -> Option<real>, when: string -> Option<Day>): Option<Cell> {
    match cell
    case Text(s) => ConvertText(c, s, num, when)
    case _ => Some(cell)
  }

  /** `f(df[c])`: the whole column converted, or `None` as soon as one cell fails. */
  function ConvertColumn(c: Conversion, col: seq<Cell>, num: string -> Option<real>, when: string -> Option<Day>)
    : (r: Option<seq<Cell>>)
    ensures r.Some? <==> forall i :: 0 <= i < |col| ==> ConvertCell(c, col[i], num, when).Some?
    ensures r.Some? ==> |r.value| == |col|
    ensures r.Some? ==> forall i :: 0 <= i < |col| ==> ConvertCell(c, col[i], num, when) == Some(r.value[i])
  {
    if col == [] then Some([])
    else
      match ConvertCell(c, col[0], num, when)
      case None => None
      case Some(x) =>
        match ConvertColumn(c, col[1..], num, when)
        case None =>
          ghost var i :| 0 <= i < |col[1..]| && ConvertCell(c, col[1..][i], num, when).None?;
          assert ConvertCell(c, col[i + 1], num, when).None?;
          None
        case Some(rest) => Some([x] + rest)
  }

  /** The error a failing conversion raises. */
  function Failed(c: Conversion, name: string): Error {
    if c == ToFloat then NumericParse(name) else DateParse
  }

  /** The plan's column names are all different and all in `names`. */
  predicate PlanFits(plan: seq<(string, Conversion)>, names: seq<string>) {
    && (forall k :: 0 <= k < |plan| ==> plan[k].0 in names)
    && (forall k, l :: 0 <= k < l < |plan| ==> plan[k].0 != plan[l].0)
  }

  /** `for c, f in dtypes.items(): df[c] = f(df[c])`, on values: the columns
      converted in plan order, stopping at the first one that fails. */
  function ConvertAll(t: Table, plan: seq<(string, Conversion)>, num: string -> Option<real>, when: string -> Option<Day>)
    : (r: Result<Table, Error>)
    requires WellFormed(t) && forall k :: 0 <= k < |plan| ==> plan[k].0 in t.names
    ensures r.Success? ==> WellFormed(r.value) && r.value.names == t.names && r.value.height == t.height
    decreases |plan|
  {
    if plan == [] then Success(t)
    else
      match ConvertColumn(plan[0].1, Column(t, plan[0].0), num, when)
      case None => Failure(Failed(plan[0].1, plan[0].0))
      case Some(col) => ConvertAll(SetColumn(t, plan[0].0, col), plan[1..], num, when)
  }

  /** After the plan's first column is converted, the rest of the plan still
      fits and finds its columns as they were. */
  lemma PlanTail(t: Table, plan: seq<(string, Conversion)>, col: seq<Cell>)
    requires WellFormed(t) && PlanFits(plan, t.names) && plan != [] && |col| == t.height
    ensures PlanFits(plan[1..], t.names)
    ensures forall k :: 0 <= k < |plan| - 1 ==>
      plan[1..][k] == plan[k + 1] && Column(SetColumn(t, plan[0].0, col), plan[k + 1].0) == Column(t, plan[k + 1].0)
  {
  }

  /** The conversion loop succeeds exactly when every planned column converts. */
  lemma {:induction false} ConvertAllSucceeds(t: Table, plan: seq<(string, Conversion)>,
                                              num: string -> Option<real>, when: string -> Option<Day>)
    requires WellFormed(t) && PlanFits(plan, t.names)
    ensures ConvertAll(t, plan, num, when).Success? <==>
      forall k :: 0 <= k < |plan| ==> ConvertColumn(plan[k].1, Column(t, plan[k].0), num, when).Some?
    decreases |plan|
  {
    if plan != [] {
      var c := ConvertColumn(plan[0].1, Column(t, plan[0].0), num, when);
      if c.Some? {
        var t' := SetColumn(t, plan[0].0, c.value);
        PlanTail(t, plan, c.value);
        ConvertAllSucceeds(t', plan[1..], num, when);
      }
    }
  }

  /** After a successful conversion loop, each planned column holds its
      converted cells and every column outside the plan is left alone. */
  lemma {:induction false} ConvertAllColumns(t: Table, plan: seq<(string, Conversion)>,
                                             num: string -> Option<real>, when: string -> Option<Day>)
    requires WellFormed(t) && PlanFits(plan, t.names) && ConvertAll(t, plan, num, when).Success?
    ensures var u := ConvertAll(t, plan, num, when).value;
      && (forall k :: 0 <= k < |plan| ==>
            ConvertColumn(plan[k].1, Column(t, plan[k].0), num, when) == Some(Column(u, plan[k].0)))
      && (forall m :: m in t.names && (forall k :: 0 <= k < |plan| ==> plan[k].0 != m) ==>
            Column(u, m) == Column(t, m))
    decreases |plan|
  {
    if plan != [] {
      var c := ConvertColumn(plan[0].1, Column(t, plan[0].0), num, when);
      var t' := SetColumn(t, plan[0].0, c.value);
      PlanTail(t, plan, c.value);
      ConvertAllColumns(t', plan[1..], num, when);
      var u := ConvertAll(t, plan, num, when).value;
      assert u == ConvertAll(t', plan[1..], num, when).value;
      assert Column(u, plan[0].0) == c.value by {
        assert forall k :: 0 <= k < |plan| - 1 ==> plan[1..][k].0 != plan[0].0;
      }
    }
  }

  /** A failed conversion loop reports the first planned column, in plan
      order, whose conversion fails (position `k`): a float column's name, or
      the date. */
  lemma {:induction false} ConvertAllFailure(t: Table, plan: seq<(string, Conversion)>,
                                             num: string -> Option<real>, when: string -> Option<Day>)
    returns (k: nat)
    requires WellFormed(t) && PlanFits(plan, t.names) && ConvertAll(t, plan, num, when).Failure?
    ensures k < |plan| && ConvertColumn(plan[k].1, Column(t, plan[k].0), num, when).None?
    ensures ConvertAll(t, plan, num, when).error == Failed(plan[k].1, plan[k].0)
    ensures forall j :: 0 <= j < k ==> ConvertColumn(plan[j].1, Column(t, plan[j].0), num, when).Some?
    decreases |plan|
  {
    var c := ConvertColumn(plan[0].1, Column(t, plan[0].0), num, when);
    if c.None? {
      k := 0;
    } else {
      var t' := SetColumn(t, plan[0].0, c.value);
      PlanTail(t, plan, c.value);
      var k' := ConvertAllFailure(t', plan[1..], num, when);
      k := k' + 1;
    }
  }

  /** The plan's names are the column names other than nothing: every hour,
      then `date`, then `segment`, each once. */
  lemma PlanFitsColumns(hours: seq<string>)
    requires Distinct(ColumnNames(hours))
    ensures PlanFits(Plan(hours), ColumnNames(hours))
    ensures forall m :: m in ColumnNames(hours) ==> exists k :: 0 <= k < |Plan(hours)| && Plan(hours)[k].0 == m
  {
    var plan, names := Plan(hours), ColumnNames(hours);
    var n := |hours|;
    // plan position k names column Pos(k) of `names`
    assert forall k :: 0 <= k < n ==> plan[k].0 == names[k + 2];
    assert plan[n].0 == names[1] && plan[n + 1].0 == names[0];
    forall k, l | 0 <= k < l < |plan| ensures plan[k].0 != plan[l].0 {
      var pk := if k < n then k + 2 else if k == n then 1 else 0;
      var pl := if l < n then l + 2 else if l == n then 1 else 0;
      assert plan[k].0 == names[pk] && plan[l].0 == names[pl];
    }
    forall m | m in names ensures exists k :: 0 <= k < |plan| && plan[k].0 == m {
      var j :| 0 <= j < |names| && names[j] == m;
      var k := if j >= 2 then j - 2 else if j == 1 then n else n + 1;
      assert plan[k].0 == m;
    }
  }

  // ---------------------------------------------------------------- the repeated hour 2

  /** `df['H02'] += df['H02X']; del df['H02X']`. */
  function FoldDst(t: Table): Table
    requires WellFormed(t) && "H02" in t.names && "H02X" in t.names
  {
    DropColumn(AddColumn(t, "H02", "H02X"), "H02X")
  }

  /** Folding a daylight-saving table gives the normal day's columns: `H02`
      is the sum of the two hour-2 readings, `H02X` is gone, and every other
      column is unchanged. */
  lemma FoldDstSpec(t: Table)
    requires WellFormed(t) && t.names == ColumnNames(DstHours())
    ensures "H02" in t.names && "H02X" in t.names
    ensures var u := FoldDst(t);
      && WellFormed(u) && u.names == ColumnNames(Hours()) && u.height == t.height
      && "H02X" !in u.names
      && (forall i :: 0 <= i < t.height ==> Column(u, "H02")[i] == Plus(Column(t, "H02")[i], Column(t, "H02X")[i]))
      && (forall m :: m in u.names && m != "H02" ==> Column(u, m) == Column(t, m))
  {
    Columns26();
    Columns27();
    var names := t.names;
    assert names[3] == "H02" && names[4] == "H02X";
    IndexOfDistinct(names, 4);
    var a := AddColumn(t, "H02", "H02X");
    assert IndexOf(a.names, "H02X") == 4;
  }

  // ---------------------------------------------------------------- get_lp_series

  /** The table `get_lp_series` builds from one day's text, or the error it
      raises: no row, a first row neither 26 nor 27 wide, or the errors of
      `TableOf`. */
  function ParseText(data: string, agg: bool, num: string -> Option<real>, when: string -> Option<Day>)
    : Result<Table, Error>
  {
    var rows := Rows(Lines(data));
    if |rows| == 0 then Failure(NoValidData)
    else
      var width := |rows[0]|;
      match Schema(width)
      case Failure(e) => Failure(e)
      case Success(hours) => TableOf(rows, hours, width == 27 && agg, num, when)
  }

  /** What the hour-name schema is required to give `TableOf`. */
  predicate Fits(hours: seq<string>, fold: bool) {
    && Distinct(ColumnNames(hours))
    && PlanFits(Plan(hours), ColumnNames(hours))
    && (fold ==> "H02" in ColumnNames(hours) && "H02X" in ColumnNames(hours))
  }

  /** The frame built from the rows under the chosen hour names, converted
      and, when `fold`, with `H02X` folded into `H02`; or the error raised by
      a row of another width or a cell that does not convert. */
  function TableOf(rows: seq<seq<string>>, hours: seq<string>, fold: bool,
                   num: string -> Option<real>, when: string -> Option<Day>): Result<Table, Error>
    requires Fits(hours, fold)
  {
    var names := ColumnNames(hours);
    if exists i :: 0 <= i < |rows| && |rows[i]| != |names| then Failure(RaggedRows)
    else
      match ConvertAll(FromRows(rows, names), Plan(hours), num, when)
      case Failure(e) => Failure(e)
      case Success(u) => Success(if fold then FoldDst(u) else u)
  }

  /** The conversion applied to the column at position `j`. */
  function KindAt(j: nat): Conversion {
    if j == 0 then ToSegment else if j == 1 then ToDate else ToFloat
  }

  /** The plan entry that converts the column at position `j`. */
  lemma PlanAt(hours: seq<string>, j: nat) returns (p: nat)
    requires j < |ColumnNames(hours)|
    ensures p < |Plan(hours)| && Plan(hours)[p] == (ColumnNames(hours)[j], KindAt(j))
  {
    var n := |hours|;
    p := if j >= 2 then j - 2 else if j == 1 then n else n + 1;
  }

  /** After a successful conversion loop, the column a plan entry names
      holds that column's conversion. */
  lemma ConvertedAt(t: Table, plan: seq<(string, Conversion)>, num: string -> Option<real>,
                    when: string -> Option<Day>, p: nat, j: nat)
    requires WellFormed(t) && PlanFits(plan, t.names) && ConvertAll(t, plan, num, when).Success?
    requires p < |plan| && j < |t.names| && plan[p].0 == t.names[j]
    ensures var u := ConvertAll(t, plan, num, when).value;
      ConvertColumn(plan[p].1, t.cols[j], num, when) == Some(u.cols[j])
  {
    ConvertAllColumns(t, plan, num, when);
    IndexOfDistinct(t.names, j);
  }

  /** The converted table before any folding, one column at a time: each
      cell is the conversion of the raw token at the same place. */
  lemma ConvertedColumn(rows: seq<seq<string>>, hours: seq<string>,
                        num: string -> Option<real>, when: string -> Option<Day>, j: nat)
    requires Fits(hours, false) && j < |ColumnNames(hours)|
    requires forall i :: 0 <= i < |rows| ==> |rows[i]| == |ColumnNames(hours)|
    requires ConvertAll(FromRows(rows, ColumnNames(hours)), Plan(hours), num, when).Success?
    ensures var u := ConvertAll(FromRows(rows, ColumnNames(hours)), Plan(hours), num, when).value;
      && WellFormed(u) && u.names == ColumnNames(hours) && u.height == |rows|
      && forall i :: 0 <= i < |rows| ==> ConvertText(KindAt(j), rows[i][j], num, when) == Some(u.cols[j][i])
  {
    var t := FromRows(rows, ColumnNames(hours));
    var p := PlanAt(hours, j);
    ConvertedAt(t, Plan(hours), num, when, p, j);
    forall i | 0 <= i < |rows|
      ensures ConvertText(KindAt(j), rows[i][j], num, when) == ConvertCell(KindAt(j), t.cols[j][i], num, when)
    {
    }
  }

  /** Every column of the rows converts under its conversion. */
  predicate AllConvert(rows: seq<seq<string>>, width: nat, num: string -> Option<real>, when: string -> Option<Day>) {
    forall j, i :: 0 <= j < width && 0 <= i < |rows| && j < |rows[i]| ==> ConvertText(KindAt(j), rows[i][j], num, when).Some?
  }

  /** The column of the raw rows that column `k` of the table comes from:
      after folding, the hours past `H02` sit one place further left. */
  function RawColumn(fold: bool, k: nat): nat {
    if fold && k > 3 then k + 1 else k
  }

  /** Column 0 of `u` holds each row's segment code. */
  predicate SegmentsFrom(u: Table, rows: seq<seq<string>>) {
    |u.cols| > 0 && |u.cols[0]| == |rows| &&
    forall i :: 0 <= i < |rows| ==> |rows[i]| > 0 && u.cols[0][i] == Text(Segment(rows[i][0]))
  }

  /** Column 1 of `u` holds each row's date token, parsed. */
  predicate DatesFrom(u: Table, rows: seq<seq<string>>, when: string -> Option<Day>) {
    |u.cols| > 1 && |u.cols[1]| == |rows| &&
    forall i :: 0 <= i < |rows| ==> |rows[i]| > 1 && when(rows[i][1]).Some? && u.cols[1][i] == Stamp(when(rows[i][1]).value)
  }

  /** Columns 2 on of `u` hold each row's hour tokens as numbers, each at
      its own place, except that when `fold` is set column 3 (`H02`) holds
      the sum of tokens 3 and 4 and later columns come from one place
      further right. */
  predicate HoursFrom(u: Table, rows: seq<seq<string>>, num: string -> Option<real>, fold: bool) {
    forall k, i :: 2 <= k < |u.cols| && 0 <= i < |rows| ==>
      && |u.cols[k]| == |rows| && RawColumn(fold, k) < |rows[i]|
      && num(rows[i][RawColumn(fold, k)]).Some?
      && if fold && k == 3 then
           4 < |rows[i]| && num(rows[i][4]).Some?
           && u.cols[k][i] == Number(num(rows[i][3]).value + num(rows[i][4]).value)
         else
           u.cols[k][i] == Number(num(rows[i][RawColumn(fold, k)]).value)
  }

  /** The column at position `j` of the raw rows, for the plan entry `p`. */
  lemma PlanPos(hours: seq<string>, p: nat) returns (j: nat)
    requires p < |Plan(hours)|
    ensures j < |ColumnNames(hours)| && Plan(hours)[p] == (ColumnNames(hours)[j], KindAt(j))
  {
    var n := |hours|;
    j := if p < n then p + 2 else if p == n then 1 else 0;
  }

  /** Every token converting is enough for the conversion loop to succeed. */
  lemma ConvertAllWhenAllConvert(rows: seq<seq<string>>, hours: seq<string>,
                                 num: string -> Option<real>, when: string -> Option<Day>)
    requires Fits(hours, false)
    requires forall i :: 0 <= i < |rows| ==> |rows[i]| == |ColumnNames(hours)|
    requires AllConvert(rows, |ColumnNames(hours)|, num, when)
    ensures ConvertAll(FromRows(rows, ColumnNames(hours)), Plan(hours), num, when).Success?
  {
    var names, plan := ColumnNames(hours), Plan(hours);
    var t := FromRows(rows, names);
    forall p | 0 <= p < |plan| ensures ConvertColumn(plan[p].1, Column(t, plan[p].0), num, when).Some? {
      var j := PlanPos(hours, p);
      IndexOfDistinct(names, j);
      assert forall i :: 0 <= i < |rows| ==> t.cols[j][i] == Text(rows[i][j]);
    }
    ConvertAllSucceeds(t, plan, num, when);
  }

  /** A successful conversion loop means every token converted. */
  lemma AllConvertWhenConverted(rows: seq<seq<string>>, hours: seq<string>,
                                num: string -> Option<real>, when: string -> Option<Day>)
    requires Fits(hours, false)
    requires forall i :: 0 <= i < |rows| ==> |rows[i]| == |ColumnNames(hours)|
    requires ConvertAll(FromRows(rows, ColumnNames(hours)), Plan(hours), num, when).Success?
    ensures AllConvert(rows, |ColumnNames(hours)|, num, when)
  {
    forall j | 0 <= j < |ColumnNames(hours)|
      ensures forall i :: 0 <= i < |rows| ==> ConvertText(KindAt(j), rows[i][j], num, when).Some?
    {
      ConvertedColumn(rows, hours, num, when, j);
    }
  }

  /** `TableOf` succeeds exactly when every row has the schema's width and
      every token converts. */
  lemma TableOfSucceeds(rows: seq<seq<string>>, hours: seq<string>, fold: bool,
                        num: string -> Option<real>, when: string -> Option<Day>)
    requires Fits(hours, fold)
    ensures TableOf(rows, hours, fold, num, when).Success? <==>
      (forall i :: 0 <= i < |rows| ==> |rows[i]| == |ColumnNames(hours)|) && AllConvert(rows, |ColumnNames(hours)|, num, when)
  {
    if forall i :: 0 <= i < |rows| ==> |rows[i]| == |ColumnNames(hours)| {
      if ConvertAll(FromRows(rows, ColumnNames(hours)), Plan(hours), num, when).Success? {
        AllConvertWhenConverted(rows, hours, num, when);
      } else if AllConvert(rows, |ColumnNames(hours)|, num, when) {
        ConvertAllWhenAllConvert(rows, hours, num, when);
      }
    }
  }

  /** The cells of the converted table, before any folding. */
  lemma ConvertedCells(rows: seq<seq<string>>, hours: seq<string>,
                       num: string -> Option<real>, when: string -> Option<Day>)
    requires Fits(hours, false)
    requires forall i :: 0 <= i < |rows| ==> |rows[i]| == |ColumnNames(hours)|
    requires ConvertAll(FromRows(rows, ColumnNames(hours)), Plan(hours), num, when).Success?
    ensures var u := ConvertAll(FromRows(rows, ColumnNames(hours)), Plan(hours), num, when).value;
      SegmentsFrom(u, rows) && DatesFrom(u, rows, when) && HoursFrom(u, rows, num, false)
  {
    ConvertedSegments(rows, hours, num, when);
    ConvertedDates(rows, hours, num, when);
    ConvertedHours(rows, hours, num, when);
  }

  /** The segment column of the converted table. */
  lemma ConvertedSegments(rows: seq<seq<string>>, hours: seq<string>,
                          num: string -> Option<real>, when: string -> Option<Day>)
    requires Fits(hours, false)
    requires forall i :: 0 <= i < |rows| ==> |rows[i]| == |ColumnNames(hours)|
    requires ConvertAll(FromRows(rows, ColumnNames(hours)), Plan(hours), num, when).Success?
    ensures SegmentsFrom(ConvertAll(FromRows(rows, ColumnNames(hours)), Plan(hours), num, when).value, rows)
  {
    ConvertedColumn(rows, hours, num, when, 0);
  }

  /** The date column of the converted table. */
  lemma ConvertedDates(rows: seq<seq<string>>, hours: seq<string>,
                       num: string -> Option<real>, when: string -> Option<Day>)
    requires Fits(hours, false)
    requires forall i :: 0 <= i < |rows| ==> |rows[i]| == |ColumnNames(hours)|
    requires ConvertAll(FromRows(rows, ColumnNames(hours)), Plan(hours), num, when).Success?
    ensures DatesFrom(ConvertAll(FromRows(rows, ColumnNames(hours)), Plan(hours), num, when).value, rows, when)
  {
    ConvertedColumn(rows, hours, num, when, 1);
  }

  /** The hour columns of the converted table, before any folding. */
  lemma ConvertedHours(rows: seq<seq<string>>, hours: seq<string>,
                       num: string -> Option<real>, when: string -> Option<Day>)
    requires Fits(hours, false)
    requires forall i :: 0 <= i < |rows| ==> |rows[i]| == |ColumnNames(hours)|
    requires ConvertAll(FromRows(rows, ColumnNames(hours)), Plan(hours), num, when).Success?
    ensures HoursFrom(ConvertAll(FromRows(rows, ColumnNames(hours)), Plan(hours), num, when).value, rows, num, false)
  {
    var u := ConvertAll(FromRows(rows, ColumnNames(hours)), Plan(hours), num, when).value;
    forall j | 2 <= j < |ColumnNames(hours)|
      ensures forall i :: 0 <= i < |rows| ==> ConvertText(ToFloat, rows[i][j], num, when) == Some(u.cols[j][i])
    {
      ConvertedColumn(rows, hours, num, when, j);
    }
    ConvertedColumn(rows, hours, num, when, 0);
  }

  /** Where each column of a folded daylight-saving table comes from:
      column 3 (`H02`) is the cell-wise sum of columns 3 and 4 (`H02`,
      `H02X`), and every other column `k` is column `RawColumn(true, k)`. */
  lemma FoldedColumn(t: Table, k: nat)
    requires WellFormed(t) && t.names == ColumnNames(DstHours())
    requires k < 26
    ensures "H02" in t.names && "H02X" in t.names
    ensures |FoldDst(t).cols| == 26
    ensures k != 3 ==> FoldDst(t).cols[k] == t.cols[RawColumn(true, k)]
    ensures k == 3 ==> forall i :: 0 <= i < t.height ==> FoldDst(t).cols[3][i] == Plus(t.cols[3][i], t.cols[4][i])
  {
    FoldDstSpec(t);
    Columns26();
    Columns27();
    var u := FoldDst(t);
    var k' := RawColumn(true, k);
    IndexOfDistinct(u.names, k);
    IndexOfDistinct(t.names, k');
    assert t.names[k'] == u.names[k];
    if k == 3 {
      IndexOfDistinct(t.names, 4);
    }
  }

  /** One hour column of a folded daylight-saving table, row by row. */
  lemma FoldedHour(t: Table, rows: seq<seq<string>>, num: string -> Option<real>, k: nat)
    requires WellFormed(t) && t.names == ColumnNames(DstHours()) && t.height == |rows|
    requires "H02" in t.names && "H02X" in t.names
    requires HoursFrom(t, rows, num, false)
    requires 2 <= k < 26
    ensures forall i :: 0 <= i < |rows| ==>
      && |FoldDst(t).cols| == 26 && |FoldDst(t).cols[k]| == |rows| && RawColumn(true, k) < |rows[i]|
      && num(rows[i][RawColumn(true, k)]).Some?
      && if k == 3 then
           4 < |rows[i]| && num(rows[i][4]).Some?
           && FoldDst(t).cols[k][i] == Number(num(rows[i][3]).value + num(rows[i][4]).value)
         else
           FoldDst(t).cols[k][i] == Number(num(rows[i][RawColumn(true, k)]).value)
  {
    FoldedColumn(t, k);
    var k' := RawColumn(true, k);
    assert RawColumn(false, k') == k';
    assert RawColumn(false, 4) == 4;
  }

  /** Folding a converted daylight-saving table: `H02` becomes the sum of
      the two hour-2 tokens and the later hours move one place left. */
  lemma FoldedCells(t: Table, rows: seq<seq<string>>, num: string -> Option<real>)
    requires WellFormed(t) && t.names == ColumnNames(DstHours()) && t.height == |rows|
    requires "H02" in t.names && "H02X" in t.names
    requires HoursFrom(t, rows, num, false)
    ensures HoursFrom(FoldDst(t), rows, num, true)
  {
    FoldedColumn(t, 0);
    forall k | 2 <= k < 26 {
      FoldedHour(t, rows, num, k);
    }
  }

  /** The cells of a table `TableOf` built: segments, dates and hours as
      `SegmentsFrom`, `DatesFrom` and `HoursFrom` describe them, with the
      normal day's 26 columns when folded. */
  lemma TableOfCells(rows: seq<seq<string>>, hours: seq<string>, fold: bool,
                     num: string -> Option<real>, when: string -> Option<Day>)
    requires Fits(hours, fold) && TableOf(rows, hours, fold, num, when).Success?
    requires fold ==> hours == DstHours()
    ensures var u := TableOf(rows, hours, fold, num, when).value;
      && WellFormed(u) && u.height == |rows|
      && u.names == (if fold then ColumnNames(Hours()) else ColumnNames(hours))
      && (forall i :: 0 <= i < |rows| ==> |rows[i]| == |ColumnNames(hours)|)
      && SegmentsFrom(u, rows) && DatesFrom(u, rows, when) && HoursFrom(u, rows, num, fold)
  {
    var t := ConvertAll(FromRows(rows, ColumnNames(hours)), Plan(hours), num, when).value;
    ConvertedCells(rows, hours, num, when);
    if fold {
      FoldedColumn(t, 0);
      FoldedCells(t, rows, num);
      FoldedColumn(t, 1);
      FoldDstSpec(t);
    }
  }

  /** A parsed day's shape and cells: at least one row, the first 26 or 27
      wide and every other as wide; one table row per text row; the normal
      day's 26 columns, or the 27 of the daylight-saving day when not
      folded; segments, dates and hours taken from the row tokens, with
      `H02` holding the sum of the two hour-2 tokens when folded. */
  lemma ParsedCells(data: string, agg: bool, num: string -> Option<real>, when: string -> Option<Day>)
    requires ParseText(data, agg, num, when).Success?
    ensures var rows := Rows(Lines(data));
      var u := ParseText(data, agg, num, when).value;
      var fold := |rows[0]| == 27 && agg;
      && rows != [] && (|rows[0]| == 26 || |rows[0]| == 27)
      && (forall i :: 0 <= i < |rows| ==> |rows[i]| == |rows[0]|)
      && WellFormed(u) && u.height == |rows|
      && u.names == (if |rows[0]| == 27 && !agg then ColumnNames(DstHours()) else ColumnNames(Hours()))
      && SegmentsFrom(u, rows) && DatesFrom(u, rows, when) && HoursFrom(u, rows, num, fold)
  {
    var rows := Rows(Lines(data));
    var fold := |rows[0]| == 27 && agg;
    TableOfCells(rows, Schema(|rows[0]|).value, fold, num, when);
  }

  /** When a parsed day succeeds: some row survives, the first is 26 or 27
      wide, every row is as wide, and every token converts (hours to
      numbers, the date to a day). */
  lemma ParseTextSucceeds(data: string, agg: bool, num: string -> Option<real>, when: string -> Option<Day>)
    ensures var rows := Rows(Lines(data));
      ParseText(data, agg, num, when).Success? <==>
        && rows != [] && (|rows[0]| == 26 || |rows[0]| == 27)
        && (forall i :: 0 <= i < |rows| ==> |rows[i]| == |rows[0]|)
        && AllConvert(rows, |rows[0]|, num, when)
  {
    var rows := Rows(Lines(data));
    if rows != [] && (|rows[0]| == 26 || |rows[0]| == 27) {
      TableOfSucceeds(rows, Schema(|rows[0]|).value, |rows[0]| == 27 && agg, num, when);
    }
  }

  /** The structural errors: no row at all, a first row neither 26 nor 27
      wide (only the first row's width is looked at), and a later row of
      another width. */
  lemma ParseTextErrors(data: string, agg: bool, num: string -> Option<real>, when: string -> Option<Day>)
    ensures var rows := Rows(Lines(data));
      var r := ParseText(data, agg, num, when);
      && (r == Failure(NoValidData) <==> rows == [])
      && (rows != [] ==> (r.Failure? && r.error.InvalidStructure? <==> |rows[0]| != 26 && |rows[0]| != 27))
      && (rows != [] && r.Failure? && r.error.InvalidStructure? ==> r.error.width == |rows[0]|)
      && (r == Failure(RaggedRows) <==>
            rows != [] && (|rows[0]| == 26 || |rows[0]| == 27) && exists i :: 0 <= i < |rows| && |rows[i]| != |rows[0]|)
  {
    var rows := Rows(Lines(data));
    if rows != [] && (|rows[0]| == 26 || |rows[0]| == 27) {
      TableOfErrors(rows, Schema(|rows[0]|).value, |rows[0]| == 27 && agg, num, when);
    }
  }

  /** `TableOf` raises `RaggedRows` exactly for a row of another width, and
      otherwise only conversion errors. */
  lemma TableOfErrors(rows: seq<seq<string>>, hours: seq<string>, fold: bool,
                      num: string -> Option<real>, when: string -> Option<Day>)
    requires Fits(hours, fold)
    ensures var r := TableOf(rows, hours, fold, num, when);
      && (r == Failure(RaggedRows) <==> exists i :: 0 <= i < |rows| && |rows[i]| != |ColumnNames(hours)|)
      && (r.Failure? && r.error != RaggedRows ==> r.error.NumericParse? || r.error == DateParse)
  {
    var names, plan := ColumnNames(hours), Plan(hours);
    if forall i :: 0 <= i < |rows| ==> |rows[i]| == |names| {
      var t := FromRows(rows, names);
      if ConvertAll(t, plan, num, when).Failure? {
        var k := ConvertAllFailure(t, plan, num, when);
      }
    }
  }

  /** What `get_lp_series` prints before going on or giving up. */
  datatype Warning =
    | NoData(ldc: string, day: Day)   // neither revision of the file is on the server
    | PartialData(day: Day)           // exactly one row survived

  /** What `get_lp_series` returns once the fetch has answered `raw`: a
      table, `None` when the vendor has no file for the day, or the error
      it raises. */
  function SeriesOf(raw: Result<string, FetchError>, agg: bool,
                    num: string -> Option<real>, when: string -> Option<Day>): Result<Option<Table>, Error>
  {
    match raw
    case Failure(Rejected(l)) => Failure(InvalidLdc(l))
    case Failure(NotFound(_)) => Success(None)
    case Success(data) =>
      match ParseText(data, agg, num, when)
      case Failure(e) => Failure(e)
      case Success(t) => Success(Some(t))
  }

  /** The warning `get_lp_series` prints once the fetch has answered `raw`, if any. */
  function WarningOf(dt: Day, ldc: string, raw: Result<string, FetchError>): Option<Warning> {
    match raw
    case Failure(Rejected(_)) => None
    case Failure(NotFound(_)) => Some(NoData(ldc, dt))
    case Success(data) => if CheckRowCount(|Rows(Lines(data))|) == Success(true) then Some(PartialData(dt)) else None
  }

  /** What `get_lp_series(dt, ldc, agg)` returns. */
  function LpSeries(dt: Day, ldc: string, agg: bool, get: string -> Response,
                  num: string -> Option<real>, when: string -> Option<Day>): Result<Option<Table>, Error>
  {
    SeriesOf(Retrieve(dt, ldc, get), agg, num, when)
  }

  /** The warning `get_lp_series(dt, ldc, agg)` prints, if any. */
  function SeriesWarning(dt: Day, ldc: string, get: string -> Response): Option<Warning> {
    WarningOf(dt, ldc, Retrieve(dt, ldc, get))
  }

  /** `get_lp_series`: fetch the day's text; an unknown LDC raises, a day the
      vendor has no file for gives `None` and a warning; otherwise parse. */
  method GetLpSeries(dt: Day, ldc: string, agg: bool, get: string -> Response,
                     num: string -> Option<real>, when: string -> Option<Day>)
    returns (r: Result<Option<Frame>, Error>, warning: Option<Warning>)
    ensures warning == SeriesWarning(dt, ldc, get)
    ensures r.Failure? ==> LpSeries(dt, ldc, agg, get, num, when) == Failure(r.error)
    ensures r.Success? && r.value.None? ==> LpSeries(dt, ldc, agg, get, num, when) == Success(None)
    ensures r.Success? && r.value.Some? ==>
      var df := r.value.value;
      fresh(df) && df.Valid() && LpSeries(dt, ldc, agg, get, num, when) == Success(Some(df.Snapshot()))
  {
    var raw, _ := RetrieveRawData(dt, ldc, get);
    if raw.Failure? {
      if raw.error.Rejected? {
        return Failure(InvalidLdc(ldc)), None;
      }
      return Success(None), Some(NoData(ldc, dt));
    }
    var parsed, partial := ParseSeries(raw.value, agg, num, when);
    warning := if partial then Some(PartialData(dt)) else None;
    r := if parsed.Failure? then Failure(parsed.error) else Success(Some(parsed.value));
  }

  /** Lines 96-140 of `get_lp_series`: split the text into rows, pick the
      schema, build the frame, convert its columns in place one by one and,
      on the daylight-saving day with `agg`, fold `H02X` into `H02`.
      `partial` tells whether the one-row warning was printed. */
  method ParseSeries(data: string, agg: bool, num: string -> Option<real>, when: string -> Option<Day>)
    returns (r: Result<Frame, Error>, partial: bool)
    ensures partial <==> CheckRowCount(|Rows(Lines(data))|) == Success(true)
    ensures r.Failure? ==> ParseText(data, agg, num, when) == Failure(r.error)
    ensures r.Success? ==>
      fresh(r.value) && r.value.Valid() && ParseText(data, agg, num, when) == Success(r.value.Snapshot())
  {
    var rows := Rows(Lines(data));
    partial := false;
    if |rows| < 2 {
      if |rows| == 0 {
        return Failure(NoValidData), false;
      }
      partial := true;
    }
    var width := |rows[0]|;
    var dst := width == 27;
    var hours := Hours();
    if dst {
      hours := InsertAt(hours, 2, "H02X");
    } else if width != 26 {
      return Failure(InvalidStructure(width)), partial;
    }
    assert Schema(width) == Success(hours);
    r := BuildFrame(rows, hours, dst && agg, num, when);
  }

  /** Lines 123-138 of `get_lp_series`: the frame built from the rows, its
      columns converted in place and, when `fold`, `H02X` folded into `H02`. */
  method BuildFrame(rows: seq<seq<string>>, hours: seq<string>, fold: bool,
                    num: string -> Option<real>, when: string -> Option<Day>)
    returns (r: Result<Frame, Error>)
    requires Fits(hours, fold)
    ensures r.Failure? ==> TableOf(rows, hours, fold, num, when) == Failure(r.error)
    ensures r.Success? ==>
      fresh(r.value) && r.value.Valid() && TableOf(rows, hours, fold, num, when) == Success(r.value.Snapshot())
  {
    var names := ColumnNames(hours);
    if exists i :: 0 <= i < |rows| && |rows[i]| != |names| {
      return Failure(RaggedRows);
    }
    var df := new Frame(rows, names);
    var failure := ConvertColumns(df, Plan(hours), num, when);
    if failure.Some? {
      return Failure(failure.value);
    }
    if fold {
      FoldHour2(df);
    }
    r := Success(df);
  }

  /** `for c, f in dtypes.items(): df[c] = f(df[c])`: each planned column of
      the frame replaced in place by its conversion, stopping at the first
      that fails. */
  method ConvertColumns(df: Frame, plan: seq<(string, Conversion)>,
                        num: string -> Option<real>, when: string -> Option<Day>)
    returns (failure: Option<Error>)
    requires df.Valid() && PlanFits(plan, df.names)
    modifies df
    ensures df.Valid() && df.names == old(df.names) && df.height == old(df.height)
    ensures var r := ConvertAll(old(df.Snapshot()), plan, num, when);
      && (r.Failure? ==> failure == Some(r.error))
      && (r.Success? ==> failure == None && df.Snapshot() == r.value)
  {
    ghost var t0 := df.Snapshot();
    var k := 0;
    while k < |plan|
      invariant 0 <= k <= |plan|
      invariant df.Valid() && df.names == t0.names && df.height == t0.height
      invariant ConvertAll(df.Snapshot(), plan[k..], num, when) == ConvertAll(t0, plan, num, when)
    {
      var (c, conversion) := plan[k];
      var col := df.Get(c);
      var converted := ConvertColumn(conversion, col, num, when);
      if converted.None? {
        return Some(Failed(conversion, c));
      }
      assert plan[k..][1..] == plan[k + 1..];
      df.Assign(c, converted.value);
      k := k + 1;
    }
    failure := None;
  }

  /** `df['H02'] += df['H02X']` then `del df['H02X']`, in place. */
  method FoldHour2(df: Frame)
    requires df.Valid() && "H02" in df.names && "H02X" in df.names
    modifies df
    ensures df.Valid() && df.Snapshot() == FoldDst(old(df.Snapshot()))
  {
    df.AddInto("H02", "H02X");
    df.Delete("H02X");
  }
}
