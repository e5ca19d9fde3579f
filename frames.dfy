/** The small part of a pandas DataFrame the series parser uses: named
    columns of equal height, built from row lists, with columns replaced,
    summed into one another and deleted in place. */
module Frames {
  import opened Calendar

  /** One value of a table: raw text before conversion, a number after
      `astype('float')`, a day after `pd.to_datetime`. */
  datatype Cell = Text(text: string) | Number(value: real) | Stamp(day: Day)

  /** The contents of a DataFrame: column names, and for each column its
      cells top to bottom; `height` is the number of rows. */
  datatype Table = Table(names: seq<string>, cols: seq<seq<Cell>>, height: nat)

  predicate Distinct(names: seq<string>) {
    forall i, j :: 0 <= i < j < |names| ==> names[i] != names[j]
  }

  /** One column per name, names unique, every column `height` cells long. */
  predicate WellFormed(t: Table) {
    && |t.names| == |t.cols|
    && Distinct(t.names)
    && forall k :: 0 <= k < |t.cols| ==> |t.cols[k]| == t.height
  }

  /** Position of the first occurrence of `n`. */
  function IndexOf(names: seq<string>, n: string): (k: nat)
    requires n in names
    ensures k < |names| && names[k] == n
    ensures forall j :: 0 <= j < k ==> names[j] != n
  {
    if names[0] == n then 0 else 1 + IndexOf(names[1..], n)
  }

  /** Among unique names, each name sits at exactly one position. */
  lemma IndexOfDistinct(names: seq<string>, k: nat)
    requires Distinct(names) && k < |names|
    ensures IndexOf(names, names[k]) == k
  {
  }

  /** `df[n]`: the cells of the column named `n`. */
  function Column(t: Table, n: string): (col: seq<Cell>)
    requires WellFormed(t) && n in t.names
    ensures |col| == t.height
  {
    t.cols[IndexOf(t.names, n)]
  }

  /** `pd.DataFrame(rows, columns=names)`: column `k` holds the `k`-th token
      of every row, rows kept in order. */
  function FromRows(rows: seq<seq<string>>, names: seq<string>): (t: Table)
    requires Distinct(names)
    requires forall i :: 0 <= i < |rows| ==> |rows[i]| == |names|
    ensures WellFormed(t) && t.names == names && t.height == |rows|
    ensures forall k, i :: 0 <= k < |names| && 0 <= i < |rows| ==> t.cols[k][i] == Text(rows[i][k])
  {
    Table(names, seq(|names|, k requires 0 <= k < |names| =>
                       seq(|rows|, i requires 0 <= i < |rows| => Text(rows[i][k]))), |rows|)
  }

  /** `df[n] = col` for a column that exists: that column replaced, every
      other column and the column order kept. */
  function SetColumn(t: Table, n: string, col: seq<Cell>): (u: Table)
    requires WellFormed(t) && n in t.names && |col| == t.height
    ensures WellFormed(u) && u.names == t.names && u.height == t.height
    ensures Column(u, n) == col
    ensures forall m :: m in t.names && m != n ==> Column(u, m) == Column(t, m)
  {
    var u := Table(t.names, t.cols[IndexOf(t.names, n) := col], t.height);
    forall m | m in t.names && m != n ensures Column(u, m) == Column(t, m) {
      IndexOfDistinct(t.names, IndexOf(t.names, m));
    }
    u
  }

  /** Cell-wise `+` of two numeric cells. Only numeric columns are ever
      added; any other pair leaves the left cell as it was. */
  function Plus(a: Cell, b: Cell): Cell {
    if a.Number? && b.Number? then Number(a.value + b.value) else a
  }

  /** `df[target] += df[source]`: row by row, the target cell gets the source
      cell added to it; every other column is kept. */
  function AddColumn(t: Table, target: string, source: string): (u: Table)
    requires WellFormed(t) && target in t.names && source in t.names
    ensures WellFormed(u) && u.names == t.names && u.height == t.height
    ensures forall i :: 0 <= i < t.height ==>
      Column(u, target)[i] == Plus(Column(t, target)[i], Column(t, source)[i])
    ensures forall m :: m in t.names && m != target ==> Column(u, m) == Column(t, m)
  {
    var a, b := Column(t, target), Column(t, source);
    SetColumn(t, target, seq(t.height, i requires 0 <= i < t.height => Plus(a[i], b[i])))
  }

  /** The sequence without its element at position `k`. */
  function RemoveAt<T>(s: seq<T>, k: nat): (r: seq<T>)
    requires k < |s|
    ensures |r| == |s| - 1
    ensures forall i :: 0 <= i < k ==> r[i] == s[i]
    ensures forall i :: k <= i < |r| ==> r[i] == s[i + 1]
  {
    s[..k] + s[k + 1..]
  }

  /** `del df[n]`: the column and its name gone, the others kept in order. */
  function DropColumn(t: Table, n: string): (u: Table)
    requires WellFormed(t) && n in t.names
    ensures WellFormed(u) && u.height == t.height
    ensures u.names == RemoveAt(t.names, IndexOf(t.names, n))
    ensures n !in u.names
    ensures forall m :: m in t.names && m != n ==> m in u.names && Column(u, m) == Column(t, m)
  {
    var k := IndexOf(t.names, n);
    RemoveAtDistinct(t.names, k);
    forall m | m in t.names && m != n
      ensures m in RemoveAt(t.names, k) && Column(Without(t, k), m) == Column(t, m)
    {
      WithoutKeeps(t, k, m);
    }
    Without(t, k)
  }

  /** The table without its column at position `k`. */
  function Without(t: Table, k: nat): (u: Table)
    requires WellFormed(t) && k < |t.names|
    ensures WellFormed(u) && u.names == RemoveAt(t.names, k) && u.height == t.height
  {
    RemoveAtDistinct(t.names, k);
    Table(RemoveAt(t.names, k), RemoveAt(t.cols, k), t.height)
  }

  /** Dropping the column at `k` keeps every other column under its name. */
  lemma WithoutKeeps(t: Table, k: nat, m: string)
    requires WellFormed(t) && k < |t.names| && m in t.names && m != t.names[k]
    ensures m in Without(t, k).names && Column(Without(t, k), m) == Column(t, m)
  {
    var u := Without(t, k);
    var j := IndexOf(t.names, m);
    IndexOfDistinct(t.names, j);
    var j' := if j < k then j else j - 1;
    assert u.names[j'] == m;
    IndexOfDistinct(u.names, j');
  }

  /** Removing one of several unique names keeps the rest unique and drops that name. */
  lemma RemoveAtDistinct(names: seq<string>, k: nat)
    requires Distinct(names) && k < |names|
    ensures Distinct(RemoveAt(names, k)) && names[k] !in RemoveAt(names, k)
  {
    var r := RemoveAt(names, k);
    forall i | 0 <= i < |r| ensures r[i] != names[k] {
      if i >= k { assert r[i] == names[i + 1]; }
    }
  }

  /** A DataFrame that the parser changes in place. */
  class Frame {
    var names: seq<string>
    var cols: seq<seq<Cell>>
    var height: nat

    /** The frame's current contents. */
    function Snapshot(): Table
      reads this
    {
      Table(names, cols, height)
    }

    ghost predicate Valid()
      reads this
    {
      WellFormed(Snapshot())
    }

    /** `pd.DataFrame(parsed, columns=cols)`. */
    constructor (rows: seq<seq<string>>, columns: seq<string>)
      requires Distinct(columns)
      requires forall i :: 0 <= i < |rows| ==> |rows[i]| == |columns|
      ensures Valid() && Snapshot() == FromRows(rows, columns)
    {
      var t := FromRows(rows, columns);
      names, cols, height := t.names, t.cols, t.height;
    }

    /** `df[n]`. */
    method Get(n: string) returns (col: seq<Cell>)
      requires Valid() && n in names
      ensures col == Column(Snapshot(), n)
    {
      col := cols[IndexOf(names, n)];
    }

    /** `df[n] = col`. */
    method Assign(n: string, col: seq<Cell>)
      requires Valid() && n in names && |col| == height
      modifies this
      ensures Valid() && Snapshot() == SetColumn(old(Snapshot()), n, col)
    {
      cols := cols[IndexOf(names, n) := col];
    }

    /** `df[target] += df[source]`, one row at a time. */
    method AddInto(target: string, source: string)
      requires Valid() && target in names && source in names
      modifies this
      ensures Valid() && Snapshot() == AddColumn(old(Snapshot()), target, source)
    {
      var i := IndexOf(names, target);
      var a, b := cols[i], cols[IndexOf(names, source)];
      var sum := a;
      var r := 0;
      while r < height
        invariant 0 <= r <= height && |sum| == height
        invariant forall q :: 0 <= q < r ==> sum[q] == Plus(a[q], b[q])
        invariant forall q :: r <= q < height ==> sum[q] == a[q]
      {
        sum := sum[r := Plus(sum[r], b[r])];
        r := r + 1;
      }
      ghost var t := Snapshot();
      assert sum == seq(t.height, q requires 0 <= q < t.height => Plus(Column(t, target)[q], Column(t, source)[q]));
      cols := cols[i := sum];
      assert Snapshot() == SetColumn(t, target, sum);
    }

    /** `del df[n]`. */
    method Delete(n: string)
      requires Valid() && n in names
      modifies this
      ensures Valid() && Snapshot() == DropColumn(old(Snapshot()), n)
    {
      var k := IndexOf(names, n);
      names, cols := RemoveAt(names, k), RemoveAt(cols, k);
    }
  }
}
