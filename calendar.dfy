/** Proleptic Gregorian calendar days, their order, day-by-day ranges and
    the compact `%Y%m%d` spelling. */
module Calendar {
  import opened Strings

  datatype Date = Date(year: int, month: int, day: int)

  predicate IsLeap(y: int) {
    y % 4 == 0 && (y % 100 != 0 || y % 400 == 0)
  }

  function DaysInMonth(y: int, m: int): int
    requires 1 <= m <= 12
  {
    if m == 2 then (if IsLeap(y) then 29 else 28)
    else if m == 4 || m == 6 || m == 9 || m == 11 then 30
    else 31
  }

  /** A real calendar day with a four-digit year. */
  predicate ValidDate(d: Date) {
    1000 <= d.year <= 9999 && 1 <= d.month <= 12 && 1 <= d.day <= DaysInMonth(d.year, d.month)
  }

  type Day = d: Date | ValidDate(d) witness Date(2017, 1, 1)

  /** Calendar order: dates compare year, then month, then day. */
  predicate Before(a: Date, b: Date) {
    a.year < b.year || (a.year == b.year && (a.month < b.month || (a.month == b.month && a.day < b.day)))
  }

  /** The following calendar day: later than `d`, with no day in between. */
  function NextDay(d: Day): (n: Date)
    ensures Before(d, n)
    ensures forall e: Day :: !(Before(d, e) && Before(e, n))
    ensures n.year <= 9999 ==> ValidDate(n)
  {
    if d.day < DaysInMonth(d.year, d.month) then Date(d.year, d.month, d.day + 1)
    else if d.month < 12 then Date(d.year, d.month + 1, 1)
    else Date(d.year + 1, 1, 1)
  }

  /** Calendar order is total on dates. */
  lemma BeforeTotal(a: Date, b: Date)
    ensures Before(a, b) || a == b || Before(b, a)
  {
  }

  /** `pd.date_range(start, end, freq='D')`: the days from `first` to `last`,
      both included, each followed by the next; empty when `last` is before `first`. */
  function DateRange(first: Day, last: Day): (r: seq<Day>)
    ensures r == [] <==> Before(last, first)
    ensures r != [] ==> r[0] == first && r[|r| - 1] == last
    ensures forall i :: 0 <= i < |r| - 1 ==> r[i + 1] == NextDay(r[i])
    decreases last.year - first.year, 12 - first.month, 31 - first.day
  {
    if Before(last, first) then []
    else if first == last then [first]
    else
      BeforeTotal(first, last);
      var n: Day := NextDay(first);
      [first] + DateRange(n, last)
  }

  /** The range holds exactly the days between its bounds, both included. */
  lemma {:induction false} DateRangeMembers(first: Day, last: Day, e: Day)
    ensures e in DateRange(first, last) <==> !Before(e, first) && !Before(last, e)
    decreases last.year - first.year, 12 - first.month, 31 - first.day
  {
    if !Before(last, first) && first != last {
      BeforeTotal(first, last);
      BeforeTotal(first, e);
      var n: Day := NextDay(first);
      DateRangeMembers(n, last, e);
      assert DateRange(first, last) == [first] + DateRange(n, last);
    }
  }

  /** The range is in strictly increasing calendar order. */
  lemma {:induction false} DateRangeIncreasing(first: Day, last: Day, i: nat, j: nat)
    requires i < j < |DateRange(first, last)|
    ensures Before(DateRange(first, last)[i], DateRange(first, last)[j])
    decreases last.year - first.year, 12 - first.month, 31 - first.day
  {
    BeforeTotal(first, last);
    var n: Day := NextDay(first);
    var r := DateRange(first, last);
    assert r == [first] + DateRange(n, last);
    if i == 0 {
      DateRangeMembers(n, last, r[j]);
      assert r[j] in DateRange(n, last);
    } else {
      DateRangeIncreasing(n, last, i - 1, j - 1);
    }
  }

  /** `d.strftime('%Y%m%d')`: eight digits that spell the year, month and day back. */
  function CompactDate(d: Day): (s: string)
    ensures |s| == 8 && AllDigits(s)
    ensures Value(s[..4]) == d.year && Value(s[4..6]) == d.month && Value(s[6..]) == d.day
  {
    DigitsLength(d.year);
    Pad2Spells(d.month);
    Pad2Spells(d.day);
    var s := Digits(d.year) + Pad2(d.month) + Pad2(d.day);
    assert s[..4] == Digits(d.year) && s[4..6] == Pad2(d.month) && s[6..] == Pad2(d.day);
    s
  }

  /** Different days have different compact spellings. */
  lemma CompactDateInjective(a: Day, b: Day)
    requires CompactDate(a) == CompactDate(b)
    ensures a == b
  {
  }
}
