/** The Python string operations the loader relies on, over `seq<char>`. */
module Strings {

  // ---------------------------------------------------------------- whitespace

  /** Python's `str.isspace`, the set `str.split()` and `str.strip()` cut on. */
  predicate IsSpace(c: char) {
    var n := c as int;
    (9 <= n <= 13) || (28 <= n <= 32) || n == 0x85 || n == 0xA0 || n == 0x1680
    || (0x2000 <= n <= 0x200A) || n == 0x2028 || n == 0x2029 || n == 0x202F
    || n == 0x205F || n == 0x3000
  }

  /** A piece that `str.split()` can return: non-empty, no whitespace in it. */
  predicate IsToken(t: string) {
    |t| > 0 && forall i :: 0 <= i < |t| ==> !IsSpace(t[i])
  }

  // ---------------------------------------------------------------- replace and split on one character

  /** `s.replace(c, '')`: every `c` removed, the rest kept in order. */
  function RemoveAll(s: string, c: char): (r: string)
    ensures c !in r
    ensures forall x :: x in r <==> x in s && x != c
    ensures c !in s ==> r == s
  {
    if s == [] then []
    else if s[0] == c then RemoveAll(s[1..], c)
    else [s[0]] + RemoveAll(s[1..], c)
  }

  /** Removing a character distributes over concatenation: together with
      `RemoveAllChar` this fixes the result to the input with each `c`
      dropped and every other character kept, in order and as often. */
  lemma {:induction false} RemoveAllAppend(a: string, b: string, c: char)
    ensures RemoveAll(a + b, c) == RemoveAll(a, c) + RemoveAll(b, c)
  {
    if a == [] {
      assert a + b == b;
    } else {
      assert (a + b)[0] == a[0] && (a + b)[1..] == a[1..] + b;
      RemoveAllAppend(a[1..], b, c);
    }
  }

  /** On one character: `c` itself vanishes, any other character stays. */
  lemma RemoveAllChar(x: char, c: char)
    ensures RemoveAll([x], c) == if x == c then [] else [x]
  {
  }

  /** The first position of `c` in `s`. */
  function IndexOfChar(s: string, c: char): (i: nat)
    requires c in s
    ensures i < |s| && s[i] == c && c !in s[..i]
  {
    if s[0] == c then 0 else 1 + IndexOfChar(s[1..], c)
  }

  /** The pieces joined back with `sep` between them (Python `sep.join`). */
  function Join(parts: seq<string>, sep: char): string
    requires |parts| >= 1
  {
    if |parts| == 1 then parts[0] else parts[0] + [sep] + Join(parts[1..], sep)
  }

  /** `s.split(sep)` with an explicit separator: one more piece than there are
      separators, so the empty string gives one empty piece. */
  function Split(s: string, sep: char): (parts: seq<string>)
    ensures |parts| >= 1
    ensures forall k :: 0 <= k < |parts| ==> sep !in parts[k]
    ensures Join(parts, sep) == s
    decreases |s|
  {
    if sep !in s then [s]
    else
      var i := IndexOfChar(s, sep);
      assert s == s[..i] + [sep] + s[i + 1..];
      [s[..i]] + Split(s[i + 1..], sep)
  }

  /** Every character of a piece appears in the joined text. */
  lemma {:induction false} JoinKeeps(parts: seq<string>, sep: char, k: nat, c: char)
    requires |parts| >= 1 && k < |parts| && c in parts[k]
    ensures c in Join(parts, sep)
  {
    if k > 0 {
      JoinKeeps(parts[1..], sep, k - 1, c);
    }
  }

  /** Splitting what was joined gives the pieces back, when none holds the separator. */
  lemma {:induction false} SplitJoin(parts: seq<string>, sep: char)
    requires |parts| >= 1
    requires forall k :: 0 <= k < |parts| ==> sep !in parts[k]
    ensures Split(Join(parts, sep), sep) == parts
  {
    if |parts| > 1 {
      var s := Join(parts, sep);
      var p := parts[0];
      assert s == p + [sep] + Join(parts[1..], sep);
      assert s[|p|] == sep;
      assert s[..|p|] == p;
      var i := IndexOfChar(s, sep);
      assert i == |p|;
      assert s[i + 1..] == Join(parts[1..], sep);
      SplitJoin(parts[1..], sep);
    }
  }

  // ---------------------------------------------------------------- str.split() with no argument

  /** Length of the longest whitespace-free prefix. */
  function WordLen(s: string): (n: nat)
    ensures n <= |s|
    ensures forall i :: 0 <= i < n ==> !IsSpace(s[i])
    ensures n < |s| ==> IsSpace(s[n])
  {
    if s == [] || IsSpace(s[0]) then 0 else 1 + WordLen(s[1..])
  }

  /** `s.split()`: the maximal runs of non-whitespace, in order. */
  function Tokens(s: string): (ts: seq<string>)
    ensures forall k :: 0 <= k < |ts| ==> IsToken(ts[k])
    ensures ts == [] <==> forall i :: 0 <= i < |s| ==> IsSpace(s[i])
    decreases |s|
  {
    if s == [] then []
    else if IsSpace(s[0]) then
      var rest := Tokens(s[1..]);
      assert forall i :: 1 <= i < |s| ==> s[i] == s[1..][i - 1];
      rest
    else
      var n := WordLen(s);
      [s[..n]] + Tokens(s[n..])
  }

  /** A token is one word: splitting it gives it back alone. */
  lemma TokensOfToken(t: string)
    requires IsToken(t)
    ensures Tokens(t) == [t]
  {
    var n := WordLen(t);
    assert n == |t|;
    assert t[..n] == t;
    assert t[n..] == [];
  }

  /** Splitting tokens joined by single blanks gives the tokens back. */
  lemma {:induction false} TokensJoin(ts: seq<string>)
    requires |ts| >= 1
    requires forall k :: 0 <= k < |ts| ==> IsToken(ts[k])
    ensures Tokens(Join(ts, ' ')) == ts
  {
    if |ts| == 1 {
      TokensOfToken(ts[0]);
    } else {
      var t := ts[0];
      var rest := Join(ts[1..], ' ');
      var s := Join(ts, ' ');
      assert s == t + [' '] + rest;
      assert s[|t|] == ' ';
      var n := WordLen(s);
      assert n == |t|;
      assert s[..n] == t;
      assert s[n..] == [' '] + rest;
      assert s[n..][1..] == rest;
      forall k | 0 <= k < |ts[1..]| ensures IsToken(ts[1..][k]) {
        assert ts[1..][k] == ts[k + 1];
      }
      TokensJoin(ts[1..]);
    }
  }

  /** Whitespace only, possibly nothing. */
  predicate AllSpace(w: string) {
    forall i :: 0 <= i < |w| ==> IsSpace(w[i])
  }

  /** `ws[0] + ts[0] + ws[1] + ... + ts[n-1] + ws[n]`: words with the gaps
      around and between them. */
  function Interleave(ws: seq<string>, ts: seq<string>): string
    requires |ws| == |ts| + 1
    decreases |ts|
  {
    if ts == [] then ws[0] else ws[0] + ts[0] + Interleave(ws[1..], ts[1..])
  }

  /** Gaps that `str.split()` cuts on: whitespace only, and every gap
      between two words non-empty; the outer two may be empty. */
  predicate Separators(ws: seq<string>) {
    && (forall i :: 0 <= i < |ws| ==> AllSpace(ws[i]))
    && (forall i :: 0 < i < |ws| - 1 ==> |ws[i]| > 0)
  }

  /** The gaps after the first are gaps too. */
  lemma SeparatorsTail(ws: seq<string>)
    requires |ws| >= 1 && Separators(ws)
    ensures Separators(ws[1..])
  {
    forall i | 0 <= i < |ws| - 1 ensures AllSpace(ws[1..][i]) {
      assert ws[1..][i] == ws[i + 1];
    }
  }

  /** A layout starts with its first gap, so it is empty or starts with
      whitespace unless that gap is empty in front of a word. */
  lemma InterleaveHead(ws: seq<string>, ts: seq<string>)
    requires |ws| == |ts| + 1 && AllSpace(ws[0]) && (ts == [] || |ws[0]| > 0)
    ensures var s := Interleave(ws, ts); s == [] || IsSpace(s[0])
  {
    if ts != [] {
      assert Interleave(ws, ts)[0] == ws[0][0];
    }
  }

  /** Leading whitespace does not change the tokens. */
  lemma {:induction false} TokensSkipSpace(w: string, s: string)
    requires AllSpace(w)
    ensures Tokens(w + s) == Tokens(s)
  {
    if w == [] {
      assert w + s == s;
    } else {
      assert (w + s)[0] == w[0] && (w + s)[1..] == w[1..] + s;
      TokensSkipSpace(w[1..], s);
    }
  }

  /** A word followed by nothing or by whitespace is read whole. */
  lemma {:induction false} WordLenWord(t: string, s: string)
    requires IsToken(t) && (s == [] || IsSpace(s[0]))
    ensures WordLen(t + s) == |t|
    decreases |t|
  {
    assert (t + s)[0] == t[0];
    if |t| > 1 {
      assert (t + s)[1..] == t[1..] + s;
      WordLenWord(t[1..], s);
    } else {
      assert (t + s)[1..] == s;
    }
  }

  /** A word followed by nothing or by whitespace is the first token. */
  lemma TokensAfterWord(t: string, s: string)
    requires IsToken(t) && (s == [] || IsSpace(s[0]))
    ensures Tokens(t + s) == [t] + Tokens(s)
  {
    WordLenWord(t, s);
    assert (t + s)[..|t|] == t && (t + s)[|t|..] == s;
  }

  /** `split()` undoes any spacing: words laid out with whitespace gaps of any
      length and kind, and any leading or trailing whitespace, split back
      into those words. */
  lemma {:induction false} TokensInterleave(ws: seq<string>, ts: seq<string>)
    requires |ws| == |ts| + 1 && Separators(ws)
    requires forall k :: 0 <= k < |ts| ==> IsToken(ts[k])
    ensures Tokens(Interleave(ws, ts)) == ts
    decreases |ts|
  {
    if ts != [] {
      var rest := Interleave(ws[1..], ts[1..]);
      assert Interleave(ws, ts) == ws[0] + (ts[0] + rest);
      TokensSkipSpace(ws[0], ts[0] + rest);
      SeparatorsTail(ws);
      InterleaveHead(ws[1..], ts[1..]);
      TokensAfterWord(ts[0], rest);
      TokensInterleave(ws[1..], ts[1..]);
      assert ts == [ts[0]] + ts[1..];
    }
  }

  /** The whitespace runs of `s` around its tokens, first to last. */
  function SpacesAround(s: string): (ws: seq<string>)
    ensures |ws| == |Tokens(s)| + 1 && Separators(ws)
    ensures |s| > 0 && IsSpace(s[0]) ==> |ws[0]| > 0
    decreases |s|
  {
    if s == [] then [[]]
    else if IsSpace(s[0]) then
      var g := SpacesAround(s[1..]);
      assert Tokens(s) == Tokens(s[1..]);
      [[s[0]] + g[0]] + g[1..]
    else
      var n := WordLen(s);
      var g := SpacesAround(s[n..]);
      assert Tokens(s) == [s[..n]] + Tokens(s[n..]);
      assert |Tokens(s[n..])| > 0 ==> n < |s| && IsSpace(s[n..][0]);
      [[]] + g
  }

  /** Text in front of the first gap is text in front of the layout. */
  lemma InterleaveGap(w: string, ws: seq<string>, ts: seq<string>)
    requires |ws| == |ts| + 1
    ensures Interleave([w + ws[0]] + ws[1..], ts) == w + Interleave(ws, ts)
  {
    var ws' := [w + ws[0]] + ws[1..];
    if ts != [] {
      assert ws'[1..] == ws[1..];
    }
  }

  /** A word behind an empty first gap is the word in front of the layout. */
  lemma InterleaveWord(t: string, ws: seq<string>, ts: seq<string>)
    requires |ws| == |ts| + 1
    ensures Interleave([[]] + ws, [t] + ts) == t + Interleave(ws, ts)
  {
    var ws', ts' := [[]] + ws, [t] + ts;
    assert ws'[0] == [] && ws'[1..] == ws;
    assert ts'[0] == t && ts'[1..] == ts;
    assert Interleave(ws', ts') == ws'[0] + ts'[0] + Interleave(ws'[1..], ts'[1..]);
    assert [] + t == t;
  }

  /** Every string is its tokens laid out with the gaps `SpacesAround`
      finds: with `TokensInterleave`, the tokens of `s` are exactly the
      words of any such layout of `s`. */
  lemma {:induction false} SpacesAroundLayout(s: string)
    ensures Interleave(SpacesAround(s), Tokens(s)) == s
    decreases |s|
  {
    if s != [] {
      if IsSpace(s[0]) {
        var g := SpacesAround(s[1..]);
        SpacesAroundLayout(s[1..]);
        assert SpacesAround(s) == [[s[0]] + g[0]] + g[1..];
        assert Tokens(s) == Tokens(s[1..]);
        InterleaveGap([s[0]], g, Tokens(s[1..]));
        assert s == [s[0]] + s[1..];
      } else {
        var n := WordLen(s);
        var g := SpacesAround(s[n..]);
        SpacesAroundLayout(s[n..]);
        assert SpacesAround(s) == [[]] + g;
        assert Tokens(s) == [s[..n]] + Tokens(s[n..]);
        InterleaveWord(s[..n], g, Tokens(s[n..]));
        assert s == s[..n] + s[n..];
      }
    }
  }

  // ---------------------------------------------------------------- str.strip() and slicing

  /** Number of leading whitespace characters. */
  function LeadingSpaces(s: string): (k: nat)
    ensures k <= |s|
    ensures forall i :: 0 <= i < k ==> IsSpace(s[i])
    ensures k < |s| ==> !IsSpace(s[k])
  {
    if s == [] || !IsSpace(s[0]) then 0 else 1 + LeadingSpaces(s[1..])
  }

  /** Number of trailing whitespace characters. */
  function TrailingSpaces(s: string): (k: nat)
    ensures k <= |s|
    ensures forall i :: |s| - k <= i < |s| ==> IsSpace(s[i])
    ensures k < |s| ==> !IsSpace(s[|s| - 1 - k])
  {
    if s == [] || !IsSpace(s[|s| - 1]) then 0 else 1 + TrailingSpaces(s[..|s| - 1])
  }

  /** `s.strip()`: whitespace removed from both ends. */
  function Strip(s: string): (r: string)
    ensures r == [] || (!IsSpace(r[0]) && !IsSpace(r[|r| - 1]))
    ensures |r| <= |s|
    ensures (s != [] && !IsSpace(s[0]) && !IsSpace(s[|s| - 1])) ==> r == s
  {
    var t := s[LeadingSpaces(s)..];
    t[..|t| - TrailingSpaces(t)]
  }

  /** `s[k:]` in Python: the empty string when `s` is shorter than `k`. */
  function DropPrefix(s: string, k: nat): (r: string)
    ensures |s| <= k ==> r == []
    ensures |s| > k ==> |r| == |s| - k && s == s[..k] + r
  {
    if |s| <= k then [] else s[k..]
  }

  // ---------------------------------------------------------------- decimal digits

  predicate IsDigit(c: char) { '0' <= c <= '9' }

  predicate AllDigits(s: string) { forall i :: 0 <= i < |s| ==> IsDigit(s[i]) }

  function DigitChar(d: nat): (c: char)
    requires d < 10
    ensures IsDigit(c)
  {
    (('0' as int) + d) as char
  }

  /** The number a string of decimal digits spells. */
  function Value(s: string): nat
    requires AllDigits(s)
  {
    if s == [] then 0 else Value(s[..|s| - 1]) * 10 + ((s[|s| - 1] as int) - ('0' as int))
  }

  /** `str(n)`: the canonical decimal spelling of `n`, without leading zeros. */
  function Digits(n: nat): (s: string)
    ensures |s| >= 1 && AllDigits(s)
    ensures Value(s) == n
    ensures |s| > 1 ==> s[0] != '0'
  {
    if n < 10 then [DigitChar(n)]
    else
      var p := Digits(n / 10);
      var s := p + [DigitChar(n % 10)];
      assert s[..|s| - 1] == p;
      s
  }

  /** Lengths of `str(n)` for the magnitudes the loader formats. */
  lemma DigitsLength(n: nat)
    ensures n < 10 ==> |Digits(n)| == 1
    ensures 10 <= n < 100 ==> |Digits(n)| == 2
    ensures 1000 <= n < 10000 ==> |Digits(n)| == 4
  {
    if 10 <= n < 100 {
      assert |Digits(n / 10)| == 1;
    }
    if 1000 <= n < 10000 {
      assert |Digits(n / 1000)| == 1;
      assert |Digits(n / 100)| == 2;
      assert |Digits(n / 10)| == 3;
    }
  }

  function Zeros(k: nat): (z: string)
    ensures |z| == k && forall i :: 0 <= i < k ==> z[i] == '0'
  {
    if k == 0 then [] else ['0'] + Zeros(k - 1)
  }

  /** `s.zfill(w)` for a string of digits: zeros on the left up to width `w`. */
  function ZeroFill(s: string, w: nat): (r: string)
    ensures |r| == if |s| < w then w else |s|
    ensures r[|r| - |s|..] == s
    ensures forall i :: 0 <= i < |r| - |s| ==> r[i] == '0'
  {
    if |s| < w then Zeros(w - |s|) + s else s
  }

  /** A leading zero does not change the number spelled. */
  lemma {:induction false} ValueLeadingZero(s: string)
    requires AllDigits(s)
    ensures AllDigits(['0'] + s) && Value(['0'] + s) == Value(s)
  {
    if s != [] {
      var z := ['0'] + s;
      assert z[..|z| - 1] == ['0'] + s[..|s| - 1];
      ValueLeadingZero(s[..|s| - 1]);
    }
  }

  /** Any number of leading zeros leaves the number spelled unchanged. */
  lemma {:induction false} ValueZeros(k: nat, s: string)
    requires AllDigits(s)
    ensures AllDigits(Zeros(k) + s) && Value(Zeros(k) + s) == Value(s)
  {
    if k > 0 {
      ValueZeros(k - 1, s);
      ValueLeadingZero(Zeros(k - 1) + s);
      assert Zeros(k) + s == ['0'] + (Zeros(k - 1) + s);
    } else {
      assert Zeros(k) + s == s;
    }
  }

  /** Zero-filling a digit string keeps its value: `int(s.zfill(w)) == int(s)`. */
  lemma ValueZeroFill(s: string, w: nat)
    requires AllDigits(s)
    ensures AllDigits(ZeroFill(s, w)) && Value(ZeroFill(s, w)) == Value(s)
  {
    if |s| < w {
      ValueZeros(w - |s|, s);
    }
  }

  /** `str(n).zfill(2)`, as used for months, days and hour names. */
  function Pad2(n: nat): string {
    ZeroFill(Digits(n), 2)
  }

  /** For 1..99, `str(n).zfill(2)` is two digits that spell `n` back. */
  lemma Pad2Spells(n: nat)
    requires n < 100
    ensures |Pad2(n)| == 2 && AllDigits(Pad2(n)) && Value(Pad2(n)) == n
  {
    DigitsLength(n);
    ValueZeroFill(Digits(n), 2);
  }

  /** Two-digit paddings of different numbers below 100 differ. */
  lemma Pad2Injective(a: nat, b: nat)
    requires a < 100 && b < 100 && Pad2(a) == Pad2(b)
    ensures a == b
  {
    Pad2Spells(a);
    Pad2Spells(b);
  }

  // ---------------------------------------------------------------- ASCII case

  function LowerChar(c: char): char {
    if 'A' <= c <= 'Z' then ((c as int) + 32) as char else c
  }

  function UpperChar(c: char): char {
    if 'a' <= c <= 'z' then ((c as int) - 32) as char else c
  }

  /** `s.lower()` on ASCII text. */
  function Lower(s: string): string {
    seq(|s|, i requires 0 <= i < |s| => LowerChar(s[i]))
  }

  /** `s.upper()` on ASCII text. */
  function Upper(s: string): string {
    seq(|s|, i requires 0 <= i < |s| => UpperChar(s[i]))
  }

  predicate IsUpperAscii(s: string) { forall i :: 0 <= i < |s| ==> 'A' <= s[i] <= 'Z' }

  /** Upper-casing the lower-cased form of an upper-case code restores it. */
  lemma UpperLower(s: string)
    requires IsUpperAscii(s)
    ensures Upper(s) == s
    ensures Upper(Lower(s)) == s
    ensures forall i :: 0 <= i < |s| ==> 'a' <= Lower(s)[i] <= 'z'
  {
  }
}
