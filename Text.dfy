/**
 * Character classes and the string operations the bill parsers are built from:
 * scanning a run of one class, Python's `str.find`, `str.replace` of one
 * character, `str.strip`, the `s[-n:]` suffix and `re.findall` of
 * `DD/MM/YYYY` date tokens.
 */
module Text {

  /** The character classes that occur in the parsers' regular expressions. */
  datatype CharClass =
    | Digit            // \d and [0-9]
    | Space            // \s
    | AmountChar       // [\d.,] and [0-9,\.]
    | DateChar         // [\d./]
    | UpperAlnum       // [A-Z0-9]
    | UpperAlnumSpace  // [A-Z0-9\s]
    | ConsumerChar     // [0-9-]
    | NotStar          // [^*]

  /** `\d`, restricted to the ASCII digits. */
  predicate IsDigit(c: char) {
    '0' <= c <= '9'
  }

  /** `\s` and `str.isspace()`: Python's whitespace characters. */
  predicate IsSpace(c: char) {
    || c == ' '
    || '\t' <= c <= '\r'
    || '\U{1C}' <= c <= '\U{1F}'
    || c == '\U{85}' || c == '\U{A0}' || c == '\U{1680}'
    || '\U{2000}' <= c <= '\U{200A}'
    || c == '\U{2028}' || c == '\U{2029}' || c == '\U{202F}' || c == '\U{205F}' || c == '\U{3000}'
  }

  predicate InClass(c: char, cls: CharClass) {
    match cls
    case Digit => IsDigit(c)
    case Space => IsSpace(c)
    case AmountChar => IsDigit(c) || c == '.' || c == ','
    case DateChar => IsDigit(c) || c == '.' || c == '/'
    case UpperAlnum => 'A' <= c <= 'Z' || IsDigit(c)
    case UpperAlnumSpace => 'A' <= c <= 'Z' || IsDigit(c) || IsSpace(c)
    case ConsumerChar => IsDigit(c) || c == '-'
    case NotStar => c != '*'
  }

  predicate AllIn(s: string, cls: CharClass) {
    forall k :: 0 <= k < |s| ==> InClass(s[k], cls)
  }

  /** `w` occurs in `s` starting at index `i`. */
  predicate HasAt(s: string, i: nat, w: string) {
    i + |w| <= |s| && s[i..i + |w|] == w
  }

  /** Python's `w in s` for strings. */
  predicate Occurs(s: string, w: string) {
    exists i: nat :: i <= |s| && HasAt(s, i, w)
  }

  /** The end of the longest run of `cls` characters starting at `j`: a greedy `[cls]*`. */
  function RunEnd(s: string, j: nat, cls: CharClass): (k: nat)
    requires j <= |s|
    ensures j <= k <= |s|
    ensures AllIn(s[j..k], cls)
    ensures k == |s| || !InClass(s[k], cls)
    decreases |s| - j
  {
    if j < |s| && InClass(s[j], cls) then RunEnd(s, j + 1, cls) else j
  }

  /** A run of `cls` characters that cannot be extended ends exactly where `RunEnd` says. */
  lemma RunEndAt(s: string, j: nat, e: nat, cls: CharClass)
    requires j <= e <= |s|
    requires forall m :: j <= m < e ==> InClass(s[m], cls)
    requires e == |s| || !InClass(s[e], cls)
    ensures RunEnd(s, j, cls) == e
  {
    var k := RunEnd(s, j, cls);
    assert forall m :: j <= m < k ==> InClass(s[m], cls) by {
      forall m | j <= m < k ensures InClass(s[m], cls) {
        assert s[m] == s[j..k][m - j];
      }
    }
  }

  /** A run of `cls` characters from `j` to `e` is covered by the run `RunEnd` finds. */
  lemma RunEndPast(s: string, j: nat, e: nat, cls: CharClass)
    requires j <= e <= |s|
    requires forall m :: j <= m < e ==> InClass(s[m], cls)
    ensures e <= RunEnd(s, j, cls)
  {
  }

  /** A greedy `\s*` starting at `j`. */
  function SkipSpaces(s: string, j: nat): (k: nat)
    requires j <= |s|
    ensures j <= k <= |s|
    ensures forall m :: j <= m < k ==> IsSpace(s[m])
    ensures k == |s| || !IsSpace(s[k])
  {
    RunEnd(s, j, Space)
  }

  /**
   * The smallest index in `[lo, q]` from which everything up to `q` is
   * whitespace: where a lazy group followed by `\s*` stops.
   */
  function BlankStart(s: string, lo: nat, q: nat): (k: nat)
    requires lo <= q <= |s|
    ensures lo <= k <= q
    ensures forall m :: k <= m < q ==> IsSpace(s[m])
    ensures k == lo || !IsSpace(s[k - 1])
    decreases q
  {
    if q > lo && IsSpace(s[q - 1]) then BlankStart(s, lo, q - 1) else q
  }

  /**
   * When everything from `k` up to `q` is blank and `k` is `lo` or follows a
   * non-blank, `BlankStart` stops at `k`.
   */
  lemma {:induction false} BlankStartAt(s: string, lo: nat, k: nat, q: nat)
    requires lo <= k <= q <= |s|
    requires forall m :: k <= m < q ==> IsSpace(s[m])
    requires k == lo || !IsSpace(s[k - 1])
    ensures BlankStart(s, lo, q) == k
    decreases q
  {
    if k < q {
      BlankStartAt(s, lo, k, q - 1);
    }
  }

  /** Python's `s.find(w, from)`: the first index at or after `from` where `w` occurs, or -1. */
  function IndexOf(s: string, w: string, from: nat): (r: int)
    requires from <= |s|
    ensures r == -1 || (from <= r <= |s| && HasAt(s, r, w))
    ensures r == -1 ==> forall i: nat :: from <= i <= |s| ==> !HasAt(s, i, w)
    ensures r != -1 ==> forall i: nat :: from <= i < r ==> !HasAt(s, i, w)
    decreases |s| - from
  {
    if HasAt(s, from, w) then from
    else if from == |s| then -1
    else IndexOf(s, w, from + 1)
  }

  /** Python's `s.find(w)`. */
  function Find(s: string, w: string): (r: int)
    ensures r == -1 ==> forall i: nat :: i <= |s| ==> !HasAt(s, i, w)
    ensures r != -1 ==> 0 <= r <= |s| && HasAt(s, r, w)
    ensures r != -1 ==> forall i: nat :: i < r ==> !HasAt(s, i, w)
  {
    IndexOf(s, w, 0)
  }

  /** `s.find(w)` answers -1 exactly when `w in s` is false. */
  lemma FindMissesOnlyAbsent(s: string, w: string)
    ensures Find(s, w) == -1 <==> !Occurs(s, w)
  {
    if Find(s, w) != -1 {
      assert HasAt(s, Find(s, w), w);
    }
  }

  /** Python's `s.replace(a, b)` for single characters `a` and `b`. */
  function ReplaceChar(s: string, a: char, b: char): (r: string)
    ensures |r| == |s|
    ensures forall k :: 0 <= k < |s| ==> r[k] == (if s[k] == a then b else s[k])
  {
    if s == [] then [] else [if s[0] == a then b else s[0]] + ReplaceChar(s[1..], a, b)
  }

  /** `s` without the characters `unwanted` selects: `s.replace(c, '')` or `re.sub(r'\s+', '', s)`. */
  function Drop(s: string, unwanted: char -> bool): (r: string)
    ensures |r| <= |s|
    ensures forall k :: 0 <= k < |r| ==> !unwanted(r[k])
  {
    if s == [] then []
    else if unwanted(s[0]) then Drop(s[1..], unwanted)
    else [s[0]] + Drop(s[1..], unwanted)
  }

  /**
   * `Drop` works character by character: it keeps a character exactly when it
   * is not unwanted, and dropping from a concatenation is dropping from each
   * part, so every kept character stays in its order.
   */
  lemma {:induction false} DropSplits(a: string, b: string, unwanted: char -> bool)
    ensures Drop(a + b, unwanted) == Drop(a, unwanted) + Drop(b, unwanted)
    ensures |a| == 1 ==> Drop(a, unwanted) == if unwanted(a[0]) then [] else a
  {
    if a == [] {
      assert a + b == b;
    } else {
      assert (a + b)[1..] == a[1..] + b;
      DropSplits(a[1..], b, unwanted);
      if |a| == 1 {
        assert a[1..] == [];
      }
    }
  }

  /** With nothing to drop, `Drop` returns its input unchanged. */
  lemma {:induction false} DropNothing(s: string, unwanted: char -> bool)
    requires forall k :: 0 <= k < |s| ==> !unwanted(s[k])
    ensures Drop(s, unwanted) == s
  {
    if s != [] {
      assert !unwanted(s[0]);
      DropNothing(s[1..], unwanted);
    }
  }

  /** Dropping characters adds none: every character left was in `s`. */
  lemma {:induction false} DropKeepsOnlyItsInput(s: string, unwanted: char -> bool)
    ensures forall k :: 0 <= k < |Drop(s, unwanted)| ==> Drop(s, unwanted)[k] in s
  {
    if s != [] {
      DropKeepsOnlyItsInput(s[1..], unwanted);
      var rest := Drop(s[1..], unwanted);
      forall k | 0 <= k < |rest| ensures rest[k] in s {
        assert rest[k] in s[1..];
      }
    }
  }

  /** Python's `s.strip()`: leading and trailing whitespace removed. */
  function Strip(s: string): (r: string)
    ensures |r| <= |s|
    ensures r == [] || (!IsSpace(r[0]) && !IsSpace(r[|r| - 1]))
    ensures exists i, j :: (0 <= i <= j <= |s| && r == s[i..j]
      && (forall m :: 0 <= m < i ==> IsSpace(s[m])) && (forall m :: j <= m < |s| ==> IsSpace(s[m])))
    ensures s != [] && !IsSpace(s[0]) ==> |r| > 0 && r[0] == s[0] && r == s[..|r|]
    ensures s != [] && !IsSpace(s[0]) ==> forall k :: 0 <= k < |s| && !IsSpace(s[k]) ==> k < |r|
  {
    var i := SkipSpaces(s, 0);
    var j := BlankStart(s, i, |s|);
    assert i < j ==> !IsSpace(s[j - 1]);
    s[i..j]
  }

  /** `s.strip()` is a slice of `s`: every character it keeps was in `s`. */
  lemma StripKeepsOnlyItsInput(s: string)
    ensures forall k :: 0 <= k < |Strip(s)| ==> Strip(s)[k] in s
  {
    var i := SkipSpaces(s, 0);
    var j := BlankStart(s, i, |s|);
    assert Strip(s) == s[i..j];
    forall k | 0 <= k < j - i ensures s[i..j][k] in s {
      assert s[i..j][k] == s[i + k];
    }
  }

  /** Python's `s[-n:]` for `n > 0`: the last `n` characters, or all of `s` when it is shorter. */
  function LastChars(s: string, n: nat): (r: string)
    requires n > 0
    ensures |r| == if |s| < n then |s| else n
    ensures r == s[|s| - |r|..]
  {
    if |s| <= n then s else s[|s| - n..]
  }

  /** `\d{2}/\d{2}/\d{4}` matches at `i`. */
  predicate IsDateAt(s: string, i: nat) {
    && i + 10 <= |s|
    && IsDigit(s[i]) && IsDigit(s[i + 1]) && s[i + 2] == '/'
    && IsDigit(s[i + 3]) && IsDigit(s[i + 4]) && s[i + 5] == '/'
    && IsDigit(s[i + 6]) && IsDigit(s[i + 7]) && IsDigit(s[i + 8]) && IsDigit(s[i + 9])
  }

  /** A date token: two digits, `/`, two digits, `/`, four digits, and nothing else. */
  predicate IsDate(d: string) {
    |d| == 10 && IsDateAt(d, 0)
  }

  /** `w` occurs in `s` at some index at or after `p`. */
  predicate OccursFrom(s: string, p: nat, w: string) {
    exists i: nat :: p <= i <= |s| && HasAt(s, i, w)
  }

  /**
   * `re.findall(r"\d{2}/\d{2}/\d{4}", s[p..])`: the non-overlapping date tokens,
   * left to right; after a token the scan resumes at its end.
   */
  function DatesFrom(s: string, p: nat): (ds: seq<string>)
    requires p <= |s|
    ensures forall k :: 0 <= k < |ds| ==> IsDate(ds[k])
    decreases |s| - p
  {
    if p + 10 > |s| then []
    else if IsDateAt(s, p) then [s[p..p + 10]] + DatesFrom(s, p + 10)
    else DatesFrom(s, p + 1)
  }

  /** Every token `findall` returns from `p` on is a piece of `s` at or after `p`. */
  lemma {:induction false} DatesFromOccur(s: string, p: nat)
    requires p <= |s|
    ensures forall k :: 0 <= k < |DatesFrom(s, p)| ==> OccursFrom(s, p, DatesFrom(s, p)[k])
    decreases |s| - p
  {
    var ds := DatesFrom(s, p);
    if p + 10 > |s| {
    } else if IsDateAt(s, p) {
      DatesFromOccur(s, p + 10);
      var rest := DatesFrom(s, p + 10);
      assert ds == [s[p..p + 10]] + rest;
      forall k | 0 <= k < |ds| ensures OccursFrom(s, p, ds[k]) {
        if k == 0 {
          assert HasAt(s, p, ds[0]);
        } else {
          assert ds[k] == rest[k - 1];
          var i: nat :| p + 10 <= i <= |s| && HasAt(s, i, rest[k - 1]);
          assert HasAt(s, i, ds[k]);
        }
      }
    } else {
      DatesFromOccur(s, p + 1);
      var rest := DatesFrom(s, p + 1);
      assert ds == rest;
      forall k | 0 <= k < |ds| ensures OccursFrom(s, p, ds[k]) {
        var i: nat :| p + 1 <= i <= |s| && HasAt(s, i, rest[k]);
      }
    }
  }

  /**
   * Where `findall` matches from `p` on: left to right, and after a match the
   * scan resumes at its end, so the matches never overlap.
   */
  function DateStarts(s: string, p: nat): (ps: seq<nat>)
    requires p <= |s|
    ensures forall k :: 0 <= k < |ps| ==> p <= ps[k] && IsDateAt(s, ps[k])
    ensures forall k, m :: 0 <= k < m < |ps| ==> ps[k] + 10 <= ps[m]
    decreases |s| - p
  {
    if p + 10 > |s| then []
    else if IsDateAt(s, p) then [p] + DateStarts(s, p + 10)
    else DateStarts(s, p + 1)
  }

  /** Every position from `p` on where a date token starts is a match or lies inside one. */
  lemma {:induction false} DateStartsComplete(s: string, p: nat, q: nat)
    requires p <= q && IsDateAt(s, q)
    ensures exists k :: 0 <= k < |DateStarts(s, p)| && DateStarts(s, p)[k] <= q < DateStarts(s, p)[k] + 10
    decreases |s| - p
  {
    var ps := DateStarts(s, p);
    assert q + 10 <= |s|;
    if IsDateAt(s, p) {
      var rest := DateStarts(s, p + 10);
      assert ps == [p] + rest;
      if q >= p + 10 {
        DateStartsComplete(s, p + 10, q);
        var k :| 0 <= k < |rest| && rest[k] <= q < rest[k] + 10;
        assert ps[k + 1] == rest[k];
      } else {
        assert ps[0] <= q < ps[0] + 10;
      }
    } else {
      assert ps == DateStarts(s, p + 1);
      DateStartsComplete(s, p + 1, q);
    }
  }

  /** The tokens of `DatesFrom` are the ten characters at each match position. */
  lemma {:induction false} DatesFromAt(s: string, p: nat)
    requires p <= |s|
    ensures |DatesFrom(s, p)| == |DateStarts(s, p)|
    ensures forall k :: 0 <= k < |DateStarts(s, p)| ==>
      DateStarts(s, p)[k] + 10 <= |s| && DatesFrom(s, p)[k] == s[DateStarts(s, p)[k]..DateStarts(s, p)[k] + 10]
    decreases |s| - p
  {
    if p + 10 > |s| {
    } else if IsDateAt(s, p) {
      DatesFromAt(s, p + 10);
      DatesFromAtMatch(s, p, p + 10);
    } else {
      DatesFromAt(s, p + 1);
    }
  }

  /** A match at `p` puts its ten characters in front of the tokens found from `q`, its end, on. */
  lemma DatesFromAtMatch(s: string, p: nat, q: nat)
    requires q == p + 10 <= |s| && IsDateAt(s, p)
    requires |DatesFrom(s, q)| == |DateStarts(s, q)|
    requires forall k :: 0 <= k < |DateStarts(s, q)| ==>
      DateStarts(s, q)[k] + 10 <= |s| && DatesFrom(s, q)[k] == s[DateStarts(s, q)[k]..DateStarts(s, q)[k] + 10]
    ensures |DatesFrom(s, p)| == |DateStarts(s, p)|
    ensures forall k :: 0 <= k < |DateStarts(s, p)| ==>
      DateStarts(s, p)[k] + 10 <= |s| && DatesFrom(s, p)[k] == s[DateStarts(s, p)[k]..DateStarts(s, p)[k] + 10]
  {
    PrependMatch(s, p, DatesFrom(s, q), DateStarts(s, q));
  }

  /** Putting one more match in front keeps tokens and positions in step. */
  lemma PrependMatch(s: string, p: nat, ds: seq<string>, ps: seq<nat>)
    requires p + 10 <= |s| && |ds| == |ps|
    requires forall k :: 0 <= k < |ps| ==> ps[k] + 10 <= |s| && ds[k] == s[ps[k]..ps[k] + 10]
    ensures var cur, st := [s[p..p + 10]] + ds, [p] + ps;
      forall k :: 0 <= k < |st| ==> st[k] + 10 <= |s| && cur[k] == s[st[k]..st[k] + 10]
  {
    var cur, st := [s[p..p + 10]] + ds, [p] + ps;
    forall k | 0 <= k < |st| ensures st[k] + 10 <= |s| && cur[k] == s[st[k]..st[k] + 10] {
      if k > 0 {
        assert cur[k] == ds[k - 1] && st[k] == ps[k - 1];
      }
    }
  }

  /** `re.findall(r"\d{2}/\d{2}/\d{4}", s)`. */
  function AllDates(s: string): (ds: seq<string>)
    ensures forall k :: 0 <= k < |ds| ==> IsDate(ds[k])
  {
    DatesFrom(s, 0)
  }

  /**
   * `findall` of date tokens: the k-th token is the text at the k-th match
   * position; the positions increase and are at least 10 apart, so tokens never
   * overlap; and every position where a date token starts is a match or lies
   * inside one, so no token is missed.
   */
  lemma AllDatesAreFindall(s: string)
    ensures var ps := DateStarts(s, 0);
      && |AllDates(s)| == |ps|
      && (forall k :: 0 <= k < |ps| ==> ps[k] + 10 <= |s| && AllDates(s)[k] == s[ps[k]..ps[k] + 10])
      && (forall k, m :: 0 <= k < m < |ps| ==> ps[k] + 10 <= ps[m])
      && (forall q :: IsDateAt(s, q) ==> exists k :: 0 <= k < |ps| && ps[k] <= q < ps[k] + 10)
  {
    DatesFromAt(s, 0);
    forall q | IsDateAt(s, q) ensures exists k :: 0 <= k < |DateStarts(s, 0)| && DateStarts(s, 0)[k] <= q < DateStarts(s, 0)[k] + 10 {
      DateStartsComplete(s, 0, q);
    }
  }

  /** Every date token `findall` returns is found again by `find`: `find` never answers -1 for it. */
  lemma {:induction false} FoundDateIsLocated(s: string, k: nat)
    requires k < |AllDates(s)|
    ensures 0 <= Find(s, AllDates(s)[k]) <= |s| - 10
  {
    DatesFromOccur(s, 0);
    var d := AllDates(s)[k];
    var i: nat :| i <= |s| && HasAt(s, i, d);
    var r := Find(s, d);
    assert HasAt(s, r, d);
  }
  /** Replacing `a` by a different `b` removes every `a`, keeps the length, and a second pass changes nothing. */
  lemma ReplaceCharIdempotent(s: string, a: char, b: char)
    requires a != b
    ensures forall k :: 0 <= k < |ReplaceChar(s, a, b)| ==> ReplaceChar(s, a, b)[k] != a
    ensures |ReplaceChar(s, a, b)| == |s|
    ensures ReplaceChar(ReplaceChar(s, a, b), a, b) == ReplaceChar(s, a, b)
  {
    var once := ReplaceChar(s, a, b);
    var twice := ReplaceChar(once, a, b);
    assert |twice| == |once|;
    forall k | 0 <= k < |once| ensures twice[k] == once[k] { }
  }
}
