/**
 * The regular expressions of the bill parsers, one constructor each, with a
 * hand-written matcher that decides whether the expression matches starting
 * at a given index and what its capture group holds (backtracking worked out
 * per expression), and `re.search`'s leftmost-match rule over them.
 *
 * Every marker a `Pattern` carries starts with a non-whitespace character, and
 * the classes of `LabelRun` and `LabelFixed` hold no whitespace, so a greedy
 * `\s*` in front of them never needs to give characters back.
 */
module Patterns {
  import opened Wrappers
  import opened Text

  datatype Pattern =
    | LabelRun(marker: string, gap: bool, cls: CharClass)   // marker\s*([cls]+), or marker([cls]+) when !gap
    | LabelFixed(marker: string, width: nat, cls: CharClass) // marker\s*([cls]{width})
    | LabelDate(marker: string)                              // marker\s*(\d{2}/\d{2}/\d{4})
    | LabelCode(marker: string)                              // marker\s*([A-Z0-9\s]+)
    | LabelEuro(marker: string, star: bool)                  // marker\s*([\d.,]+)\s*€, with \*\s* after the marker when star
    | LabelNextLine(marker: string)                          // marker\s*\n\s*([\d./]+)
    | RfDigits                                              // (RF\d{20,})
    | EuroAmount                                            // ([\d.,]+)\s*€
    | StarRf                                                // \*\s*(RF[^*]+?)\s*\*
    | DateBefore(marker: string)                             // (\d{2}/\d{2}/\d{4})\s*marker
    | ReceiptAmount                                         // ΑΡ\s*\.ΠΑΡΑΣΤΑΤΙΚΟΥ\s*:\s*(\d+(?:[.,]\d{1,2})?)

  const ReceiptMark := "ΑΡ"
  const ReceiptLabel := ".ΠΑΡΑΣΤΑΤΙΚΟΥ"

  /** The literal every match of `p` starts with. */
  function Lead(p: Pattern): string {
    match p
    case LabelRun(marker, _, _) => marker
    case LabelFixed(marker, _, _) => marker
    case LabelDate(marker) => marker
    case LabelCode(marker) => marker
    case LabelEuro(marker, _) => marker
    case LabelNextLine(marker) => marker
    case RfDigits => "RF"
    case EuroAmount => ""
    case StarRf => "*"
    case DateBefore(_) => ""
    case ReceiptAmount => ReceiptMark
  }

  /** A literal the text must contain for `p` to match anywhere: its anchor marker. */
  function Anchor(p: Pattern): string {
    match p
    case DateBefore(marker) => marker
    case _ => Lead(p)
  }

  /** `\d+(?:[.,]\d{1,2})?`: digits, then optionally `.` or `,` and one or two digits. */
  predicate IsReceiptAmount(g: string) {
    exists d :: 0 < d <= |g| && IntegerThenFraction(g, d)
  }

  predicate IntegerThenFraction(g: string, d: nat)
    requires d <= |g|
  {
    && AllIn(g[..d], Digit)
    && (d == |g| || (d + 2 <= |g| <= d + 3 && (g[d] == '.' || g[d] == ',') && AllIn(g[d + 1..], Digit)))
  }

  /** What the capture group of `p` can hold. */
  predicate Shape(p: Pattern, g: string) {
    match p
    case LabelRun(_, _, cls) => |g| > 0 && AllIn(g, cls)
    case LabelFixed(_, width, cls) => |g| == width && AllIn(g, cls)
    case LabelDate(_) => IsDate(g)
    case LabelCode(_) => |g| > 0 && AllIn(g, UpperAlnumSpace)
    case LabelEuro(_, _) => |g| > 0 && AllIn(g, AmountChar)
    case LabelNextLine(_) => |g| > 0 && AllIn(g, DateChar)
    case RfDigits => |g| >= 22 && g[..2] == "RF" && AllIn(g[2..], Digit)
    case EuroAmount => |g| > 0 && AllIn(g, AmountChar)
    case StarRf => |g| >= 3 && g[..2] == "RF" && AllIn(g[2..], NotStar)
    case DateBefore(_) => IsDate(g)
    case ReceiptAmount => IsReceiptAmount(g)
  }

  /** A greedy `[cls]+` at `j` captures `g`: a non-empty run of `cls` there that cannot be extended. */
  predicate MaximalRun(s: string, j: nat, g: string, cls: CharClass) {
    && |g| > 0 && AllIn(g, cls) && HasAt(s, j, g)
    && (j + |g| == |s| || !InClass(s[j + |g|], cls))
  }

  /** Every maximal run at `j` is the one `RunEnd` finds. */
  lemma MaximalRunsEnd(s: string, j: nat, cls: CharClass)
    ensures forall g {:trigger MaximalRun(s, j, g, cls)} :: MaximalRun(s, j, g, cls) ==> RunEnd(s, j, cls) == j + |g| && s[j..j + |g|] == g
  {
    forall g {:trigger MaximalRun(s, j, g, cls)} | MaximalRun(s, j, g, cls) ensures RunEnd(s, j, cls) == j + |g| && s[j..j + |g|] == g {
      forall m | j <= m < j + |g| ensures InClass(s[m], cls) {
        assert s[m] == s[j..j + |g|][m - j] == g[m - j];
      }
      RunEndAt(s, j, j + |g|, cls);
    }
  }

  /** The run `RunEnd` finds from `j` is the only maximal run there. */
  lemma RunGroup(s: string, j: nat, cls: CharClass)
    requires j <= |s|
    ensures j < RunEnd(s, j, cls) ==> MaximalRun(s, j, s[j..RunEnd(s, j, cls)], cls)
    ensures forall g {:trigger MaximalRun(s, j, g, cls)} :: MaximalRun(s, j, g, cls) ==> j < RunEnd(s, j, cls) && g == s[j..RunEnd(s, j, cls)]
  {
    var k := RunEnd(s, j, cls);
    if j < k {
      var g := s[j..k];
      assert |g| == k - j;
      assert HasAt(s, j, g);
    }
    MaximalRunsEnd(s, j, cls);
  }

  /** Where the group starts after `marker`: past the blanks when `gap`, right after the marker otherwise. */
  function GroupStart(s: string, i: nat, marker: string, gap: bool): (j: nat)
    requires HasAt(s, i, marker)
    ensures i + |marker| <= j <= |s|
  {
    if gap then SkipSpaces(s, i + |marker|) else i + |marker|
  }

  /** `g` sits at `j`, and after blanks a euro sign follows it: `(g)\s*€`. */
  predicate EuroFollows(s: string, j: nat, g: string) {
    && HasAt(s, j, g)
    && var m := SkipSpaces(s, j + |g|); m < |s| && s[m] == '€'
  }

  /**
   * Where the amount may start after `marker` at `i`: past the blanks, and
   * when `star`, past a `*` and the blanks after it; none when `star` and no
   * `*` comes after the blanks.
   */
  function AmountStart(s: string, i: nat, marker: string, star: bool): (a: Option<nat>)
    requires HasAt(s, i, marker)
    ensures a.Some? ==> i + |marker| <= a.value <= |s|
    ensures !star ==> a == Some(SkipSpaces(s, i + |marker|))
  {
    var j := SkipSpaces(s, i + |marker|);
    if !star then Some(j)
    else if j < |s| && s[j] == '*' then Some(SkipSpaces(s, j + 1))
    else None
  }

  /** From `i`: `marker`, blanks, then `*` and blanks when `star`, then `g` and its euro sign. */
  predicate EuroLabelled(s: string, i: nat, marker: string, star: bool, g: string) {
    && HasAt(s, i, marker)
    && var a := AmountStart(s, i, marker, star);
      a.Some? && EuroFollows(s, a.value, g)
  }

  /** From `i`: `*`, blanks, `g`, blanks, and a closing `*`. */
  predicate StarDelimited(s: string, i: nat, g: string) {
    && i < |s| && s[i] == '*'
    && var j := SkipSpaces(s, i + 1);
      && HasAt(s, j, g)
      && var q := SkipSpaces(s, j + |g|); q < |s| && s[q] == '*'
  }

  /** From `i`: a `*`-delimited span holding `RF` and at least one more character, none of them a `*`. */
  predicate RfBetweenStars(s: string, i: nat, g: string) {
    StarDelimited(s, i, g) && |g| >= 3 && g[..2] == "RF" && AllIn(g[2..], NotStar)
  }

  /**
   * The span a lazy `RF[^*]+?` takes between the stars: an RF span with three
   * characters or one whose last character is not a blank.
   */
  predicate LazyRfSpan(s: string, i: nat, g: string) {
    RfBetweenStars(s, i, g) && (|g| == 3 || !IsSpace(g[|g| - 1]))
  }

  /** `RF` followed by at least 20 digits starts at `i`. */
  predicate RfAt(s: string, i: nat) {
    HasAt(s, i, "RF") && i + 22 <= |s| && AllIn(s[i + 2..i + 22], Digit)
  }

  /**
   * Where the receipt amount may start after `ΑΡ` at `i`: past the blanks,
   * `.ΠΑΡΑΣΤΑΤΙΚΟΥ`, the blanks, `:` and the blanks after it; none when the
   * mark, the label or the colon is missing.
   */
  function ReceiptValueStart(s: string, i: nat): (c: Option<nat>)
    requires i <= |s|
    ensures c.Some? ==> c.value <= |s| && HasAt(s, i, ReceiptMark)
    ensures c.Some? ==> HasAt(s, SkipSpaces(s, i + |ReceiptMark|), ReceiptLabel)
  {
    if !HasAt(s, i, ReceiptMark) then None
    else
      var a := SkipSpaces(s, i + |ReceiptMark|);
      if !HasAt(s, a, ReceiptLabel) then None
      else
        var b := SkipSpaces(s, a + |ReceiptLabel|);
        if b < |s| && s[b] == ':' then Some(SkipSpaces(s, b + 1)) else None
  }

  /** From `i`: `ΑΡ`, blanks, `.ΠΑΡΑΣΤΑΤΙΚΟΥ`, blanks, `:`, blanks, then `g`. */
  predicate ReceiptLabelled(s: string, i: nat, g: string) {
    && i <= |s|
    && var c := ReceiptValueStart(s, i);
      c.Some? && HasAt(s, c.value, g)
  }

  /**
   * What `\s*([A-Z0-9\s]+)` from `a` captures: the run of letters, digits and
   * blanks from the first non-blank when that is a letter or digit; otherwise
   * `\s*` gives back its last blank and the group is that blank alone.
   */
  predicate CodeGroup(s: string, a: nat, g: string)
    requires a <= |s|
  {
    var j := SkipSpaces(s, a);
    if j < |s| && InClass(s[j], UpperAlnum) then MaximalRun(s, j, g, UpperAlnumSpace)
    else a < j && g == s[j - 1..j]
  }

  /** A blank ends every run of digits, amounts or dates, and is not a `*`. */
  lemma BlankEndsRuns(c: char)
    requires IsSpace(c)
    ensures !InClass(c, Digit) && !InClass(c, AmountChar) && !InClass(c, DateChar) && c != '*' && c != '€'
  {
  }

  /** `marker\s*([cls]+)`, or `marker([cls]+)` without the gap; `cls` never holds a blank. */
  function LabelRunAt(s: string, i: nat, marker: string, gap: bool, cls: CharClass): (r: Option<string>)
    requires i <= |s|
    ensures r.Some? ==> HasAt(s, i, marker) && MaximalRun(s, GroupStart(s, i, marker, gap), r.value, cls)
    ensures forall g {:trigger MaximalRun(s, GroupStart(s, i, marker, gap), g, cls)} :: HasAt(s, i, marker) && MaximalRun(s, GroupStart(s, i, marker, gap), g, cls) ==> r == Some(g)
  {
    if !HasAt(s, i, marker) then None
    else
      var j := GroupStart(s, i, marker, gap);
      var k := RunEnd(s, j, cls);
      RunGroup(s, j, cls);
      if j < k then Some(s[j..k]) else None
  }

  /** `marker\s*([cls]{width})`; `cls` never holds a blank. */
  function LabelFixedAt(s: string, i: nat, marker: string, width: nat, cls: CharClass): (r: Option<string>)
    requires i <= |s|
    ensures r.Some? ==> HasAt(s, i, marker) && |r.value| == width && AllIn(r.value, cls)
    ensures r.Some? ==> HasAt(s, SkipSpaces(s, i + |marker|), r.value)
    ensures forall g {:trigger HasAt(s, SkipSpaces(s, i + |marker|), g)} :: HasAt(s, i, marker) && |g| == width && AllIn(g, cls) && HasAt(s, SkipSpaces(s, i + |marker|), g) ==> r == Some(g)
  {
    if !HasAt(s, i, marker) then None
    else
      var j := SkipSpaces(s, i + |marker|);
      if j + width <= |s| && AllIn(s[j..j + width], cls) then Some(s[j..j + width]) else None
  }

  /** `marker\s*(\d{2}/\d{2}/\d{4})`. */
  function LabelDateAt(s: string, i: nat, marker: string): (r: Option<string>)
    requires i <= |s|
    ensures r.Some? ==> HasAt(s, i, marker) && IsDate(r.value) && HasAt(s, SkipSpaces(s, i + |marker|), r.value)
    ensures forall g {:trigger HasAt(s, SkipSpaces(s, i + |marker|), g)} :: HasAt(s, i, marker) && IsDate(g) && HasAt(s, SkipSpaces(s, i + |marker|), g) ==> r == Some(g)
  {
    if !HasAt(s, i, marker) then None
    else
      var j := SkipSpaces(s, i + |marker|);
      DateAtSlice(s, j);
      if IsDateAt(s, j) then Some(s[j..j + 10]) else None
  }

  /** A date token found in the text is the ten characters where it sits, and every ten characters shaped like a date are one. */
  lemma DateAtSlice(s: string, j: nat)
    ensures forall g {:trigger HasAt(s, j, g)} :: IsDate(g) && HasAt(s, j, g) ==> IsDateAt(s, j) && g == s[j..j + 10]
    ensures IsDateAt(s, j) ==> IsDate(s[j..j + 10])
  {
    forall g {:trigger HasAt(s, j, g)} | IsDate(g) && HasAt(s, j, g) ensures IsDateAt(s, j) && g == s[j..j + 10] {
      var t := s[j..j + 10];
      assert forall m :: j <= m < j + 10 ==> s[m] == t[m - j];
    }
  }

  /**
   * `marker\s*([A-Z0-9\s]+)`. When the blanks after the marker are followed by a
   * character outside `[A-Z0-9]`, `\s*` gives its last blank back and the group
   * captures that single blank.
   */
  function LabelCodeAt(s: string, i: nat, marker: string): (r: Option<string>)
    requires i <= |s|
    ensures r.Some? ==> HasAt(s, i, marker) && |r.value| > 0 && AllIn(r.value, UpperAlnumSpace)
    ensures r.Some? ==> HasAt(s, i, marker) && CodeGroup(s, i + |marker|, r.value)
    ensures forall g {:trigger CodeGroup(s, i + |marker|, g)} :: HasAt(s, i, marker) && CodeGroup(s, i + |marker|, g) ==> r == Some(g)
  {
    if !HasAt(s, i, marker) then None
    else
      var a := i + |marker|;
      var j := SkipSpaces(s, a);
      RunGroup(s, j, UpperAlnumSpace);
      if j < |s| && InClass(s[j], UpperAlnum) then Some(s[j..RunEnd(s, j, UpperAlnumSpace)])
      else if a < j then Some(s[j - 1..j])
      else None
  }

  /** `([\d.,]+)\s*€` with the group starting exactly at `j`. */
  function EuroAt(s: string, j: nat): (r: Option<string>)
    requires j <= |s|
    ensures r.Some? ==> |r.value| > 0 && AllIn(r.value, AmountChar) && EuroFollows(s, j, r.value)
    ensures forall g {:trigger EuroFollows(s, j, g)} :: |g| > 0 && AllIn(g, AmountChar) && EuroFollows(s, j, g) ==> r == Some(g)
  {
    var k := RunEnd(s, j, AmountChar);
    var m := SkipSpaces(s, k);
    EuroGroupsEnd(s, j);
    EuroRunFollowed(s, j);
    if j < k && m < |s| && s[m] == '€' then Some(s[j..k]) else None
  }

  /** A group followed by blanks and `€` is the maximal run of amount characters at `j`. */
  lemma EuroGroupsEnd(s: string, j: nat)
    requires j <= |s|
    ensures forall g {:trigger EuroFollows(s, j, g)} :: |g| > 0 && AllIn(g, AmountChar) && EuroFollows(s, j, g) ==>
      j < RunEnd(s, j, AmountChar) && g == s[j..RunEnd(s, j, AmountChar)]
  {
    RunGroup(s, j, AmountChar);
    forall g {:trigger EuroFollows(s, j, g)} | |g| > 0 && AllIn(g, AmountChar) && EuroFollows(s, j, g)
      ensures j < RunEnd(s, j, AmountChar) && g == s[j..RunEnd(s, j, AmountChar)]
    {
      EuroGroupIsRun(s, j, g);
    }
  }

  /** The maximal run of amount characters at `j` is a euro group exactly when a euro sign follows it. */
  lemma EuroRunFollowed(s: string, j: nat)
    requires j <= |s|
    ensures var k := RunEnd(s, j, AmountChar);
      j < k ==> (EuroFollows(s, j, s[j..k]) <==> SkipSpaces(s, k) < |s| && s[SkipSpaces(s, k)] == '€')
  {
    var k := RunEnd(s, j, AmountChar);
    assert |s[j..k]| == k - j;
  }

  /** A euro sign cannot continue a run of amount characters, so a group it follows is maximal. */
  lemma EuroGroupIsRun(s: string, j: nat, g: string)
    requires |g| > 0 && AllIn(g, AmountChar) && EuroFollows(s, j, g)
    ensures MaximalRun(s, j, g, AmountChar)
  {
    var e := j + |g|;
    if e < |s| && IsSpace(s[e]) {
      BlankEndsRuns(s[e]);
    }
  }

  /** `marker\s*([\d.,]+)\s*€`, or `marker\s*\*\s*([\d.,]+)\s*€` when `star`. */
  function LabelEuroAt(s: string, i: nat, marker: string, star: bool): (r: Option<string>)
    requires i <= |s|
    ensures r.Some? ==> |r.value| > 0 && AllIn(r.value, AmountChar) && EuroLabelled(s, i, marker, star, r.value)
    ensures forall g {:trigger EuroLabelled(s, i, marker, star, g)} ::
      |g| > 0 && AllIn(g, AmountChar) && EuroLabelled(s, i, marker, star, g) ==> r == Some(g)
  {
    if !HasAt(s, i, marker) then None
    else
      var a := AmountStart(s, i, marker, star);
      if a.None? then None else EuroAt(s, a.value)
  }

  /**
   * `marker\s*\n\s*([\d./]+)`: the blanks after the marker must include a line
   * break, and the group starts at the first character after all of them.
   */
  function LabelNextLineAt(s: string, i: nat, marker: string): (r: Option<string>)
    requires i <= |s|
    ensures r.Some? ==> HasAt(s, i, marker) && MaximalRun(s, SkipSpaces(s, i + |marker|), r.value, DateChar)
    ensures r.Some? ==> '\n' in s[i + |marker|..SkipSpaces(s, i + |marker|)]
    ensures forall g {:trigger MaximalRun(s, SkipSpaces(s, i + |marker|), g, DateChar)} ::
      (HasAt(s, i, marker) && '\n' in s[i + |marker|..SkipSpaces(s, i + |marker|)]
       && MaximalRun(s, SkipSpaces(s, i + |marker|), g, DateChar)) ==> r == Some(g)
  {
    if !HasAt(s, i, marker) then None
    else
      var a := i + |marker|;
      var e := SkipSpaces(s, a);
      var k := RunEnd(s, e, DateChar);
      RunGroup(s, e, DateChar);
      if '\n' in s[a..e] && e < k then Some(s[e..k]) else None
  }

  /** `(RF\d{20,})`: the group takes every digit that follows `RF`. */
  function RfDigitsAt(s: string, i: nat): (r: Option<string>)
    requires i <= |s|
    ensures r.Some? <==> RfAt(s, i)
    ensures r.Some? ==> |r.value| >= 22 && r.value[..2] == "RF" && AllIn(r.value[2..], Digit)
    ensures r.Some? ==> HasAt(s, i, r.value) && (i + |r.value| == |s| || !IsDigit(s[i + |r.value|]))
    ensures r.Some? ==> HasAt(s, i, "RF")
  {
    if !HasAt(s, i, "RF") then None
    else
      var k := RunEnd(s, i + 2, Digit);
      RfDigitsEnd(s, i);
      if i + 22 <= k then Some(s[i..k]) else None
  }

  /** After `RF`, the digit run reaches 20 digits exactly when `RfAt` holds. */
  lemma RfDigitsEnd(s: string, i: nat)
    requires HasAt(s, i, "RF")
    ensures i + 22 <= RunEnd(s, i + 2, Digit) <==> RfAt(s, i)
  {
    var k := RunEnd(s, i + 2, Digit);
    if RfAt(s, i) {
      var t := s[i + 2..i + 22];
      assert forall m :: i + 2 <= m < i + 22 ==> s[m] == t[m - (i + 2)];
      RunEndPast(s, i + 2, i + 22, Digit);
    }
    if i + 22 <= k {
      var u := s[i + 2..k];
      assert s[i + 2..i + 22] == u[..20];
    }
  }

  /**
   * `\*\s*(RF[^*]+?)\s*\*`: the lazy group stops at the earliest point after at
   * least one character past `RF` from which only blanks remain before the next `*`.
   */
  function StarRfAt(s: string, i: nat): (r: Option<string>)
    requires i <= |s|
    ensures r.Some? ==> LazyRfSpan(s, i, r.value) && HasAt(s, i, "*")
  {
    if !(i < |s| && s[i] == '*') then None
    else
      var j := SkipSpaces(s, i + 1);
      if !HasAt(s, j, "RF") then None
      else
        var q := RunEnd(s, j + 2, NotStar);
        if q == |s| || q == j + 2 then None
        else
          var k := BlankStart(s, j + 3, q);
          StarRfFound(s, i, j, k, q);
          Some(s[j..k])
  }

  /**
   * The span `StarRfAt` captures: from `RF` at `j` up to `k`, where only
   * blanks remain before the `*` at `q`.
   */
  lemma StarRfFound(s: string, i: nat, j: nat, k: nat, q: nat)
    requires i < |s| && s[i] == '*' && j == SkipSpaces(s, i + 1) && HasAt(s, j, "RF")
    requires q == RunEnd(s, j + 2, NotStar) && j + 2 < q < |s| && k == BlankStart(s, j + 3, q)
    ensures LazyRfSpan(s, i, s[j..k]) && HasAt(s, i, "*")
  {
    var g := s[j..k];
    assert s[q] == '*';
    assert g[..2] == s[j..j + 2];
    assert g[2..] == s[j + 2..q][..k - (j + 2)];
    assert HasAt(s, j, g);
    assert s[i..i + 1] == [s[i]];
    RunEndAt(s, k, q, Space);
  }

  /**
   * The lazy group takes every `*`-delimited RF span from `i` that has three
   * characters or ends in a non-blank, and it matches whenever any such span
   * exists.
   */
  lemma StarRfAtComplete(s: string, i: nat)
    requires i <= |s|
    ensures forall g :: RfBetweenStars(s, i, g) ==> StarRfAt(s, i).Some?
    ensures forall g :: LazyRfSpan(s, i, g) ==> StarRfAt(s, i) == Some(g)
  {
    forall g | RfBetweenStars(s, i, g) ensures StarRfAt(s, i).Some? {
      StarRfAtSpan(s, i, g);
    }
    forall g | LazyRfSpan(s, i, g) ensures StarRfAt(s, i) == Some(g) {
      StarRfAtLazy(s, i, g);
    }
  }

  lemma StarRfAtSpan(s: string, i: nat, g: string)
    requires RfBetweenStars(s, i, g)
    ensures StarRfAt(s, i).Some?
  {
    var j := SkipSpaces(s, i + 1);
    assert HasAt(s, j, "RF") by {
      StarRfPrefix(s, j, g);
    }
    var q := RunEnd(s, j + 2, NotStar);
    StarRfGroup(s, i, j, q, g);
    StarRfAtFound(s, i, j, q);
  }

  lemma StarRfAtLazy(s: string, i: nat, g: string)
    requires LazyRfSpan(s, i, g)
    ensures StarRfAt(s, i) == Some(g)
  {
    var j := SkipSpaces(s, i + 1);
    assert HasAt(s, j, "RF") by {
      StarRfPrefix(s, j, g);
    }
    var q := RunEnd(s, j + 2, NotStar);
    assert s[j..BlankStart(s, j + 3, q)] == g by {
      StarRfGroup(s, i, j, q, g);
    }
    StarRfAtFound(s, i, j, q);
  }

  /** Once the opening `*`, the `RF` and the closing `*` are in place, `StarRfAt` returns the span up to the blanks. */
  lemma StarRfAtFound(s: string, i: nat, j: nat, q: nat)
    requires i < |s| && s[i] == '*' && j == SkipSpaces(s, i + 1) && HasAt(s, j, "RF")
    requires q == RunEnd(s, j + 2, NotStar) && j + 2 < q < |s|
    ensures StarRfAt(s, i) == Some(s[j..BlankStart(s, j + 3, q)])
  {
  }

  /**
   * Every `*`-delimited RF span from `i` ends before the first `*` after its
   * `RF`, found at `q`; the one that has three characters or ends in a
   * non-blank ends where the blanks before that `*` begin.
   */
  lemma StarRfGroup(s: string, i: nat, j: nat, q: nat, g: string)
    requires i < |s| && j == SkipSpaces(s, i + 1) && HasAt(s, j, "RF") && q == RunEnd(s, j + 2, NotStar)
    requires RfBetweenStars(s, i, g)
    ensures j + 2 < q < |s| && j + |g| <= |s| && s[j..j + |g|] == g
    ensures (|g| == 3 || !IsSpace(g[|g| - 1])) ==> BlankStart(s, j + 3, q) == j + |g|
  {
    var e := j + |g|;
    var c := SkipSpaces(s, e);
    StarRfPrefix(s, j, g);
    StarsEndRun(s, j + 2, e, c);
    if |g| == 3 || !IsSpace(g[|g| - 1]) {
      assert e == j + 3 || !IsSpace(s[e - 1]) by {
        if e != j + 3 {
          assert s[e - 1] == s[j..e][|g| - 1];
        }
      }
      BlankStartAt(s, j + 3, e, q);
    }
  }

  /** Non-stars up to `e`, then blanks up to a `*` at `q`: the run of non-stars from `a` stops at `q`. */
  lemma StarsEndRun(s: string, a: nat, e: nat, q: nat)
    requires a <= e <= q < |s| && s[q] == '*'
    requires forall m :: a <= m < e ==> InClass(s[m], NotStar)
    requires forall m :: e <= m < q ==> IsSpace(s[m])
    ensures RunEnd(s, a, NotStar) == q
  {
    forall m | a <= m < q ensures InClass(s[m], NotStar) {
      if m >= e {
        BlankEndsRuns(s[m]);
      }
    }
    RunEndAt(s, a, q, NotStar);
  }

  /** An RF span at `j` puts `RF` there and no `*` before it ends. */
  lemma StarRfPrefix(s: string, j: nat, g: string)
    requires HasAt(s, j, g) && |g| >= 3 && g[..2] == "RF" && AllIn(g[2..], NotStar)
    ensures HasAt(s, j, "RF")
    ensures forall m :: j + 2 <= m < j + |g| ==> InClass(s[m], NotStar)
  {
    var t := g[2..];
    assert s[j..j + 2] == g[..2];
    forall m | j + 2 <= m < j + |g| ensures InClass(s[m], NotStar) {
      assert s[m] == s[j..j + |g|][m - j] == g[m - j] == t[m - j - 2];
    }
  }

  /** `(\d{2}/\d{2}/\d{4})\s*marker`: a date token, blanks, then the marker. */
  function DateBeforeAt(s: string, i: nat, marker: string): (r: Option<string>)
    requires i <= |s|
    ensures r.Some? ==> IsDate(r.value) && HasAt(s, i, r.value) && HasAt(s, SkipSpaces(s, i + 10), marker)
    ensures forall g {:trigger HasAt(s, i, g)} :: IsDate(g) && HasAt(s, i, g) && HasAt(s, SkipSpaces(s, i + 10), marker) ==> r == Some(g)
  {
    DateAtSlice(s, i);
    if IsDateAt(s, i) && HasAt(s, SkipSpaces(s, i + 10), marker) then Some(s[i..i + 10]) else None
  }

  /** `(?:[.,]\d{1,2})?` after the integer digits that end at `d`: where the amount ends. */
  function FractionEnd(s: string, d: nat): (e: nat)
    requires d <= |s|
    ensures e == d || (d + 2 <= e <= d + 3 && e <= |s| && (s[d] == '.' || s[d] == ',') && AllIn(s[d + 1..e], Digit))
  {
    if d + 1 < |s| && (s[d] == '.' || s[d] == ',') && IsDigit(s[d + 1]) then
      if d + 2 < |s| && IsDigit(s[d + 2]) then d + 3 else d + 2
    else d
  }

  /** Digits from `c` to `d`, then the optional fraction, make a receipt amount. */
  lemma DigitsThenFraction(s: string, c: nat, d: nat)
    requires c < d <= |s| && AllIn(s[c..d], Digit)
    ensures c <= FractionEnd(s, d) <= |s| && IsReceiptAmount(s[c..FractionEnd(s, d)])
  {
    var e := FractionEnd(s, d);
    var g := s[c..e];
    assert g[..d - c] == s[c..d];
    if e != d { assert g[d - c + 1..] == s[d + 1..e]; }
    assert IntegerThenFraction(g, d - c);
  }

  /**
   * The greedy `\d+(?:[.,]\d{1,2})?` at `c` takes the longest receipt amount
   * there: every receipt amount at `c` fits inside what it takes.
   */
  lemma LongestReceiptAmount(s: string, c: nat, g: string)
    requires HasAt(s, c, g) && IsReceiptAmount(g)
    ensures c < RunEnd(s, c, Digit) && c + |g| <= FractionEnd(s, RunEnd(s, c, Digit))
  {
    var n :| 0 < n <= |g| && IntegerThenFraction(g, n);
    assert forall m :: c <= m < c + |g| ==> s[m] == g[m - c] by {
      assert s[c..c + |g|] == g;
    }
    assert forall m :: 0 <= m < n ==> g[m] == g[..n][m];
    if n < |g| {
      assert s[c + n] == g[n];
      RunEndAt(s, c, c + n, Digit);
      assert IsDigit(g[n + 1]) by { assert g[n + 1] == g[n + 1..][0]; }
      if n + 3 == |g| {
        assert IsDigit(g[n + 2]) by { assert g[n + 2] == g[n + 1..][1]; }
      }
    } else {
      RunEndPast(s, c, c + n, Digit);
    }
  }

  /** `ΑΡ\s*\.ΠΑΡΑΣΤΑΤΙΚΟΥ\s*:\s*(\d+(?:[.,]\d{1,2})?)`. */
  function ReceiptAmountAt(s: string, i: nat): (r: Option<string>)
    requires i <= |s|
    ensures r.Some? ==> ReceiptLabelled(s, i, r.value) && IsReceiptAmount(r.value)
  {
    var c := ReceiptValueStart(s, i);
    if c.None? then None
    else
      var d := RunEnd(s, c.value, Digit);
      if d == c.value then None
      else
        var e := FractionEnd(s, d);
        DigitsThenFraction(s, c.value, d);
        Some(s[c.value..e])
  }

  /**
   * The greedy group is the longest receipt amount after the label: whenever
   * a receipt amount follows the label at `i`, `ReceiptAmountAt` matches and
   * takes at least as many characters.
   */
  lemma ReceiptAmountAtLongest(s: string, i: nat)
    requires i <= |s|
    ensures forall g {:trigger ReceiptLabelled(s, i, g)} :: ReceiptLabelled(s, i, g) && IsReceiptAmount(g) ==>
      ReceiptAmountAt(s, i).Some? && |g| <= |ReceiptAmountAt(s, i).value|
  {
    forall g {:trigger ReceiptLabelled(s, i, g)} | ReceiptLabelled(s, i, g) && IsReceiptAmount(g)
      ensures ReceiptAmountAt(s, i).Some? && |g| <= |ReceiptAmountAt(s, i).value|
    {
      ReceiptAmountAtGroup(s, i, g);
    }
  }

  lemma ReceiptAmountAtGroup(s: string, i: nat, g: string)
    requires ReceiptLabelled(s, i, g) && IsReceiptAmount(g)
    ensures ReceiptAmountAt(s, i).Some? && |g| <= |ReceiptAmountAt(s, i).value|
  {
    var c := ReceiptValueStart(s, i).value;
    LongestReceiptAmount(s, c, g);
    var e := FractionEnd(s, RunEnd(s, c, Digit));
    assert c <= e <= |s|;
    ReceiptAmountAtFound(s, i, c);
    assert |ReceiptAmountAt(s, i).value| == e - c;
  }

  /** Once the label, the colon and a digit are in place, `ReceiptAmountAt` returns the amount from `c`. */
  lemma ReceiptAmountAtFound(s: string, i: nat, c: nat)
    requires i <= |s| && ReceiptValueStart(s, i) == Some(c) && c < RunEnd(s, c, Digit)
    ensures ReceiptAmountAt(s, i) == Some(s[c..FractionEnd(s, RunEnd(s, c, Digit))])
  {
  }

  /** Does `p` match starting at index `i`, and what does its group capture? */
  function MatchAt(p: Pattern, s: string, i: nat): (r: Option<string>)
    requires i <= |s|
    ensures r.Some? ==> Shape(p, r.value)
    ensures r.Some? ==> HasAt(s, i, Lead(p))
  {
    match p
    case LabelRun(marker, gap, cls) => LabelRunAt(s, i, marker, gap, cls)
    case LabelFixed(marker, width, cls) => LabelFixedAt(s, i, marker, width, cls)
    case LabelDate(marker) => LabelDateAt(s, i, marker)
    case LabelCode(marker) => LabelCodeAt(s, i, marker)
    case LabelEuro(marker, star) => LabelEuroAt(s, i, marker, star)
    case LabelNextLine(marker) => LabelNextLineAt(s, i, marker)
    case RfDigits => RfDigitsAt(s, i)
    case EuroAmount => EuroAt(s, i)
    case StarRf => StarRfAt(s, i)
    case DateBefore(marker) => DateBeforeAt(s, i, marker)
    case ReceiptAmount => ReceiptAmountAt(s, i)
  }

  /** A match: where it starts and what its group captured. */
  datatype Found = Found(start: nat, group: string)

  /** A matcher: does some pattern match at an index of a text, and what does its group capture? */
  type Matcher = (string, nat) -> Option<string>

  /** `p` as a matcher; it never matches past the end of the text. */
  function MatcherOf(p: Pattern): Matcher {
    (t: string, k: nat) => if k <= |t| then MatchAt(p, t, k) else None
  }

  /** `re.search` from index `i` on: the leftmost start at which the matcher succeeds. */
  function SearchFrom(m: Matcher, s: string, i: nat): (r: Option<Found>)
    requires i <= |s|
    ensures r.Some? ==> i <= r.value.start <= |s| && m(s, r.value.start) == Some(r.value.group)
    ensures r.Some? ==> forall k: nat :: i <= k < r.value.start ==> m(s, k).None?
    ensures r.None? ==> forall k: nat :: i <= k <= |s| ==> m(s, k).None?
    decreases |s| - i
  {
    var found := m(s, i);
    if found.Some? then Some(Found(i, found.value))
    else if i == |s| then None
    else SearchFrom(m, s, i + 1)
  }

  /** `re.search(p, s)`: the match at the leftmost position where the pattern matches. */
  function Search(p: Pattern, s: string): (r: Option<Found>)
    ensures r.Some? ==> r.value.start <= |s| && MatchAt(p, s, r.value.start) == Some(r.value.group)
  {
    SearchFrom(MatcherOf(p), s, 0)
  }

  /** No position before the reported one matches, and no match is reported only when none exists. */
  lemma SearchIsLeftmost(p: Pattern, s: string)
    ensures Search(p, s).Some? ==> forall k: nat :: k < Search(p, s).value.start ==> MatchAt(p, s, k).None?
    ensures Search(p, s).None? ==> forall k: nat :: k <= |s| ==> MatchAt(p, s, k).None?
  {
    var r := Search(p, s);
    if r.Some? {
      forall k: nat | k < r.value.start ensures MatchAt(p, s, k).None? {
        assert MatcherOf(p)(s, k).None?;
      }
    } else {
      forall k: nat | k <= |s| ensures MatchAt(p, s, k).None? {
        assert MatcherOf(p)(s, k).None?;
      }
    }
  }

  /** `re.search(p, s).group(1)`, or None when nothing matches. */
  function Capture(p: Pattern, s: string): (r: Option<string>)
    ensures r.Some? ==> Shape(p, r.value)
  {
    match Search(p, s)
    case Some(f) => Some(f.group)
    case None => None
  }

  /** Where a `LabelEuro` capture sits: after its marker (and a `*`), with a euro sign after it. */
  lemma LabelEuroCapture(s: string, marker: string, star: bool)
    requires Capture(LabelEuro(marker, star), s).Some?
    ensures EuroLabelled(s, Search(LabelEuro(marker, star), s).value.start, marker, star, Capture(LabelEuro(marker, star), s).value)
  {
    var i := Search(LabelEuro(marker, star), s).value.start;
    assert LabelEuroAt(s, i, marker, star).Some?;
  }

  /** A `StarRf` capture lies between a `*` and the next `*`, blanks aside. */
  lemma StarRfCapture(s: string)
    requires Capture(StarRf, s).Some?
    ensures StarDelimited(s, Search(StarRf, s).value.start, Capture(StarRf, s).value)
  {
    var i := Search(StarRf, s).value.start;
    assert StarRfAt(s, i).Some?;
  }

  /** A `ReceiptAmount` capture follows the full receipt label and its colon. */
  lemma ReceiptAmountCapture(s: string)
    requires Capture(ReceiptAmount, s).Some?
    ensures ReceiptLabelled(s, Search(ReceiptAmount, s).value.start, Capture(ReceiptAmount, s).value)
  {
    var i := Search(ReceiptAmount, s).value.start;
    assert ReceiptAmountAt(s, i).Some?;
  }

  /**
   * `re.search(r"(RF\d{20,})", s)` finds the leftmost `RF` followed by twenty
   * digits, and finds nothing only when no position has one.
   */
  lemma RfDigitsSearch(s: string)
    ensures Search(RfDigits, s).Some? ==>
      && RfAt(s, Search(RfDigits, s).value.start)
      && forall i: nat :: i < Search(RfDigits, s).value.start ==> !RfAt(s, i)
    ensures Search(RfDigits, s).None? <==> forall i: nat :: !RfAt(s, i)
  {
    SearchIsLeftmost(RfDigits, s);
    var r := Search(RfDigits, s);
    var end := if r.Some? then r.value.start else |s| + 1;
    forall i: nat | i < end ensures !RfAt(s, i) {
      if i <= |s| {
        assert MatchAt(RfDigits, s, i).None?;
      }
    }
    if r.Some? {
      assert MatchAt(RfDigits, s, r.value.start).Some?;
    } else {
      forall i: nat ensures !RfAt(s, i) {
        if i > |s| {
          assert !HasAt(s, i, "RF");
        }
      }
    }
  }

  /** Where `StarRf` does not match, no `*` there opens an RF span. */
  lemma StarRfMisses(s: string, i: nat)
    requires i <= |s| && StarRfAt(s, i).None?
    ensures forall g :: !RfBetweenStars(s, i, g)
  {
    StarRfAtComplete(s, i);
  }

  /**
   * `re.search(r"\*\s*(RF[^*]+?)\s*\*", s)` finds the leftmost `*` that opens
   * an RF span, takes the lazy span there, and finds nothing only when no `*`
   * opens one.
   */
  lemma StarRfSearch(s: string)
    ensures Search(StarRf, s).Some? ==>
      && LazyRfSpan(s, Search(StarRf, s).value.start, Search(StarRf, s).value.group)
      && forall i: nat, g :: i < Search(StarRf, s).value.start ==> !RfBetweenStars(s, i, g)
    ensures Search(StarRf, s).None? <==> forall i: nat, g :: !RfBetweenStars(s, i, g)
  {
    SearchIsLeftmost(StarRf, s);
    var r := Search(StarRf, s);
    var end := if r.Some? then r.value.start else |s| + 1;
    forall i: nat, g | i < end ensures !RfBetweenStars(s, i, g) {
      if i <= |s| {
        assert MatchAt(StarRf, s, i).None?;
        StarRfMisses(s, i);
      }
    }
    if r.Some? {
      assert MatchAt(StarRf, s, r.value.start) == Some(r.value.group);
    }
  }

  /** `MatchAt` on a `LabelEuro` pattern is `LabelEuroAt`. */
  lemma MatchAtLabelEuro(s: string, i: nat, marker: string, star: bool)
    requires i <= |s|
    ensures MatchAt(LabelEuro(marker, star), s, i) == LabelEuroAt(s, i, marker, star)
  {
  }

  /** Where a `LabelEuro` pattern does not match, no labelled amount starts there. */
  lemma LabelEuroMisses(s: string, i: nat, marker: string, star: bool)
    requires i <= |s| && LabelEuroAt(s, i, marker, star).None?
    ensures forall g {:trigger EuroLabelled(s, i, marker, star, g)} :: |g| > 0 && AllIn(g, AmountChar) ==> !EuroLabelled(s, i, marker, star, g)
  {
  }

  /**
   * `re.search` for a euro amount after `marker` finds the leftmost labelled
   * amount, and finds nothing only when the text has no labelled amount.
   */
  lemma LabelEuroSearch(s: string, marker: string, star: bool)
    ensures Search(LabelEuro(marker, star), s).Some? ==>
      forall i: nat, g {:trigger EuroLabelled(s, i, marker, star, g)} :: i < Search(LabelEuro(marker, star), s).value.start && |g| > 0 && AllIn(g, AmountChar) ==>
        !EuroLabelled(s, i, marker, star, g)
    ensures Search(LabelEuro(marker, star), s).None? <==>
      forall i: nat, g {:trigger EuroLabelled(s, i, marker, star, g)} :: |g| > 0 && AllIn(g, AmountChar) ==> !EuroLabelled(s, i, marker, star, g)
  {
    var p := LabelEuro(marker, star);
    SearchIsLeftmost(p, s);
    var r := Search(p, s);
    var end := if r.Some? then r.value.start else |s| + 1;
    forall i: nat, g | i < end && |g| > 0 && AllIn(g, AmountChar) ensures !EuroLabelled(s, i, marker, star, g) {
      if i <= |s| {
        assert MatchAt(p, s, i).None?;
        MatchAtLabelEuro(s, i, marker, star);
        LabelEuroMisses(s, i, marker, star);
      }
    }
    if r.Some? {
      var i0 := r.value.start;
      var g0 := r.value.group;
      MatchAtLabelEuro(s, i0, marker, star);
      assert |g0| > 0 && AllIn(g0, AmountChar) && EuroLabelled(s, i0, marker, star, g0);
    }
  }

  /** Where `ReceiptAmount` does not match, no receipt amount follows a label there. */
  lemma ReceiptAmountMisses(s: string, i: nat)
    requires i <= |s| && ReceiptAmountAt(s, i).None?
    ensures forall g {:trigger ReceiptLabelled(s, i, g)} :: !(ReceiptLabelled(s, i, g) && IsReceiptAmount(g))
  {
    ReceiptAmountAtLongest(s, i);
  }

  /**
   * `re.search` for the receipt amount finds the leftmost label followed by a
   * receipt amount, takes the longest amount there, and finds nothing only
   * when no label in the text is followed by one.
   */
  lemma ReceiptAmountSearch(s: string)
    ensures Search(ReceiptAmount, s).Some? ==>
      && (forall i: nat, g {:trigger ReceiptLabelled(s, i, g)} :: i < Search(ReceiptAmount, s).value.start ==> !(ReceiptLabelled(s, i, g) && IsReceiptAmount(g)))
      && (forall g {:trigger ReceiptLabelled(s, Search(ReceiptAmount, s).value.start, g)} :: ReceiptLabelled(s, Search(ReceiptAmount, s).value.start, g) && IsReceiptAmount(g) ==>
            |g| <= |Search(ReceiptAmount, s).value.group|)
    ensures Search(ReceiptAmount, s).None? <==> forall i: nat, g {:trigger ReceiptLabelled(s, i, g)} :: !(ReceiptLabelled(s, i, g) && IsReceiptAmount(g))
  {
    SearchIsLeftmost(ReceiptAmount, s);
    var r := Search(ReceiptAmount, s);
    var end := if r.Some? then r.value.start else |s| + 1;
    forall i: nat, g | i < end ensures !(ReceiptLabelled(s, i, g) && IsReceiptAmount(g)) {
      if i <= |s| {
        assert MatchAt(ReceiptAmount, s, i).None?;
        ReceiptAmountMisses(s, i);
      }
    }
    if r.Some? {
      var i0 := r.value.start;
      assert ReceiptAmountAt(s, i0) == Some(r.value.group);
      ReceiptAmountAtLongest(s, i0);
    }
  }

  /** The receipt pattern needs both parts of its label, `ΑΡ` and `.ΠΑΡΑΣΤΑΤΙΚΟΥ`, in the text. */
  lemma ReceiptAmountNeedsLabel(s: string)
    requires !Occurs(s, ReceiptMark) || !Occurs(s, ReceiptLabel)
    ensures Capture(ReceiptAmount, s) == None
  {
    if Capture(ReceiptAmount, s).Some? {
      ReceiptAmountCapture(s);
    }
  }

  /** Without its anchor in the text, a pattern captures nothing. */
  lemma AnchorMissingMeansNoCapture(p: Pattern, s: string)
    requires !Occurs(s, Anchor(p))
    ensures Capture(p, s) == None
  {
    forall k: nat | k <= |s| ensures MatchAt(p, s, k).None? {
      if MatchAt(p, s, k).Some? {
        MatchNeedsAnchor(p, s, k);
      }
    }
  }

  /** A match anywhere means the pattern's anchor occurs in the text. */
  lemma MatchNeedsAnchor(p: Pattern, s: string, i: nat)
    requires i <= |s| && MatchAt(p, s, i).Some?
    ensures Occurs(s, Anchor(p))
  {
    if p.DateBefore? {
      assert HasAt(s, SkipSpaces(s, i + 10), p.marker);
    } else {
      assert HasAt(s, i, Lead(p));
    }
  }

  /**
   * When the first occurrence of a pattern's leading literal already matches,
   * that is the match `re.search` reports: later occurrences are ignored.
   */
  lemma {:induction false} FirstOccurrenceWins(p: Pattern, s: string)
    requires Lead(p) != []
    requires Find(s, Lead(p)) != -1
    requires MatchAt(p, s, Find(s, Lead(p))).Some?
    ensures Capture(p, s) == MatchAt(p, s, Find(s, Lead(p)))
  {
    var i0 := Find(s, Lead(p));
    var r := Search(p, s);
    SearchIsLeftmost(p, s);
    assert r.Some?;
    var st := r.value.start;
    assert HasAt(s, st, Lead(p));
    assert st <= i0;
    assert i0 <= st;
  }
}
