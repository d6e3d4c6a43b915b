/**
 * The field extraction of `eyath-reader.py`: the page text of an EYATH water
 * bill is turned into a one-liner, and the RF payment code, the measurement
 * dates, the due date and the amount are taken from it. Diagnostics the
 * script prints to standard error are returned as `Warning` values.
 */
module EyathReader {
  import opened Wrappers
  import opened Text
  import opened Patterns
  import opened Bill

  const PagioLabel := "ΠΑΓΙΟ ΤΕΛΟΣ"
  const PoliLabel := "ΠΟΛΗ"

  /** `(\d{2}/\d{2}/\d{4})\s*ΠΑΓΙΟ ΤΕΛΟΣ` */
  const PagioPattern := DateBefore(PagioLabel)
  /** `(\d{2}/\d{2}/\d{4})\s*ΠΟΛΗ` */
  const PoliPattern := DateBefore(PoliLabel)

  /** `findall` must return at least this many dates for the measurement fields. */
  const MeasurementDates := 4

  const EyathKeys := {RFpaymentKey, StartMeasurementKey, EndMeasurementKey, NextStartMeasurementKey, DuePaymentKey, AmountKey}

  /** What the script reports on standard error. */
  datatype Warning =
    | PoliMissingOrMismatched     // a date before ΠΑΓΙΟ ΤΕΛΟΣ, none (or another) before ΠΟΛΗ
    | PagioMissingOrMismatched    // a date before ΠΟΛΗ only
    | NoDueDate                   // neither date
    | AmountNotNumeric(amount: string)

  // ---------------------------------------------------------------- one-liner

  /** `text.replace('\n', '\t')`: line breaks become tabs, nothing else changes. */
  function OneLiner(text: string): (r: string)
    ensures |r| == |text|
    ensures forall k :: 0 <= k < |r| ==> r[k] != '\n'
    ensures forall k :: 0 <= k < |r| ==> r[k] == text[k] || (text[k] == '\n' && r[k] == '\t')
  {
    ReplaceChar(text, '\n', '\t')
  }

  /** Date tokens never contain a line break, so the one-liner has the same date tokens as the page text. */
  lemma {:induction false} OneLinerKeepsDates(text: string, p: nat)
    requires p <= |text|
    ensures DatesFrom(OneLiner(text), p) == DatesFrom(text, p)
    decreases |text| - p
  {
    var t := OneLiner(text);
    if p + 10 <= |text| {
      assert IsDateAt(t, p) == IsDateAt(text, p);
      if IsDateAt(text, p) {
        assert t[p..p + 10] == text[p..p + 10];
        OneLinerKeepsDates(text, p + 10);
      } else {
        OneLinerKeepsDates(text, p + 1);
      }
    }
  }

  // ---------------------------------------------------------------- RFpayment

  /** The character `replace(' ', '')` removes: the plain space only. */
  predicate IsPlainSpace(c: char) {
    c == ' '
  }

  /** `group(1).replace(' ', '').strip()` */
  function RfPayment(group: string): (r: string)
    ensures |r| <= |group|
    ensures forall k :: 0 <= k < |r| ==> r[k] != ' '
  {
    Strip(Drop(group, IsPlainSpace))
  }

  /** Removing spaces from a code that starts with `RF` keeps the `RF` in front. */
  lemma DropSpacesKeepsRf(g: string)
    requires |g| >= 2 && g[..2] == "RF"
    ensures |Drop(g, IsPlainSpace)| >= 2 && Drop(g, IsPlainSpace)[..2] == "RF"
  {
    assert Drop(g, IsPlainSpace) == [g[0]] + Drop(g[1..], IsPlainSpace);
    assert Drop(g[1..], IsPlainSpace) == [g[1]] + Drop(g[2..], IsPlainSpace);
  }

  /** A capture of the RF pattern holds no `*`, and neither does any part of it with the spaces removed. */
  lemma StarFree(g: string)
    requires Shape(StarRf, g)
    ensures forall k :: 0 <= k < |Drop(g, IsPlainSpace)| ==> Drop(g, IsPlainSpace)[k] !in {' ', '*'}
  {
    forall m | 0 <= m < |g| ensures g[m] != '*' {
      if m < 2 {
        assert g[m] == g[..2][m];
      } else {
        assert g[m] == g[2..][m - 2];
      }
    }
    DropKeepsOnlyItsInput(g, IsPlainSpace);
  }

  /** Stripping a space-free, star-free code that starts with `RF` keeps all three properties. */
  lemma StripRfCode(d: string)
    requires |d| >= 2 && d[..2] == "RF"
    requires forall k :: 0 <= k < |d| ==> d[k] !in {' ', '*'}
    ensures |Strip(d)| >= 2 && Strip(d)[..2] == "RF"
    ensures forall k :: 0 <= k < |Strip(d)| ==> Strip(d)[k] != ' ' && Strip(d)[k] != '*'
    ensures !IsSpace(Strip(d)[|Strip(d)| - 1])
  {
    assert d[0] == d[..2][0] && d[1] == d[..2][1];
    var r := Strip(d);
    assert 1 < |r|;
    assert r[..2] == d[..2];
    StripKeepsOnlyItsInput(d);
  }

  /**
   * The RF payment code keeps the `RF` the pattern requires, and holds no
   * space, no `*` and no blank at either end.
   */
  lemma RfPaymentShape(g: string)
    requires Shape(StarRf, g)
    ensures |RfPayment(g)| >= 2 && RfPayment(g)[..2] == "RF"
    ensures forall k :: 0 <= k < |RfPayment(g)| ==> RfPayment(g)[k] != ' ' && RfPayment(g)[k] != '*'
    ensures !IsSpace(RfPayment(g)[|RfPayment(g)| - 1])
  {
    DropSpacesKeepsRf(g);
    StarFree(g);
    StripRfCode(Drop(g, IsPlainSpace));
  }

  // ---------------------------------------------------------------- duePayment

  /** The due date chosen from the two candidate dates, and the warning printed, if any. */
  datatype DueChoice = DueChoice(due: Option<string>, warning: Option<Warning>)

  /**
   * The date before `ΠΑΓΙΟ ΤΕΛΟΣ` wins whenever there is one; the date before
   * `ΠΟΛΗ` is the fallback. The choice is silent exactly when both dates were
   * found and agree.
   */
  function ResolveDue(pagio: Option<string>, poli: Option<string>): (c: DueChoice)
    ensures pagio.Some? ==> c.due == pagio
    ensures pagio.None? ==> c.due == poli
    ensures c.due.None? <==> pagio.None? && poli.None?
    ensures c.warning.None? <==> pagio.Some? && poli == pagio
    ensures pagio.Some? && poli != pagio ==> c.warning == Some(PoliMissingOrMismatched)
    ensures pagio.None? && poli.Some? ==> c.warning == Some(PagioMissingOrMismatched)
    ensures pagio.None? && poli.None? ==> c.warning == Some(NoDueDate)
  {
    if pagio.Some? && poli.Some? && pagio.value == poli.value then DueChoice(pagio, None)
    else if pagio.Some? then DueChoice(pagio, Some(PoliMissingOrMismatched))
    else if poli.Some? then DueChoice(poli, Some(PagioMissingOrMismatched))
    else DueChoice(None, Some(NoDueDate))
  }

  // ---------------------------------------------------------------- amount

  /**
   * The decimal literals `float()` accepts that the model needs: one or more
   * digits, optionally followed by `.` and one or more digits.
   */
  predicate IsDecimalLiteral(t: string) {
    var d := RunEnd(t, 0, Digit);
    0 < d && (d == |t| || (t[d] == '.' && d + 1 < |t| && RunEnd(t, d + 1, Digit) == |t|))
  }

  /**
   * Every amount the receipt pattern captures converts: after the comma
   * becomes a dot it is a decimal literal, so the `ValueError` branch never runs.
   */
  lemma ReceiptAmountConverts(g: string)
    requires IsReceiptAmount(g)
    ensures IsDecimalLiteral(ReplaceChar(g, ',', '.'))
    ensures forall k :: 0 <= k < |ReplaceChar(g, ',', '.')| ==> ReplaceChar(g, ',', '.')[k] != ','
  {
    var t := ReplaceChar(g, ',', '.');
    var d :| 0 < d <= |g| && IntegerThenFraction(g, d);
    forall m | 0 <= m < d ensures InClass(t[m], Digit) {
      assert g[..d][m] == g[m];
    }
    if d < |g| {
      assert t[d] == '.';
      forall m | d + 1 <= m < |t| ensures InClass(t[m], Digit) {
        assert g[d + 1..][m - (d + 1)] == g[m];
      }
      RunEndAt(t, d + 1, |t|, Digit);
    }
    RunEndAt(t, 0, d, Digit);
  }

  /** `float(amount_str)` on the normalised capture: the amount, or None when it does not convert. */
  function Amount(group: string): (r: Option<string>)
    ensures r.Some? ==> IsDecimalLiteral(r.value) && |r.value| == |group|
    ensures r.Some? ==> forall k :: 0 <= k < |r.value| ==> r.value[k] != ',' && (group[k] != ',' ==> r.value[k] == group[k])
  {
    var amountStr := ReplaceChar(group, ',', '.');
    if IsDecimalLiteral(amountStr) then Some(amountStr) else None
  }

  // ---------------------------------------------------------------- the record

  /** An EYATH record made of the fields that were found. */
  function EyathFields(rf: Option<string>, start: Option<string>, end: Option<string>, nextStart: Option<string>,
                       due: Option<string>, amount: Option<string>): Record
  {
    var measured := Assign(Assign(Assign(Assign(map[], RFpaymentKey, rf), StartMeasurementKey, start), EndMeasurementKey, end),
                           NextStartMeasurementKey, nextStart);
    Assign(Assign(measured, DuePaymentKey, due), AmountKey, amount)
  }

  /** Each key of an EYATH record is present exactly when its field was found, and holds it. */
  lemma EyathFieldsLayout(rf: Option<string>, start: Option<string>, end: Option<string>, nextStart: Option<string>,
                          due: Option<string>, amount: Option<string>)
    ensures var data := EyathFields(rf, start, end, nextStart, due, amount);
      && data.Keys <= EyathKeys
      && (RFpaymentKey in data <==> rf.Some?) && (rf.Some? ==> data[RFpaymentKey] == rf.value)
      && (StartMeasurementKey in data <==> start.Some?) && (start.Some? ==> data[StartMeasurementKey] == start.value)
      && (EndMeasurementKey in data <==> end.Some?) && (end.Some? ==> data[EndMeasurementKey] == end.value)
      && (NextStartMeasurementKey in data <==> nextStart.Some?) && (nextStart.Some? ==> data[NextStartMeasurementKey] == nextStart.value)
      && (DuePaymentKey in data <==> due.Some?) && (due.Some? ==> data[DuePaymentKey] == due.value)
      && (AmountKey in data <==> amount.Some?) && (amount.Some? ==> data[AmountKey] == amount.value)
  {
  }

  function RfField(oneLiner: string): Option<string> {
    match Capture(StarRf, oneLiner)
    case Some(g) => Some(RfPayment(g))
    case None => None
  }

  /** `dates[index]` when `findall` found at least four dates. */
  function DateField(dates: seq<string>, index: nat): Option<string>
    requires index < MeasurementDates
  {
    if |dates| >= MeasurementDates then Some(dates[index]) else None
  }

  function DueField(oneLiner: string): DueChoice {
    ResolveDue(Capture(PagioPattern, oneLiner), Capture(PoliPattern, oneLiner))
  }

  function AmountField(oneLiner: string): Option<string> {
    match Capture(ReceiptAmount, oneLiner)
    case Some(g) => Amount(g)
    case None => None
  }

  /** The dictionary `extract_data_from_pdf` serialises. */
  function EyathRecord(text: string): (r: Record)
    ensures r.Keys <= EyathKeys
  {
    var t := OneLiner(text);
    var dates := AllDates(t);
    EyathFieldsLayout(RfField(t), DateField(dates, 0), DateField(dates, 1), DateField(dates, 3), DueField(t).due, AmountField(t));
    EyathFields(RfField(t), DateField(dates, 0), DateField(dates, 1), DateField(dates, 3), DueField(t).due, AmountField(t))
  }

  /** The warning the due-date step prints, if any. */
  function DueWarnings(oneLiner: string): seq<Warning> {
    match DueField(oneLiner).warning
    case Some(w) => [w]
    case None => []
  }

  /** The warning the amount step prints when the capture does not convert. */
  function AmountWarnings(oneLiner: string): seq<Warning> {
    match Capture(ReceiptAmount, oneLiner)
    case Some(g) => if Amount(g).None? then [AmountNotNumeric(ReplaceChar(g, ',', '.'))] else []
    case None => []
  }

  /** What `extract_data_from_pdf` prints to standard error, in order. */
  function EyathWarnings(text: string): (r: seq<Warning>)
    ensures |r| <= 2
    ensures forall k :: 0 < k < |r| ==> r[k].AmountNotNumeric?
  {
    var t := OneLiner(text);
    DueWarnings(t) + AmountWarnings(t)
  }

  /** The `RFpayment` step: the first `*`-delimited RF code, spaces removed and stripped. */
  method AddRfPayment(data: Record, oneLinerText: string) returns (result: Record)
    ensures result == Assign(data, RFpaymentKey, RfField(oneLinerText))
  {
    result := data;
    var rfMatch := Capture(StarRf, oneLinerText);
    if rfMatch.Some? {
      result := result[RFpaymentKey := RfPayment(rfMatch.value)];
    }
  }

  /** The dates step: the first, second and fourth date token, when there are at least four. */
  method AddMeasurementDates(data: Record, oneLinerText: string) returns (result: Record)
    ensures var dates := AllDates(oneLinerText);
      result == Assign(Assign(Assign(data, StartMeasurementKey, DateField(dates, 0)),
                              EndMeasurementKey, DateField(dates, 1)),
                       NextStartMeasurementKey, DateField(dates, 3))
  {
    result := data;
    var dates := AllDates(oneLinerText);
    if |dates| >= 4 {
      result := result[StartMeasurementKey := dates[0]];
      result := result[EndMeasurementKey := dates[1]];
      result := result[NextStartMeasurementKey := dates[3]];
    }
  }

  /** The `duePayment` step: the date before `ΠΑΓΙΟ ΤΕΛΟΣ`, checked against the date before `ΠΟΛΗ`. */
  method AddDuePayment(data: Record, oneLinerText: string) returns (result: Record, warnings: seq<Warning>)
    ensures result == Assign(data, DuePaymentKey, DueField(oneLinerText).due)
    ensures warnings == DueWarnings(oneLinerText)
  {
    result := data;
    warnings := [];
    var pagioMatch := Capture(PagioPattern, oneLinerText);
    var poliMatch := Capture(PoliPattern, oneLinerText);
    if pagioMatch.Some? && poliMatch.Some? && pagioMatch.value == poliMatch.value {
      result := result[DuePaymentKey := pagioMatch.value];
    } else if pagioMatch.Some? {
      result := result[DuePaymentKey := pagioMatch.value];
      warnings := warnings + [PoliMissingOrMismatched];
    } else if poliMatch.Some? {
      result := result[DuePaymentKey := poliMatch.value];
      warnings := warnings + [PagioMissingOrMismatched];
    } else {
      warnings := warnings + [NoDueDate];
    }
  }

  /** The amount field and its warnings once the receipt capture is known. */
  lemma AmountFieldOf(oneLinerText: string, g: Option<string>)
    requires g == Capture(ReceiptAmount, oneLinerText)
    ensures g.None? ==> AmountField(oneLinerText).None? && AmountWarnings(oneLinerText) == []
    ensures g.Some? && IsDecimalLiteral(ReplaceChar(g.value, ',', '.')) ==>
      AmountField(oneLinerText) == Some(ReplaceChar(g.value, ',', '.')) && AmountWarnings(oneLinerText) == []
    ensures g.Some? && !IsDecimalLiteral(ReplaceChar(g.value, ',', '.')) ==>
      AmountField(oneLinerText).None? && AmountWarnings(oneLinerText) == [AmountNotNumeric(ReplaceChar(g.value, ',', '.'))]
  {
  }

  /** The `amount` step: the receipt amount with its comma turned into a dot, if `float()` accepts it. */
  method AddAmount(data: Record, oneLinerText: string) returns (result: Record, warnings: seq<Warning>)
    ensures result == Assign(data, AmountKey, AmountField(oneLinerText))
    ensures warnings == AmountWarnings(oneLinerText)
  {
    result := data;
    warnings := [];
    var amountMatch := Capture(ReceiptAmount, oneLinerText);
    AmountFieldOf(oneLinerText, amountMatch);
    if amountMatch.Some? {
      var amountStr := ReplaceChar(amountMatch.value, ',', '.');
      if IsDecimalLiteral(amountStr) {
        result := result[AmountKey := amountStr];
      } else {
        warnings := warnings + [AmountNotNumeric(amountStr)];
      }
    }
  }

  /**
   * The extraction part of `extract_data_from_pdf`, its four steps in the
   * script's order: the record, and the warnings printed on the way.
   */
  method ExtractData(text: string) returns (data: Record, warnings: seq<Warning>)
    ensures data == EyathRecord(text)
    ensures warnings == EyathWarnings(text)
  {
    var oneLinerText := ReplaceChar(text, '\n', '\t');
    data := map[];
    data := AddRfPayment(data, oneLinerText);
    data := AddMeasurementDates(data, oneLinerText);
    var dueWarnings, amountWarnings;
    data, dueWarnings := AddDuePayment(data, oneLinerText);
    data, amountWarnings := AddAmount(data, oneLinerText);
    warnings := dueWarnings + amountWarnings;
  }

  // ---------------------------------------------------------------- properties

  /**
   * `RFpayment` is present exactly when some `*`, blanks, `RF` and at least
   * one more character before the next `*` occur; it is the captured span with
   * its spaces removed, the span lies between the two stars (blanks aside), and
   * the value starts with `RF` and holds no space and no `*`.
   */
  lemma EyathRfPayment(text: string)
    ensures RFpaymentKey in EyathRecord(text) <==> Capture(StarRf, OneLiner(text)).Some?
    ensures RFpaymentKey in EyathRecord(text) ==>
      var t := OneLiner(text);
      var g := Capture(StarRf, t).value;
      && EyathRecord(text)[RFpaymentKey] == RfPayment(g)
      && StarDelimited(t, Search(StarRf, t).value.start, g)
    ensures RFpaymentKey in EyathRecord(text) ==>
      var rf := EyathRecord(text)[RFpaymentKey];
      && |rf| >= 2 && rf[..2] == "RF"
      && (forall k :: 0 <= k < |rf| ==> rf[k] != ' ' && rf[k] != '*')
    ensures RFpaymentKey in EyathRecord(text) ==>
      var t := OneLiner(text);
      var found := Search(StarRf, t).value;
      && LazyRfSpan(t, found.start, found.group)
      && (forall i: nat, g :: i < found.start ==> !RfBetweenStars(t, i, g))
    ensures RFpaymentKey !in EyathRecord(text) <==> forall i: nat, g :: !RfBetweenStars(OneLiner(text), i, g)
  {
    var t := OneLiner(text);
    var dates := AllDates(t);
    EyathFieldsLayout(RfField(t), DateField(dates, 0), DateField(dates, 1), DateField(dates, 3), DueField(t).due, AmountField(t));
    StarRfSearch(t);
    if Capture(StarRf, t).Some? {
      RfPaymentShape(Capture(StarRf, t).value);
      StarRfCapture(t);
    }
  }

  /**
   * The three measurement dates are present together, exactly when the text
   * holds at least four date tokens: the first, the second and the fourth (the
   * third is skipped). The one-liner conversion does not change which dates
   * these are.
   */
  lemma EyathMeasurements(text: string)
    ensures var data := EyathRecord(text);
      && (StartMeasurementKey in data <==> |AllDates(text)| >= MeasurementDates)
      && (EndMeasurementKey in data <==> |AllDates(text)| >= MeasurementDates)
      && (NextStartMeasurementKey in data <==> |AllDates(text)| >= MeasurementDates)
    ensures |AllDates(text)| >= MeasurementDates ==>
      var data := EyathRecord(text);
      && data[StartMeasurementKey] == AllDates(text)[0]
      && data[EndMeasurementKey] == AllDates(text)[1]
      && data[NextStartMeasurementKey] == AllDates(text)[3]
      && IsDate(data[StartMeasurementKey]) && IsDate(data[EndMeasurementKey]) && IsDate(data[NextStartMeasurementKey])
  {
    var t := OneLiner(text);
    var dates := AllDates(t);
    OneLinerKeepsDates(text, 0);
    assert dates == AllDates(text);
    EyathFieldsLayout(RfField(t), DateField(dates, 0), DateField(dates, 1), DateField(dates, 3), DueField(t).due, AmountField(t));
  }

  /**
   * `duePayment` is the date before `ΠΑΓΙΟ ΤΕΛΟΣ` when there is one and the
   * date before `ΠΟΛΗ` otherwise; it is absent only when neither is found, and
   * it is always a date token.
   */
  lemma EyathDuePayment(text: string)
    ensures var t := OneLiner(text);
      var pagio := Capture(PagioPattern, t);
      var poli := Capture(PoliPattern, t);
      && (DuePaymentKey in EyathRecord(text) <==> pagio.Some? || poli.Some?)
      && (pagio.Some? ==> EyathRecord(text)[DuePaymentKey] == pagio.value)
      && (pagio.None? && poli.Some? ==> EyathRecord(text)[DuePaymentKey] == poli.value)
    ensures DuePaymentKey in EyathRecord(text) ==> IsDate(EyathRecord(text)[DuePaymentKey])
  {
    var t := OneLiner(text);
    var dates := AllDates(t);
    EyathFieldsLayout(RfField(t), DateField(dates, 0), DateField(dates, 1), DateField(dates, 3), DueField(t).due, AmountField(t));
  }

  /**
   * `amount` is present exactly when the receipt pattern matches; its value is
   * the captured number with the comma turned into a dot, the number follows
   * `ΑΡ`, `.ΠΑΡΑΣΤΑΤΙΚΟΥ` and a colon (blanks allowed between them), and no
   * "could not convert" warning is ever printed.
   */
  lemma EyathAmount(text: string)
    ensures var g := Capture(ReceiptAmount, OneLiner(text));
      && (AmountKey in EyathRecord(text) <==> g.Some?)
      && (g.Some? ==> EyathRecord(text)[AmountKey] == ReplaceChar(g.value, ',', '.'))
      && (g.Some? ==> ReceiptLabelled(OneLiner(text), Search(ReceiptAmount, OneLiner(text)).value.start, g.value))
    ensures AmountKey in EyathRecord(text) ==> IsDecimalLiteral(EyathRecord(text)[AmountKey])
    ensures forall w :: w in EyathWarnings(text) ==> !w.AmountNotNumeric?
  {
    var t := OneLiner(text);
    var dates := AllDates(t);
    EyathFieldsLayout(RfField(t), DateField(dates, 0), DateField(dates, 1), DateField(dates, 3), DueField(t).due, AmountField(t));
    AmountStepConverts(t);
    if Capture(ReceiptAmount, t).Some? {
      ReceiptAmountCapture(t);
    }
  }

  /**
   * The amount comes from the leftmost labelled receipt amount in the one-liner,
   * and the longest one there; the key is missing only when the one-liner holds
   * no labelled amount at all.
   */
  lemma EyathAmountFirstMatch(text: string)
    ensures AmountKey in EyathRecord(text) ==>
      var t := OneLiner(text);
      var found := Search(ReceiptAmount, t).value;
      && IsReceiptAmount(found.group)
      && (forall i: nat, g {:trigger ReceiptLabelled(t, i, g)} :: i < found.start ==> !(ReceiptLabelled(t, i, g) && IsReceiptAmount(g)))
      && (forall g {:trigger ReceiptLabelled(t, found.start, g)} :: ReceiptLabelled(t, found.start, g) && IsReceiptAmount(g) ==> |g| <= |found.group|)
    ensures AmountKey !in EyathRecord(text) <==>
      forall i: nat, g {:trigger ReceiptLabelled(OneLiner(text), i, g)} :: !(ReceiptLabelled(OneLiner(text), i, g) && IsReceiptAmount(g))
  {
    var t := OneLiner(text);
    EyathAmount(text);
    ReceiptAmountSearch(t);
    if Search(ReceiptAmount, t).Some? {
      var found := Search(ReceiptAmount, t).value;
      assert Shape(ReceiptAmount, found.group);
    }
  }

  /** On any one-liner the amount step keeps every capture it finds and prints nothing. */
  lemma AmountStepConverts(t: string)
    ensures var g := Capture(ReceiptAmount, t);
      AmountField(t) == if g.Some? then Some(ReplaceChar(g.value, ',', '.')) else None
    ensures AmountField(t).Some? ==> IsDecimalLiteral(AmountField(t).value)
    ensures AmountWarnings(t) == []
  {
    var g := Capture(ReceiptAmount, t);
    if g.Some? {
      ReceiptAmountConverts(g.value);
    }
  }

  /** A field that was not found leaves its key out of the EYATH record. */
  lemma EyathFieldsOmit(rf: Option<string>, start: Option<string>, end: Option<string>, nextStart: Option<string>,
                        due: Option<string>, amount: Option<string>)
    ensures rf.None? ==> RFpaymentKey !in EyathFields(rf, start, end, nextStart, due, amount)
    ensures due.None? ==> DuePaymentKey !in EyathFields(rf, start, end, nextStart, due, amount)
    ensures amount.None? ==> AmountKey !in EyathFields(rf, start, end, nextStart, due, amount)
  {
    EyathFieldsLayout(rf, start, end, nextStart, due, amount);
  }

  /** Without a `*` in the one-liner there is no `RFpayment`. */
  lemma RfPaymentNeedsStar(text: string)
    requires !Occurs(OneLiner(text), "*")
    ensures RFpaymentKey !in EyathRecord(text)
  {
    var t := OneLiner(text);
    var dates := AllDates(t);
    AnchorMissingMeansNoCapture(StarRf, t);
    EyathFieldsOmit(RfField(t), DateField(dates, 0), DateField(dates, 1), DateField(dates, 3), DueField(t).due, AmountField(t));
  }

  /** Without either due-date label in the one-liner there is no `duePayment`. */
  lemma DuePaymentNeedsLabel(text: string)
    requires !Occurs(OneLiner(text), PagioLabel) && !Occurs(OneLiner(text), PoliLabel)
    ensures DuePaymentKey !in EyathRecord(text)
  {
    var t := OneLiner(text);
    var dates := AllDates(t);
    AnchorMissingMeansNoCapture(PagioPattern, t);
    AnchorMissingMeansNoCapture(PoliPattern, t);
    EyathFieldsOmit(RfField(t), DateField(dates, 0), DateField(dates, 1), DateField(dates, 3), DueField(t).due, AmountField(t));
  }

  /** Without `ΑΡ` or without `.ΠΑΡΑΣΤΑΤΙΚΟΥ` in the one-liner there is no `amount`. */
  lemma AmountNeedsLabel(text: string)
    requires !Occurs(OneLiner(text), ReceiptMark) || !Occurs(OneLiner(text), ReceiptLabel)
    ensures AmountKey !in EyathRecord(text)
  {
    var t := OneLiner(text);
    var dates := AllDates(t);
    ReceiptAmountNeedsLabel(t);
    EyathFieldsOmit(RfField(t), DateField(dates, 0), DateField(dates, 1), DateField(dates, 3), DueField(t).due, AmountField(t));
  }

  /** A field whose anchor does not occur in the one-liner is left out; nothing stands in for it. */
  lemma EyathOmitsMissing(text: string)
    ensures !Occurs(OneLiner(text), "*") ==> RFpaymentKey !in EyathRecord(text)
    ensures !Occurs(OneLiner(text), PagioLabel) && !Occurs(OneLiner(text), PoliLabel) ==> DuePaymentKey !in EyathRecord(text)
    ensures !Occurs(OneLiner(text), ReceiptMark) || !Occurs(OneLiner(text), ReceiptLabel) ==> AmountKey !in EyathRecord(text)
  {
    if !Occurs(OneLiner(text), "*") {
      RfPaymentNeedsStar(text);
    }
    if !Occurs(OneLiner(text), PagioLabel) && !Occurs(OneLiner(text), PoliLabel) {
      DuePaymentNeedsLabel(text);
    }
    if !Occurs(OneLiner(text), ReceiptMark) || !Occurs(OneLiner(text), ReceiptLabel) {
      AmountNeedsLabel(text);
    }
  }

  /** An EYATH record whose fields have the shapes the steps give holds no `"Not found"` value. */
  lemma EyathFieldsNeverSentinel(rf: Option<string>, start: Option<string>, end: Option<string>, nextStart: Option<string>,
                                 due: Option<string>, amount: Option<string>)
    requires rf.Some? ==> |rf.value| >= 2 && rf.value[..2] == "RF"
    requires start.Some? ==> IsDate(start.value)
    requires end.Some? ==> IsDate(end.value)
    requires nextStart.Some? ==> IsDate(nextStart.value)
    requires due.Some? ==> IsDate(due.value)
    requires amount.Some? ==> IsDecimalLiteral(amount.value)
    ensures forall key :: key in EyathFields(rf, start, end, nextStart, due, amount) ==>
      EyathFields(rf, start, end, nextStart, due, amount)[key] != NotFound
  {
    var data := EyathFields(rf, start, end, nextStart, due, amount);
    EyathFieldsLayout(rf, start, end, nextStart, due, amount);
    forall key | key in data ensures data[key] != NotFound {
      var v := data[key];
      if key == RFpaymentKey {
        assert v[0] == v[..2][0];
      } else if key == AmountKey {
        DecimalStartsWithDigit(v);
      }
      NotSentinelStart(v);
    }
  }

  /** A decimal literal starts with a digit. */
  lemma DecimalStartsWithDigit(v: string)
    requires IsDecimalLiteral(v)
    ensures |v| > 0 && IsDigit(v[0])
  {
    assert v[0] == v[0..RunEnd(v, 0, Digit)][0];
  }

  /** A value that starts with `R` or a digit is not `"Not found"`. */
  lemma NotSentinelStart(v: string)
    requires |v| > 0 && (v[0] == 'R' || IsDigit(v[0]))
    ensures v != NotFound
  {
    assert NotFound[0] == 'N';
  }

  /** Unlike the Zenith parser, the EYATH reader never writes the `"Not found"` sentinel. */
  lemma EyathNeverSentinel(text: string)
    ensures forall key :: key in EyathRecord(text) ==> EyathRecord(text)[key] != NotFound
  {
    var t := OneLiner(text);
    var dates := AllDates(t);
    var rf := Capture(StarRf, t);
    if rf.Some? {
      RfPaymentShape(rf.value);
    }
    AmountStepConverts(t);
    EyathFieldsNeverSentinel(RfField(t), DateField(dates, 0), DateField(dates, 1), DateField(dates, 3), DueField(t).due, AmountField(t));
  }

  /**
   * At most one warning is printed, and none exactly when both due-date
   * candidates were found and agree.
   */
  lemma EyathWarningCount(text: string)
    ensures |EyathWarnings(text)| <= 1
    ensures EyathWarnings(text) == [] <==>
      var t := OneLiner(text);
      Capture(PagioPattern, t).Some? && Capture(PoliPattern, t) == Capture(PagioPattern, t)
  {
    AmountStepConverts(OneLiner(text));
  }
}
