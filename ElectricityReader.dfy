/**
 * The PDF bill parsers of `electricity-reader.py`: the RF payment code rule
 * shared by both providers, the DEI parser and the Zenith parser. The input
 * is the text the PDF library extracted from the bill.
 */
module ElectricityReader {
  import opened Wrappers
  import opened Text
  import opened Patterns
  import opened Bill

  const AmountLabel := "ΠΟΣΟ ΠΛΗΡΩΜΗΣ"
  const DueLabel := "ΕΞΟΦΛΗΣΗ ΕΩΣ"
  const NextReadingLabel := "Επόμενη καταμέτρηση"

  /** `ΠΟΣΟ ΠΛΗΡΩΜΗΣ\s*\*\s*([\d.,]+)\s*€` */
  const AmountPattern := LabelEuro(AmountLabel, true)
  /** `ΕΞΟΦΛΗΣΗ ΕΩΣ\s*\n\s*([\d./]+)` */
  const DuePattern := LabelNextLine(DueLabel)
  /** `Επόμενη καταμέτρηση\s*\n\s*([\d./]+)` */
  const NextReadingPattern := LabelNextLine(NextReadingLabel)

  /** The contract number is the last 12 characters of the RF code. */
  const ContractLength := 12

  // ---------------------------------------------------------------- extract_rf_code

  const RfKeys := {RFcodeKey, ContractNumberKey}

  /** `rf_data["RFcode"][-12:]`, present whenever the RF code is. */
  function ContractOf(rf: Option<string>): Option<string> {
    match rf
    case Some(code) => Some(LastChars(code, ContractLength))
    case None => None
  }

  /** The RF dictionary built from the RF code, if one was captured. */
  function RfFields(rf: Option<string>): Record {
    Assign(Assign(map[], RFcodeKey, rf), ContractNumberKey, ContractOf(rf))
  }

  /** Both RF keys are present exactly when an RF code was captured; the contract number is its last 12 characters. */
  lemma RfFieldsLayout(rf: Option<string>)
    ensures rf.None? ==> RfFields(rf) == map[]
    ensures rf.Some? ==> RfFields(rf) == map[RFcodeKey := rf.value, ContractNumberKey := LastChars(rf.value, ContractLength)]
  {
    if rf.Some? {
      assert RfFields(rf).Keys == RfKeys;
    }
  }

  /** The dictionary `extract_rf_code` returns. */
  function RfRecord(content: string): (r: Record)
    ensures r.Keys <= RfKeys
    ensures RFcodeKey in r <==> Capture(RfDigits, content).Some?
    ensures RFcodeKey in r <==> ContractNumberKey in r
  {
    RfFieldsLayout(Capture(RfDigits, content));
    RfFields(Capture(RfDigits, content))
  }

  method ExtractRfCode(content: string) returns (rfData: Record)
    ensures rfData == RfRecord(content)
  {
    rfData := map[];
    var matchRf := Capture(RfDigits, content);
    RfFieldsLayout(matchRf);
    if matchRf.Some? {
      rfData := rfData[RFcodeKey := matchRf.value];
      rfData := rfData[ContractNumberKey := LastChars(rfData[RFcodeKey], ContractLength)];
    }
  }

  /** The contract number of a captured RF code is its last 12 characters, all digits. */
  lemma ContractDigits(code: string)
    requires Shape(RfDigits, code)
    ensures |LastChars(code, ContractLength)| == ContractLength
    ensures AllIn(LastChars(code, ContractLength), Digit)
    ensures LastChars(code, ContractLength) == code[|code| - ContractLength..]
  {
    var contract := LastChars(code, ContractLength);
    forall m | 0 <= m < |contract| ensures IsDigit(contract[m]) {
      assert contract[m] == code[2..][|code| - ContractLength - 2 + m];
    }
  }

  /**
   * The RF code is the group of the first match of `RF` followed by twenty or
   * more digits, and takes every digit that follows.
   */
  lemma RfCodeIsFirstMatch(content: string)
    ensures RFcodeKey in RfRecord(content) <==> Search(RfDigits, content).Some?
    ensures RFcodeKey in RfRecord(content) ==>
      var found := Search(RfDigits, content).value;
      var rf := RfRecord(content)[RFcodeKey];
      && rf == found.group
      && HasAt(content, found.start, rf)
      && (found.start + |rf| == |content| || !IsDigit(content[found.start + |rf|]))
      && (forall i: nat :: i < found.start ==> MatchAt(RfDigits, content, i).None?)
      && |rf| >= 22 && rf[..2] == "RF" && AllIn(rf[2..], Digit)
      && RfAt(content, found.start)
      && (forall i: nat :: i < found.start ==> !RfAt(content, i))
    ensures RFcodeKey !in RfRecord(content) <==> forall i: nat :: !RfAt(content, i)
  {
    RfFieldsLayout(Capture(RfDigits, content));
    SearchIsLeftmost(RfDigits, content);
    RfDigitsSearch(content);
    if RFcodeKey in RfRecord(content) {
      var found := Search(RfDigits, content).value;
      assert RfDigitsAt(content, found.start) == Some(found.group);
    }
  }

  /**
   * `extract_rf_code` returns both keys or neither; the contract number is the
   * last 12 characters of the RF code, so exactly 12 digits.
   */
  lemma RfCodeAndContract(content: string)
    ensures RfRecord(content).Keys == {} || RfRecord(content).Keys == RfKeys
    ensures RFcodeKey in RfRecord(content) ==>
      var rf := RfRecord(content)[RFcodeKey];
      var contract := RfRecord(content)[ContractNumberKey];
      |contract| == ContractLength && AllIn(contract, Digit) && contract == rf[|rf| - ContractLength..]
  {
    var rf := Capture(RfDigits, content);
    RfFieldsLayout(rf);
    if rf.Some? {
      ContractDigits(rf.value);
    }
  }

  // ---------------------------------------------------------------- parse_dei_data

  const DeiKeys := {AmountToPayKey, RFcodeKey, ContractNumberKey, PaymentDueKey, NextMeasurementKey}

  /** A DEI record made of the captured amount, RF code, due date and next reading date. */
  function DeiFields(amount: Option<string>, rf: Option<string>, due: Option<string>, next: Option<string>): Record {
    Assign(Assign(Assign(RfFields(rf), AmountToPayKey, amount), PaymentDueKey, due), NextMeasurementKey, next)
  }

  /** The dictionary `parse_dei_data` returns: every field whose pattern matched, and no other. */
  function DeiRecord(content: string): (r: Record)
    ensures r.Keys <= DeiKeys
  {
    DeiFieldsLayout(Capture(AmountPattern, content), Capture(RfDigits, content),
                    Capture(DuePattern, content), Capture(NextReadingPattern, content));
    DeiFields(
      Capture(AmountPattern, content), Capture(RfDigits, content),
      Capture(DuePattern, content), Capture(NextReadingPattern, content))
  }

  /**
   * Filling the dictionary in the parser's order (amount, then the RF
   * dictionary merged in, then due date, then next reading) gives the DEI record.
   */
  lemma DeiFillOrder(amount: Option<string>, rf: Option<string>, due: Option<string>, next: Option<string>)
    ensures Assign(Assign(Assign(map[], AmountToPayKey, amount) + RfFields(rf), PaymentDueKey, due), NextMeasurementKey, next)
      == DeiFields(amount, rf, due, next)
  {
    RfFieldsLayout(rf);
    if amount.Some? {
      assert map[AmountToPayKey := amount.value] + RfFields(rf) == RfFields(rf)[AmountToPayKey := amount.value];
    } else {
      assert map[] + RfFields(rf) == RfFields(rf);
    }
  }

  /** `data["amountToPay"] = match_amount.group(1)` when the amount pattern matches. */
  method AddAmountToPay(data: Record, content: string) returns (r: Record)
    ensures r == Assign(data, AmountToPayKey, Capture(AmountPattern, content))
  {
    r := data;
    var matchAmount := Capture(AmountPattern, content);
    if matchAmount.Some? {
      r := r[AmountToPayKey := matchAmount.value];
    }
  }

  /** `data["paymentDue"] = match_due_date.group(1)` when the due date pattern matches. */
  method AddPaymentDue(data: Record, content: string) returns (r: Record)
    ensures r == Assign(data, PaymentDueKey, Capture(DuePattern, content))
  {
    r := data;
    var matchDueDate := Capture(DuePattern, content);
    if matchDueDate.Some? {
      r := r[PaymentDueKey := matchDueDate.value];
    }
  }

  /** `data["nextMeasurement"] = match_next_reading.group(1)` when the next reading pattern matches. */
  method AddNextMeasurement(data: Record, content: string) returns (r: Record)
    ensures r == Assign(data, NextMeasurementKey, Capture(NextReadingPattern, content))
  {
    r := data;
    var matchNextReading := Capture(NextReadingPattern, content);
    if matchNextReading.Some? {
      r := r[NextMeasurementKey := matchNextReading.value];
    }
  }

  method ParseDeiData(content: string) returns (data: Record)
    ensures data == DeiRecord(content)
  {
    data := map[];
    data := AddAmountToPay(data, content);
    var rfData := ExtractRfCode(content);
    data := data + rfData;
    data := AddPaymentDue(data, content);
    data := AddNextMeasurement(data, content);
    DeiFillOrder(Capture(AmountPattern, content), Capture(RfDigits, content),
                 Capture(DuePattern, content), Capture(NextReadingPattern, content));
  }

  /** Each key of a DEI record is present exactly when its field was captured, and holds the capture. */
  lemma DeiFieldsLayout(amount: Option<string>, rf: Option<string>, due: Option<string>, next: Option<string>)
    ensures DeiFields(amount, rf, due, next).Keys <= DeiKeys
    ensures var data := DeiFields(amount, rf, due, next);
      && (AmountToPayKey in data <==> amount.Some?) && (amount.Some? ==> data[AmountToPayKey] == amount.value)
      && (PaymentDueKey in data <==> due.Some?) && (due.Some? ==> data[PaymentDueKey] == due.value)
      && (NextMeasurementKey in data <==> next.Some?) && (next.Some? ==> data[NextMeasurementKey] == next.value)
      && (forall key :: key in RfKeys ==> (key in data <==> key in RfFields(rf)))
      && (forall key :: key in RfFields(rf) ==> data[key] == RfFields(rf)[key])
  {
  }

  /** What a `marker\s*\n\s*([\d./]+)` capture holds, and where its marker sits. */
  lemma NextLineCapture(content: string, marker: string)
    requires Capture(LabelNextLine(marker), content).Some?
    ensures var d := Capture(LabelNextLine(marker), content).value;
      var i := Search(LabelNextLine(marker), content).value.start;
      && |d| > 0 && AllIn(d, DateChar)
      && HasAt(content, i, marker) && '\n' in content[i + |marker|..SkipSpaces(content, i + |marker|)]
  {
    var i := Search(LabelNextLine(marker), content).value.start;
    assert LabelNextLineAt(content, i, marker).Some?;
  }

  /**
   * `amountToPay` is the captured run of digits, dots and commas, verbatim
   * (no comma-to-dot conversion), present exactly when its pattern matches;
   * in the text it follows `ΠΟΣΟ ΠΛΗΡΩΜΗΣ`, blanks, a `*` and blanks, and a
   * euro sign follows it after blanks.
   */
  lemma DeiAmountShape(content: string)
    ensures AmountToPayKey in DeiRecord(content) <==> Capture(AmountPattern, content).Some?
    ensures AmountToPayKey in DeiRecord(content) ==>
      var a := DeiRecord(content)[AmountToPayKey];
      && a == Capture(AmountPattern, content).value && |a| > 0 && AllIn(a, AmountChar)
      && EuroLabelled(content, Search(AmountPattern, content).value.start, AmountLabel, true, a)
  {
    DeiFieldsLayout(Capture(AmountPattern, content), Capture(RfDigits, content),
                    Capture(DuePattern, content), Capture(NextReadingPattern, content));
    if Capture(AmountPattern, content).Some? {
      LabelEuroCapture(content, AmountLabel, true);
    }
  }

  /**
   * `amountToPay` comes from the first labelled amount in the text, and is
   * missing only when the text holds no labelled amount at all.
   */
  lemma DeiAmountFirstMatch(content: string)
    ensures AmountToPayKey in DeiRecord(content) ==>
      forall i: nat, g {:trigger EuroLabelled(content, i, AmountLabel, true, g)} ::
        i < Search(AmountPattern, content).value.start && |g| > 0 && AllIn(g, AmountChar) ==>
        !EuroLabelled(content, i, AmountLabel, true, g)
    ensures AmountToPayKey !in DeiRecord(content) <==>
      forall i: nat, g {:trigger EuroLabelled(content, i, AmountLabel, true, g)} ::
        |g| > 0 && AllIn(g, AmountChar) ==> !EuroLabelled(content, i, AmountLabel, true, g)
  {
    DeiAmountShape(content);
    LabelEuroSearch(content, AmountLabel, true);
  }

  /**
   * `paymentDue` is a run of digits, dots and slashes, not checked as a
   * calendar date, taken only when the blanks after its label include a line break.
   */
  lemma DeiDueShape(content: string)
    ensures PaymentDueKey in DeiRecord(content) ==>
      var d := DeiRecord(content)[PaymentDueKey];
      var i := Search(DuePattern, content).value.start;
      && |d| > 0 && AllIn(d, DateChar)
      && HasAt(content, i, DueLabel) && '\n' in content[i + |DueLabel|..SkipSpaces(content, i + |DueLabel|)]
  {
    var due := Capture(DuePattern, content);
    DeiFieldsLayout(Capture(AmountPattern, content), Capture(RfDigits, content),
                    due, Capture(NextReadingPattern, content));
    if due.Some? {
      NextLineCapture(content, DueLabel);
    }
  }

  /** `nextMeasurement` is shaped like `paymentDue`, after its own label. */
  lemma DeiNextShape(content: string)
    ensures NextMeasurementKey in DeiRecord(content) ==>
      var d := DeiRecord(content)[NextMeasurementKey];
      var i := Search(NextReadingPattern, content).value.start;
      && |d| > 0 && AllIn(d, DateChar)
      && HasAt(content, i, NextReadingLabel)
      && '\n' in content[i + |NextReadingLabel|..SkipSpaces(content, i + |NextReadingLabel|)]
  {
    var next := Capture(NextReadingPattern, content);
    DeiFieldsLayout(Capture(AmountPattern, content), Capture(RfDigits, content),
                    Capture(DuePattern, content), next);
    if next.Some? {
      NextLineCapture(content, NextReadingLabel);
    }
  }

  /** A value made only of digits and punctuation is never the `"Not found"` sentinel. */
  lemma NotSentinel(v: string, cls: CharClass)
    requires |v| > 0 && AllIn(v, cls)
    requires cls == Digit || cls == AmountChar || cls == DateChar
    ensures v != NotFound
  {
    assert InClass(v[0], cls);
  }

  /** `parse_dei_data` leaves out every field whose label is missing from the text. */
  lemma DeiOmitsMissing(content: string)
    ensures DeiRecord(content).Keys <= DeiKeys
    ensures !Occurs(content, AmountLabel) ==> AmountToPayKey !in DeiRecord(content)
    ensures !Occurs(content, DueLabel) ==> PaymentDueKey !in DeiRecord(content)
    ensures !Occurs(content, NextReadingLabel) ==> NextMeasurementKey !in DeiRecord(content)
    ensures !Occurs(content, "RF") ==> RFcodeKey !in DeiRecord(content) && ContractNumberKey !in DeiRecord(content)
  {
    var amount, rf := Capture(AmountPattern, content), Capture(RfDigits, content);
    var due, next := Capture(DuePattern, content), Capture(NextReadingPattern, content);
    DeiFieldsLayout(amount, rf, due, next);
    RfFieldsLayout(rf);
    if !Occurs(content, AmountLabel) {
      AnchorMissingMeansNoCapture(AmountPattern, content);
    }
    if !Occurs(content, DueLabel) {
      AnchorMissingMeansNoCapture(DuePattern, content);
    }
    if !Occurs(content, NextReadingLabel) {
      AnchorMissingMeansNoCapture(NextReadingPattern, content);
    }
    if !Occurs(content, "RF") {
      AnchorMissingMeansNoCapture(RfDigits, content);
    }
  }

  /** A DEI record whose fields have the shapes their patterns give holds no `"Not found"` value. */
  lemma DeiFieldsNeverSentinel(amount: Option<string>, rf: Option<string>, due: Option<string>, next: Option<string>)
    requires amount.Some? ==> Shape(AmountPattern, amount.value)
    requires rf.Some? ==> Shape(RfDigits, rf.value)
    requires due.Some? ==> Shape(DuePattern, due.value)
    requires next.Some? ==> Shape(NextReadingPattern, next.value)
    ensures forall key :: key in DeiFields(amount, rf, due, next) ==> DeiFields(amount, rf, due, next)[key] != NotFound
  {
    var data := DeiFields(amount, rf, due, next);
    DeiFieldsLayout(amount, rf, due, next);
    RfFieldsLayout(rf);
    if rf.Some? {
      ContractDigits(rf.value);
    }
    forall key | key in data ensures data[key] != NotFound {
      if key == AmountToPayKey {
        NotSentinel(data[key], AmountChar);
      } else if key == PaymentDueKey || key == NextMeasurementKey {
        NotSentinel(data[key], DateChar);
      } else if key == RFcodeKey {
        assert data[key][..2] == "RF";
      } else {
        NotSentinel(data[key], Digit);
      }
    }
  }

  /** Unlike the Zenith parser, `parse_dei_data` never writes the `"Not found"` sentinel. */
  lemma DeiNeverSentinel(content: string)
    ensures forall key :: key in DeiRecord(content) ==> DeiRecord(content)[key] != NotFound
  {
    DeiFieldsNeverSentinel(
      Capture(AmountPattern, content), Capture(RfDigits, content),
      Capture(DuePattern, content), Capture(NextReadingPattern, content));
  }

  // ---------------------------------------------------------------- parse_zenith_data

  /** `all_dates[4]`: the payment due date is the fifth date token. */
  const DueDateIndex := 4

  function ZenithDue(content: string): string {
    var dates := AllDates(content);
    if |dates| > DueDateIndex then dates[DueDateIndex] else NotFound
  }

  /** The first amount followed by `€` after the first occurrence of the due date. */
  function ZenithAmount(content: string): string {
    var dates := AllDates(content);
    if |dates| <= DueDateIndex then NotFound else AmountAfter(content, dates[DueDateIndex])
  }

  /** The first amount followed by `€` after the first occurrence of `due`, or `"Not found"`. */
  function AmountAfter(content: string, due: string): (r: string)
    ensures Find(content, due) == -1 ==> r == NotFound
    ensures r == NotFound || (|r| > 0 && AllIn(r, AmountChar))
  {
    var dueIndex := Find(content, due);
    if dueIndex == -1 then NotFound else FirstEuroAmount(content[dueIndex + |due|..])
  }

  /** `re.search(r'([\d.,]+)\s*€', search_area)`, or `"Not found"` when it fails. */
  function FirstEuroAmount(area: string): (r: string)
    ensures r == NotFound || (|r| > 0 && AllIn(r, AmountChar))
  {
    var matchAmount := Capture(EuroAmount, area);
    if matchAmount.Some? then matchAmount.value else NotFound
  }

  /** A Zenith record: due date and amount always, then the RF dictionary merged in. */
  function ZenithFields(due: string, amount: string, rf: Option<string>): Record {
    RfFields(rf)[PaymentDueKey := due][AmountToPayKey := amount]
  }

  /** The dictionary `parse_zenith_data` returns. */
  function ZenithRecord(content: string): (r: Record)
    ensures PaymentDueKey in r && r[PaymentDueKey] == ZenithDue(content)
    ensures AmountToPayKey in r && r[AmountToPayKey] == ZenithAmount(content)
  {
    ZenithFields(ZenithDue(content), ZenithAmount(content), Capture(RfDigits, content))
  }

  /**
   * Merging the RF dictionary into `{paymentDue, amountToPay}` gives the Zenith
   * record: the two fields are always there, and the merge only adds the RF keys.
   */
  lemma ZenithMergeFields(due: string, amount: string, rf: Option<string>)
    ensures map[PaymentDueKey := due, AmountToPayKey := amount] + RfFields(rf) == ZenithFields(due, amount, rf)
    ensures ZenithFields(due, amount, rf).Keys == {PaymentDueKey, AmountToPayKey} + RfFields(rf).Keys
    ensures ZenithFields(due, amount, rf)[PaymentDueKey] == due
    ensures ZenithFields(due, amount, rf)[AmountToPayKey] == amount
    ensures forall key :: key in RfFields(rf) ==> ZenithFields(due, amount, rf)[key] == RfFields(rf)[key]
  {
  }

  /** When `due` occurs, the amount is searched for right after its first occurrence. */
  lemma AmountAfterFound(content: string, due: string)
    requires Find(content, due) != -1
    ensures Find(content, due) + |due| <= |content|
    ensures AmountAfter(content, due) == FirstEuroAmount(content[Find(content, due) + |due|..])
  {
  }

  /** When the due date does not occur in the text, the amount is `"Not found"`. */
  lemma AmountAfterNeedsDue(content: string, due: string)
    requires !Occurs(content, due)
    ensures AmountAfter(content, due) == NotFound
  {
    FindMissesOnlyAbsent(content, due);
  }

  /** The amount search of `parse_zenith_data`, once the due date is known. */
  method FindAmountAfter(content: string, due: string) returns (amount: string)
    ensures amount == AmountAfter(content, due)
  {
    var dueIndex := Find(content, due);
    if dueIndex != -1 {
      AmountAfterFound(content, due);
      var searchArea := content[dueIndex + |due|..];
      var matchAmount := Capture(EuroAmount, searchArea);
      if matchAmount.Some? {
        amount := matchAmount.value;
      } else {
        amount := NotFound;
      }
    } else {
      amount := NotFound;
    }
  }

  method ParseZenithData(content: string) returns (data: Record)
    ensures data == ZenithRecord(content)
  {
    data := map[];
    var allDates := AllDates(content);
    if |allDates| >= 5 {
      data := data[PaymentDueKey := allDates[DueDateIndex]];
      var amount := FindAmountAfter(content, data[PaymentDueKey]);
      data := data[AmountToPayKey := amount];
    } else {
      data := data[PaymentDueKey := NotFound];
      data := data[AmountToPayKey := NotFound];
    }
    assert data == map[PaymentDueKey := ZenithDue(content), AmountToPayKey := ZenithAmount(content)];
    var rfData := ExtractRfCode(content);
    data := data + rfData;
    ZenithMergeFields(ZenithDue(content), ZenithAmount(content), Capture(RfDigits, content));
  }

  /** With fewer than five date tokens both fields are the `"Not found"` sentinel. */
  lemma ZenithTooFewDates(content: string)
    requires |AllDates(content)| < 5
    ensures ZenithRecord(content)[PaymentDueKey] == NotFound
    ensures ZenithRecord(content)[AmountToPayKey] == NotFound
  {
    ZenithMergeFields(ZenithDue(content), ZenithAmount(content), Capture(RfDigits, content));
  }

  /**
   * With five or more date tokens the due date is the fifth one; it always
   * occurs in the text (so the `find(...) == -1` branch never runs), and the
   * amount is the first `€` amount after its first occurrence, or `"Not found"`.
   */
  lemma {:induction false} ZenithFifthDate(content: string)
    requires |AllDates(content)| >= 5
    ensures var due := AllDates(content)[DueDateIndex];
      && ZenithDue(content) == due
      && IsDate(due)
      && 0 <= Find(content, due) <= |content| - 10
      && ZenithAmount(content) ==
           match Capture(EuroAmount, content[Find(content, due) + 10..])
           case Some(amount) => amount
           case None => NotFound
  {
    FoundDateIsLocated(content, DueDateIndex);
  }

  /**
   * The Zenith record always holds `paymentDue` and `amountToPay`; merging the
   * RF dictionary only adds `RFcode` and `contractNumber` and overwrites neither.
   */
  lemma ZenithMerge(content: string)
    ensures ZenithRecord(content).Keys == {PaymentDueKey, AmountToPayKey} + RfRecord(content).Keys
    ensures ZenithRecord(content)[PaymentDueKey] == ZenithDue(content)
    ensures ZenithRecord(content)[AmountToPayKey] == ZenithAmount(content)
    ensures forall key :: key in RfRecord(content) ==> ZenithRecord(content)[key] == RfRecord(content)[key]
  {
    ZenithMergeFields(ZenithDue(content), ZenithAmount(content), Capture(RfDigits, content));
  }
}
