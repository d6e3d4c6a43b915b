/**
 * The older DEI bill reader of `dei-reader.py`, whose field extraction is
 * written inline in the script's main block; here it is `ReadDeiBill`. It
 * uses the same four patterns as `parse_dei_data` but never adds the
 * contract number.
 */
module DeiReader {
  import opened Wrappers
  import opened Patterns
  import opened Bill
  import opened ElectricityReader

  const OldDeiKeys := {AmountToPayKey, RFcodeKey, PaymentDueKey, NextMeasurementKey}

  /** The four captured fields, in the script's order. */
  function OldDeiFields(amount: Option<string>, rf: Option<string>, due: Option<string>, next: Option<string>): Record {
    Assign(Assign(Assign(Assign(map[], AmountToPayKey, amount), RFcodeKey, rf), PaymentDueKey, due), NextMeasurementKey, next)
  }

  /** The dictionary the script prints. */
  function OldDeiRecord(content: string): (r: Record)
    ensures r.Keys <= OldDeiKeys
    ensures ContractNumberKey !in r
  {
    OldDeiFieldsLayout(
      Capture(AmountPattern, content), Capture(RfDigits, content),
      Capture(DuePattern, content), Capture(NextReadingPattern, content));
    OldDeiFields(
      Capture(AmountPattern, content), Capture(RfDigits, content),
      Capture(DuePattern, content), Capture(NextReadingPattern, content))
  }

  /** `data["RFcode"] = match_rf.group(1)` when the RF pattern matches; no contract number. */
  method AddRfCode(data: Record, content: string) returns (r: Record)
    ensures r == Assign(data, RFcodeKey, Capture(RfDigits, content))
  {
    r := data;
    var matchRf := Capture(RfDigits, content);
    if matchRf.Some? {
      r := r[RFcodeKey := matchRf.value];
    }
  }

  method ReadDeiBill(extractedContent: string) returns (data: Record)
    ensures data == OldDeiRecord(extractedContent)
  {
    data := map[];
    data := AddAmountToPay(data, extractedContent);
    data := AddRfCode(data, extractedContent);
    data := AddPaymentDue(data, extractedContent);
    data := AddNextMeasurement(data, extractedContent);
  }

  /** Each key is present exactly when its field was captured; there is no contract number. */
  lemma OldDeiFieldsLayout(amount: Option<string>, rf: Option<string>, due: Option<string>, next: Option<string>)
    ensures var data := OldDeiFields(amount, rf, due, next);
      && data.Keys <= OldDeiKeys
      && (AmountToPayKey in data <==> amount.Some?) && (amount.Some? ==> data[AmountToPayKey] == amount.value)
      && (RFcodeKey in data <==> rf.Some?) && (rf.Some? ==> data[RFcodeKey] == rf.value)
      && (PaymentDueKey in data <==> due.Some?) && (due.Some? ==> data[PaymentDueKey] == due.value)
      && (NextMeasurementKey in data <==> next.Some?) && (next.Some? ==> data[NextMeasurementKey] == next.value)
  {
  }

  /** The four checks are independent: running them in the opposite order fills the same dictionary. */
  lemma OldDeiOrderIrrelevant(amount: Option<string>, rf: Option<string>, due: Option<string>, next: Option<string>)
    ensures Assign(Assign(Assign(Assign(map[], NextMeasurementKey, next), PaymentDueKey, due), RFcodeKey, rf), AmountToPayKey, amount)
      == OldDeiFields(amount, rf, due, next)
  {
    var reversed := Assign(Assign(Assign(Assign(map[], NextMeasurementKey, next), PaymentDueKey, due), RFcodeKey, rf), AmountToPayKey, amount);
    var data := OldDeiFields(amount, rf, due, next);
    OldDeiFieldsLayout(amount, rf, due, next);
    assert reversed.Keys == data.Keys;
  }

  /** From the same captures, the old record is the newer DEI record without its contract number. */
  lemma OldDeiFieldsAreDeiFields(amount: Option<string>, rf: Option<string>, due: Option<string>, next: Option<string>)
    ensures OldDeiFields(amount, rf, due, next) == DeiFields(amount, rf, due, next) - {ContractNumberKey}
  {
    var oldRecord := OldDeiFields(amount, rf, due, next);
    var dei := DeiFields(amount, rf, due, next) - {ContractNumberKey};
    OldDeiFieldsLayout(amount, rf, due, next);
    DeiFieldsLayout(amount, rf, due, next);
    RfFieldsLayout(rf);
    assert oldRecord.Keys == dei.Keys;
  }

  /** For every text, the old reader's record is `parse_dei_data`'s record with `contractNumber` removed. */
  lemma OldDeiIsDeiWithoutContract(content: string)
    ensures OldDeiRecord(content) == DeiRecord(content) - {ContractNumberKey}
  {
    OldDeiFieldsAreDeiFields(
      Capture(AmountPattern, content), Capture(RfDigits, content),
      Capture(DuePattern, content), Capture(NextReadingPattern, content));
  }

  /**
   * The old record never holds a contract number; its RF code is the first
   * `RF` followed by twenty or more digits, with every digit that follows.
   */
  lemma OldDeiRfCode(content: string)
    ensures OldDeiRecord(content).Keys <= OldDeiKeys
    ensures RFcodeKey in OldDeiRecord(content) <==> Capture(RfDigits, content).Some?
    ensures RFcodeKey in OldDeiRecord(content) ==>
      var rf := OldDeiRecord(content)[RFcodeKey];
      rf == Capture(RfDigits, content).value && Shape(RfDigits, rf)
    ensures RFcodeKey in OldDeiRecord(content) ==>
      var found := Search(RfDigits, content).value;
      && RfAt(content, found.start)
      && (forall i: nat :: i < found.start ==> !RfAt(content, i))
    ensures RFcodeKey !in OldDeiRecord(content) <==> forall i: nat :: !RfAt(content, i)
  {
    OldDeiFieldsLayout(
      Capture(AmountPattern, content), Capture(RfDigits, content),
      Capture(DuePattern, content), Capture(NextReadingPattern, content));
    RfDigitsSearch(content);
  }
}
