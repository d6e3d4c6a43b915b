/**
 * The notification-email parsers of `body-reader.py`: the EYATH (water) and
 * DEI (electricity) parsers, the choice between them, and the two clean-ups
 * of the decoded body. The input of the parsers is the decoded plain-text
 * part of the email.
 */
module BodyReader {
  import opened Wrappers
  import opened Text
  import opened Patterns
  import opened Bill
  import ElectricityReader

  const WaterType := "water"
  const ElectricityType := "electricity"
  const EyathCompany := "eyath"
  const DeiCompany := "dei"

  /** `group(1).replace(',', '.')`: the amount with a decimal point. */
  function DecimalPoint(g: Option<string>): Option<string> {
    match g
    case Some(v) => Some(ReplaceChar(v, ',', '.'))
    case None => None
  }

  /** A normalised amount holds no comma, keeps the captured length, and normalising it again changes nothing. */
  lemma DecimalPointNormalises(g: Option<string>)
    ensures DecimalPoint(g).Some? <==> g.Some?
    ensures g.Some? ==>
      var a := DecimalPoint(g).value;
      && |a| == |g.value|
      && (forall k :: 0 <= k < |a| ==> a[k] != ',')
      && ReplaceChar(a, ',', '.') == a
  {
    if g.Some? {
      ReplaceCharIdempotent(g.value, ',', '.');
    }
  }

  /** Normalising an amount of digits, dots and commas leaves digits and dots only. */
  lemma DecimalPointShape(v: string)
    requires |v| > 0 && AllIn(v, AmountChar)
    ensures |ReplaceChar(v, ',', '.')| > 0
    ensures forall k :: 0 <= k < |v| ==> IsDigit(ReplaceChar(v, ',', '.')[k]) || ReplaceChar(v, ',', '.')[k] == '.'
  {
    forall k | 0 <= k < |v| ensures IsDigit(ReplaceChar(v, ',', '.')[k]) || ReplaceChar(v, ',', '.')[k] == '.' {
      assert InClass(v[k], AmountChar);
    }
  }

  // ---------------------------------------------------------------- parse_eyath_email

  const ConsumerLabel := "Αριθμός καταναλωτή:"
  const AccountMark := "ΑΚΝ"
  const PaymentOrderLabel := "Κωδ. Εντολής Πληρωμής:"
  const EyathAmountLabel := "Ποσό πληρωμής:"
  const EyathDueLabel := "Ημερομηνία λήξης:"

  /** The consumer number is exactly 15 characters. */
  const ConsumerLength := 15

  /** `Αριθμός καταναλωτή:\s*([0-9-]{15})` */
  const ConsumerPattern := LabelFixed(ConsumerLabel, ConsumerLength, ConsumerChar)
  /** `ΑΚΝ([A-Z0-9]+)` */
  const AccountPattern := LabelRun(AccountMark, false, UpperAlnum)
  /** `Κωδ\. Εντολής Πληρωμής:\s*([A-Z0-9]+)` */
  const PaymentOrderPattern := LabelRun(PaymentOrderLabel, true, UpperAlnum)
  /** `Ποσό πληρωμής:\s*([0-9,\.]+)` */
  const EyathAmountPattern := LabelRun(EyathAmountLabel, true, AmountChar)
  /** `Ημερομηνία λήξης:\s*(\d{2}/\d{2}/\d{4})` */
  const EyathDuePattern := LabelDate(EyathDueLabel)

  const EyathEmailKeys := {TypeKey, CompanyKey, ConsumerNumberKey, AccountNumberKey, RFcodeKey, AmountKey, PaymentDueKey}

  /** `"ΑΚΝ" + group(1)`: the account number keeps its mark. */
  function AccountOf(g: Option<string>): Option<string> {
    match g
    case Some(v) => Some(AccountMark + v)
    case None => None
  }

  /** The two tags, then every field that was captured, in the parser's order. */
  function EyathEmailFields(consumer: Option<string>, account: Option<string>, rf: Option<string>,
                            amount: Option<string>, due: Option<string>): Record {
    var tagged := map[TypeKey := WaterType, CompanyKey := EyathCompany];
    Assign(Assign(Assign(Assign(Assign(tagged, ConsumerNumberKey, consumer), AccountNumberKey, account),
      RFcodeKey, rf), AmountKey, amount), PaymentDueKey, due)
  }

  /** The dictionary `parse_eyath_email` serialises. */
  function EyathEmailRecord(content: string): (r: Record)
    ensures r.Keys <= EyathEmailKeys
    ensures TypeKey in r && r[TypeKey] == WaterType && CompanyKey in r && r[CompanyKey] == EyathCompany
  {
    EyathEmailLayout(
      Capture(ConsumerPattern, content), AccountOf(Capture(AccountPattern, content)),
      Capture(PaymentOrderPattern, content), DecimalPoint(Capture(EyathAmountPattern, content)),
      Capture(EyathDuePattern, content));
    EyathEmailFields(
      Capture(ConsumerPattern, content), AccountOf(Capture(AccountPattern, content)),
      Capture(PaymentOrderPattern, content), DecimalPoint(Capture(EyathAmountPattern, content)),
      Capture(EyathDuePattern, content))
  }

  /** Each optional key of an EYATH email record is present exactly when its field was captured. */
  lemma EyathEmailLayout(consumer: Option<string>, account: Option<string>, rf: Option<string>,
                         amount: Option<string>, due: Option<string>)
    ensures var data := EyathEmailFields(consumer, account, rf, amount, due);
      && data.Keys <= EyathEmailKeys
      && TypeKey in data && data[TypeKey] == WaterType
      && CompanyKey in data && data[CompanyKey] == EyathCompany
      && (ConsumerNumberKey in data <==> consumer.Some?) && (consumer.Some? ==> data[ConsumerNumberKey] == consumer.value)
      && (AccountNumberKey in data <==> account.Some?) && (account.Some? ==> data[AccountNumberKey] == account.value)
      && (RFcodeKey in data <==> rf.Some?) && (rf.Some? ==> data[RFcodeKey] == rf.value)
      && (AmountKey in data <==> amount.Some?) && (amount.Some? ==> data[AmountKey] == amount.value)
      && (PaymentDueKey in data <==> due.Some?) && (due.Some? ==> data[PaymentDueKey] == due.value)
  {
  }

  method AddConsumerNumber(data: Record, processedContent: string) returns (r: Record)
    ensures r == Assign(data, ConsumerNumberKey, Capture(ConsumerPattern, processedContent))
  {
    r := data;
    var consumerNumberMatch := Capture(ConsumerPattern, processedContent);
    if consumerNumberMatch.Some? {
      r := r[ConsumerNumberKey := consumerNumberMatch.value];
    }
  }

  method AddAccountNumber(data: Record, processedContent: string) returns (r: Record)
    ensures r == Assign(data, AccountNumberKey, AccountOf(Capture(AccountPattern, processedContent)))
  {
    r := data;
    var accountNumberMatch := Capture(AccountPattern, processedContent);
    if accountNumberMatch.Some? {
      r := r[AccountNumberKey := AccountMark + accountNumberMatch.value];
    }
  }

  method AddPaymentOrder(data: Record, processedContent: string) returns (r: Record)
    ensures r == Assign(data, RFcodeKey, Capture(PaymentOrderPattern, processedContent))
  {
    r := data;
    var rfCodeMatch := Capture(PaymentOrderPattern, processedContent);
    if rfCodeMatch.Some? {
      r := r[RFcodeKey := rfCodeMatch.value];
    }
  }

  /** The amount step of both email parsers: the captured amount with its commas turned into dots. */
  method AddEmailAmount(data: Record, processedContent: string, pattern: Pattern) returns (r: Record)
    ensures r == Assign(data, AmountKey, DecimalPoint(Capture(pattern, processedContent)))
  {
    r := data;
    var amountMatch := Capture(pattern, processedContent);
    if amountMatch.Some? {
      r := r[AmountKey := ReplaceChar(amountMatch.value, ',', '.')];
    }
  }

  /** The payment due step of both email parsers. */
  method AddEmailDue(data: Record, processedContent: string, pattern: Pattern) returns (r: Record)
    ensures r == Assign(data, PaymentDueKey, Capture(pattern, processedContent))
  {
    r := data;
    var paymentDueMatch := Capture(pattern, processedContent);
    if paymentDueMatch.Some? {
      r := r[PaymentDueKey := paymentDueMatch.value];
    }
  }

  method ParseEyathEmail(processedContent: string) returns (data: Record)
    ensures data == EyathEmailRecord(processedContent)
  {
    data := map[];
    data := data[TypeKey := WaterType];
    data := data[CompanyKey := EyathCompany];
    data := AddConsumerNumber(data, processedContent);
    data := AddAccountNumber(data, processedContent);
    data := AddPaymentOrder(data, processedContent);
    data := AddEmailAmount(data, processedContent, EyathAmountPattern);
    data := AddEmailDue(data, processedContent, EyathDuePattern);
  }

  /** Whatever the input, the EYATH email record is tagged as a water bill from EYATH and has no other keys than its own. */
  lemma EyathEmailTags(content: string)
    ensures EyathEmailRecord(content).Keys <= EyathEmailKeys
    ensures EyathEmailRecord(content)[TypeKey] == WaterType
    ensures EyathEmailRecord(content)[CompanyKey] == EyathCompany
    ensures IsTaggedBill(EyathEmailRecord(content))
  {
    EyathEmailLayout(
      Capture(ConsumerPattern, content), AccountOf(Capture(AccountPattern, content)),
      Capture(PaymentOrderPattern, content), DecimalPoint(Capture(EyathAmountPattern, content)),
      Capture(EyathDuePattern, content));
  }

  /**
   * The consumer number is 15 digits or dashes, the account number is `ΑΚΝ`
   * and one or more of `A-Z0-9`, and the RF code one or more of `A-Z0-9`.
   */
  lemma EyathEmailIdentifiers(content: string)
    ensures ConsumerNumberKey in EyathEmailRecord(content) ==>
      var c := EyathEmailRecord(content)[ConsumerNumberKey];
      |c| == ConsumerLength && AllIn(c, ConsumerChar)
    ensures AccountNumberKey in EyathEmailRecord(content) ==>
      var a := EyathEmailRecord(content)[AccountNumberKey];
      |a| > |AccountMark| && a[..|AccountMark|] == AccountMark && AllIn(a[|AccountMark|..], UpperAlnum)
    ensures RFcodeKey in EyathEmailRecord(content) ==>
      var rf := EyathEmailRecord(content)[RFcodeKey];
      |rf| > 0 && AllIn(rf, UpperAlnum)
  {
    var account := Capture(AccountPattern, content);
    EyathEmailLayout(
      Capture(ConsumerPattern, content), AccountOf(account),
      Capture(PaymentOrderPattern, content), DecimalPoint(Capture(EyathAmountPattern, content)),
      Capture(EyathDuePattern, content));
    if account.Some? {
      var a := AccountMark + account.value;
      assert a[..|AccountMark|] == AccountMark && a[|AccountMark|..] == account.value;
    }
  }

  /**
   * The amount is the captured run of digits, dots and commas with every comma
   * turned into a dot; the payment due date is a `DD/MM/YYYY` token.
   */
  lemma EyathEmailAmountAndDue(content: string)
    ensures AmountKey in EyathEmailRecord(content) <==> Capture(EyathAmountPattern, content).Some?
    ensures AmountKey in EyathEmailRecord(content) ==>
      var a := EyathEmailRecord(content)[AmountKey];
      && a == ReplaceChar(Capture(EyathAmountPattern, content).value, ',', '.')
      && |a| > 0 && (forall k :: 0 <= k < |a| ==> IsDigit(a[k]) || a[k] == '.')
    ensures PaymentDueKey in EyathEmailRecord(content) ==> IsDate(EyathEmailRecord(content)[PaymentDueKey])
  {
    var amount := Capture(EyathAmountPattern, content);
    EyathEmailLayout(
      Capture(ConsumerPattern, content), AccountOf(Capture(AccountPattern, content)),
      Capture(PaymentOrderPattern, content), DecimalPoint(amount),
      Capture(EyathDuePattern, content));
    if amount.Some? {
      DecimalPointShape(amount.value);
    }
  }

  /** A field whose label does not occur in the email is left out; nothing stands in for it. */
  lemma EyathEmailOmitsMissing(content: string)
    ensures !Occurs(content, ConsumerLabel) ==> ConsumerNumberKey !in EyathEmailRecord(content)
    ensures !Occurs(content, AccountMark) ==> AccountNumberKey !in EyathEmailRecord(content)
    ensures !Occurs(content, PaymentOrderLabel) ==> RFcodeKey !in EyathEmailRecord(content)
    ensures !Occurs(content, EyathAmountLabel) ==> AmountKey !in EyathEmailRecord(content)
    ensures !Occurs(content, EyathDueLabel) ==> PaymentDueKey !in EyathEmailRecord(content)
  {
    EyathEmailLayout(
      Capture(ConsumerPattern, content), AccountOf(Capture(AccountPattern, content)),
      Capture(PaymentOrderPattern, content), DecimalPoint(Capture(EyathAmountPattern, content)),
      Capture(EyathDuePattern, content));
    if !Occurs(content, ConsumerLabel) {
      AnchorMissingMeansNoCapture(ConsumerPattern, content);
    }
    if !Occurs(content, AccountMark) {
      AnchorMissingMeansNoCapture(AccountPattern, content);
    }
    if !Occurs(content, PaymentOrderLabel) {
      AnchorMissingMeansNoCapture(PaymentOrderPattern, content);
    }
    if !Occurs(content, EyathAmountLabel) {
      AnchorMissingMeansNoCapture(EyathAmountPattern, content);
    }
    if !Occurs(content, EyathDueLabel) {
      AnchorMissingMeansNoCapture(EyathDuePattern, content);
    }
  }

  /**
   * The email carries the payment order code twice; when a code follows the
   * first occurrence of its label, that code is the one taken.
   */
  lemma EyathEmailFirstRfCode(content: string)
    requires Find(content, PaymentOrderLabel) != -1
    requires MatchAt(PaymentOrderPattern, content, Find(content, PaymentOrderLabel)).Some?
    ensures RFcodeKey in EyathEmailRecord(content)
    ensures EyathEmailRecord(content)[RFcodeKey] == MatchAt(PaymentOrderPattern, content, Find(content, PaymentOrderLabel)).value
  {
    FirstOccurrenceWins(PaymentOrderPattern, content);
    EyathEmailLayout(
      Capture(ConsumerPattern, content), AccountOf(Capture(AccountPattern, content)),
      Capture(PaymentOrderPattern, content), DecimalPoint(Capture(EyathAmountPattern, content)),
      Capture(EyathDuePattern, content));
  }

  // ---------------------------------------------------------------- parse_dei_email

  const DeiCodeLabel := "Κωδικός Ηλεκτρονικής Πληρωμής"
  const DeiAmountLabel := "Τελικό Ποσό Πληρωμής"
  const DeiDueLabel := "Ημερομηνία Λήξης"

  /** `Κωδικός Ηλεκτρονικής Πληρωμής\s*([A-Z0-9\s]+)` */
  const DeiCodePattern := LabelCode(DeiCodeLabel)
  /** `Τελικό Ποσό Πληρωμής\s*([0-9,\.]+)\s*€` */
  const DeiEmailAmountPattern := LabelEuro(DeiAmountLabel, false)
  /** `Ημερομηνία Λήξης\s*(\d{2}/\d{2}/\d{4})` */
  const DeiEmailDuePattern := LabelDate(DeiDueLabel)

  const DeiEmailKeys := {TypeKey, CompanyKey, RFcodeKey, ContractNumberKey, AmountKey, PaymentDueKey}

  /** `re.sub(r'\s+', '', group(1))`: the code with every blank removed. */
  function Unspaced(g: Option<string>): Option<string> {
    match g
    case Some(v) => Some(Drop(v, IsSpace))
    case None => None
  }

  /** The two tags, then the RF code and its contract number, the amount and the due date. */
  function DeiEmailFields(code: Option<string>, amount: Option<string>, due: Option<string>): Record {
    var tagged := map[TypeKey := ElectricityType, CompanyKey := DeiCompany];
    var rf := Unspaced(code);
    Assign(Assign(Assign(Assign(tagged, RFcodeKey, rf), ContractNumberKey, ElectricityReader.ContractOf(rf)),
      AmountKey, amount), PaymentDueKey, due)
  }

  /** The dictionary `parse_dei_email` serialises. */
  function DeiEmailRecord(content: string): (r: Record)
    ensures r.Keys <= DeiEmailKeys
    ensures TypeKey in r && r[TypeKey] == ElectricityType && CompanyKey in r && r[CompanyKey] == DeiCompany
  {
    DeiEmailLayout(
      Capture(DeiCodePattern, content), DecimalPoint(Capture(DeiEmailAmountPattern, content)),
      Capture(DeiEmailDuePattern, content));
    DeiEmailFields(
      Capture(DeiCodePattern, content), DecimalPoint(Capture(DeiEmailAmountPattern, content)),
      Capture(DeiEmailDuePattern, content))
  }

  /** Each optional key of a DEI email record is present exactly when its field was captured. */
  lemma DeiEmailLayout(code: Option<string>, amount: Option<string>, due: Option<string>)
    ensures var data := DeiEmailFields(code, amount, due);
      && data.Keys <= DeiEmailKeys
      && TypeKey in data && data[TypeKey] == ElectricityType
      && CompanyKey in data && data[CompanyKey] == DeiCompany
      && (RFcodeKey in data <==> code.Some?) && (code.Some? ==> data[RFcodeKey] == Drop(code.value, IsSpace))
      && (ContractNumberKey in data <==> code.Some?)
      && (code.Some? ==> data[ContractNumberKey] == LastChars(Drop(code.value, IsSpace), ElectricityReader.ContractLength))
      && (AmountKey in data <==> amount.Some?) && (amount.Some? ==> data[AmountKey] == amount.value)
      && (PaymentDueKey in data <==> due.Some?) && (due.Some? ==> data[PaymentDueKey] == due.value)
  {
    var tagged := map[TypeKey := ElectricityType, CompanyKey := DeiCompany];
    var rf := Unspaced(code);
    var coded := Assign(Assign(tagged, RFcodeKey, rf), ContractNumberKey, ElectricityReader.ContractOf(rf));
    UnspacedFields(tagged, code);
    assert DeiEmailFields(code, amount, due) == Assign(Assign(coded, AmountKey, amount), PaymentDueKey, due);
  }

  /** Assigning the unspaced code and its contract number, spelled out for a captured group. */
  lemma UnspacedFields(data: Record, g: Option<string>)
    ensures var rf := Unspaced(g);
      Assign(Assign(data, RFcodeKey, rf), ContractNumberKey, ElectricityReader.ContractOf(rf)) ==
        if g.Some? then
          data[RFcodeKey := Drop(g.value, IsSpace)][ContractNumberKey := LastChars(Drop(g.value, IsSpace), ElectricityReader.ContractLength)]
        else data
  {
    if g.Some? {
      var code := Drop(g.value, IsSpace);
      assert Unspaced(g) == Some(code);
      assert ElectricityReader.ContractOf(Unspaced(g)) == Some(LastChars(code, ElectricityReader.ContractLength));
    }
  }

  method AddDeiCode(data: Record, processedContent: string) returns (r: Record)
    ensures var rf := Unspaced(Capture(DeiCodePattern, processedContent));
      r == Assign(Assign(data, RFcodeKey, rf), ContractNumberKey, ElectricityReader.ContractOf(rf))
  {
    r := data;
    var rfCodeMatch := Capture(DeiCodePattern, processedContent);
    if rfCodeMatch.Some? {
      r := r[RFcodeKey := Drop(rfCodeMatch.value, IsSpace)];
      r := r[ContractNumberKey := LastChars(Drop(rfCodeMatch.value, IsSpace), ElectricityReader.ContractLength)];
    }
    UnspacedFields(data, rfCodeMatch);
  }

  method ParseDeiEmail(processedContent: string) returns (data: Record)
    ensures data == DeiEmailRecord(processedContent)
  {
    data := map[];
    data := data[TypeKey := ElectricityType];
    data := data[CompanyKey := DeiCompany];
    data := AddDeiCode(data, processedContent);
    data := AddEmailAmount(data, processedContent, DeiEmailAmountPattern);
    data := AddEmailDue(data, processedContent, DeiEmailDuePattern);
  }

  /** Whatever the input, the DEI email record is tagged as an electricity bill from DEI and has no other keys than its own. */
  lemma DeiEmailTags(content: string)
    ensures DeiEmailRecord(content).Keys <= DeiEmailKeys
    ensures DeiEmailRecord(content)[TypeKey] == ElectricityType
    ensures DeiEmailRecord(content)[CompanyKey] == DeiCompany
    ensures IsTaggedBill(DeiEmailRecord(content))
  {
    DeiEmailLayout(
      Capture(DeiCodePattern, content), DecimalPoint(Capture(DeiEmailAmountPattern, content)),
      Capture(DeiEmailDuePattern, content));
  }

  /** The RF code of a captured group: no blank, only `A-Z0-9`, and it starts with the group's first character unless the group is a lone blank. */
  lemma UnspacedCode(g: string)
    requires |g| > 0 && AllIn(g, UpperAlnumSpace)
    ensures forall k :: 0 <= k < |Drop(g, IsSpace)| ==> InClass(Drop(g, IsSpace)[k], UpperAlnum)
    ensures !IsSpace(g[0]) ==> |Drop(g, IsSpace)| > 0 && Drop(g, IsSpace)[0] == g[0]
  {
    var d := Drop(g, IsSpace);
    DropKeepsOnlyItsInput(g, IsSpace);
    forall k | 0 <= k < |d| ensures InClass(d[k], UpperAlnum) {
      var m :| 0 <= m < |g| && g[m] == d[k];
      assert InClass(g[m], UpperAlnumSpace);
    }
    if !IsSpace(g[0]) {
      assert d == [g[0]] + Drop(g[1..], IsSpace);
    }
  }

  /** The RF fields of a DEI email record built from a captured code group. */
  lemma DeiEmailCodeFields(code: Option<string>, amount: Option<string>, due: Option<string>)
    requires code.Some? ==> Shape(DeiCodePattern, code.value)
    ensures var data := DeiEmailFields(code, amount, due);
      && (RFcodeKey in data <==> ContractNumberKey in data)
      && (RFcodeKey in data ==>
        var rf := data[RFcodeKey];
        var contract := data[ContractNumberKey];
        && (forall k :: 0 <= k < |rf| ==> !IsSpace(rf[k]) && InClass(rf[k], UpperAlnum))
        && contract == LastChars(rf, ElectricityReader.ContractLength)
        && |contract| == (if |rf| < ElectricityReader.ContractLength then |rf| else ElectricityReader.ContractLength)
        && contract == rf[|rf| - |contract|..])
  {
    DeiEmailLayout(code, amount, due);
    if code.Some? {
      UnspacedCode(code.value);
    }
  }

  /**
   * `RFcode` holds no blank and only `A-Z0-9`; `contractNumber` is present
   * exactly when `RFcode` is, and is its last 12 characters, or all of it when
   * it is shorter.
   */
  lemma DeiEmailRfCode(content: string)
    ensures RFcodeKey in DeiEmailRecord(content) <==> ContractNumberKey in DeiEmailRecord(content)
    ensures RFcodeKey in DeiEmailRecord(content) ==>
      var rf := DeiEmailRecord(content)[RFcodeKey];
      var contract := DeiEmailRecord(content)[ContractNumberKey];
      && (forall k :: 0 <= k < |rf| ==> !IsSpace(rf[k]) && InClass(rf[k], UpperAlnum))
      && contract == LastChars(rf, ElectricityReader.ContractLength)
      && |contract| == (if |rf| < ElectricityReader.ContractLength then |rf| else ElectricityReader.ContractLength)
      && contract == rf[|rf| - |contract|..]
  {
    DeiEmailCodeFields(
      Capture(DeiCodePattern, content), DecimalPoint(Capture(DeiEmailAmountPattern, content)),
      Capture(DeiEmailDuePattern, content));
  }

  /**
   * The amount is the captured run of digits, dots and commas before `€`, with
   * every comma turned into a dot; the payment due date is a `DD/MM/YYYY` token.
   */
  lemma DeiEmailAmountAndDue(content: string)
    ensures AmountKey in DeiEmailRecord(content) <==> Capture(DeiEmailAmountPattern, content).Some?
    ensures AmountKey in DeiEmailRecord(content) ==>
      var a := DeiEmailRecord(content)[AmountKey];
      && a == ReplaceChar(Capture(DeiEmailAmountPattern, content).value, ',', '.')
      && |a| > 0 && (forall k :: 0 <= k < |a| ==> IsDigit(a[k]) || a[k] == '.')
    ensures PaymentDueKey in DeiEmailRecord(content) ==> IsDate(DeiEmailRecord(content)[PaymentDueKey])
  {
    var amount := Capture(DeiEmailAmountPattern, content);
    DeiEmailLayout(Capture(DeiCodePattern, content), DecimalPoint(amount), Capture(DeiEmailDuePattern, content));
    if amount.Some? {
      DecimalPointShape(amount.value);
    }
  }

  /** A field whose label does not occur in the email is left out; nothing stands in for it. */
  lemma DeiEmailOmitsMissing(content: string)
    ensures !Occurs(content, DeiCodeLabel) ==> RFcodeKey !in DeiEmailRecord(content) && ContractNumberKey !in DeiEmailRecord(content)
    ensures !Occurs(content, DeiAmountLabel) ==> AmountKey !in DeiEmailRecord(content)
    ensures !Occurs(content, DeiDueLabel) ==> PaymentDueKey !in DeiEmailRecord(content)
  {
    DeiEmailLayout(
      Capture(DeiCodePattern, content), DecimalPoint(Capture(DeiEmailAmountPattern, content)),
      Capture(DeiEmailDuePattern, content));
    if !Occurs(content, DeiCodeLabel) {
      AnchorMissingMeansNoCapture(DeiCodePattern, content);
    }
    if !Occurs(content, DeiAmountLabel) {
      AnchorMissingMeansNoCapture(DeiEmailAmountPattern, content);
    }
    if !Occurs(content, DeiDueLabel) {
      AnchorMissingMeansNoCapture(DeiEmailDuePattern, content);
    }
  }

  // ---------------------------------------------------------------- main

  const EyathMarker := "eyath.gr"
  const DeiMarker := "dei.gr"
  const UnknownTypeMessage :=
    "Could not determine email type. Use --eyath or --dei, or ensure 'eyath.gr' or 'dei.gr' is in the email content."
  const NoPayloadMessage := "Could not find base64 encoded plain text part."

  /** The command-line switches `--eyath`, `--dei` and `--debug`. */
  datatype Flags = Flags(eyath: bool, dei: bool, debug: bool)

  /** What the script prints: a JSON dictionary and its exit status, or the debug line. */
  datatype Output = Json(record: Record, status: nat) | DebugText(line: string)

  predicate IsQuoteMark(c: char) {
    c == '>'
  }

  /** `.replace('>', '')` on the decoded body: the quoting marks of replies are removed. */
  function Unquote(decoded: string): (r: string)
    ensures |r| <= |decoded|
    ensures forall k :: 0 <= k < |r| ==> r[k] != '>'
  {
    Drop(decoded, IsQuoteMark)
  }

  /**
   * `replace(">", "")` works character by character: it removes every `>`,
   * keeps every other character, and keeps their order.
   */
  lemma UnquoteSplits(a: string, b: string)
    ensures Unquote(a + b) == Unquote(a) + Unquote(b)
    ensures Unquote([]) == []
    ensures forall c: char :: Unquote([c]) == if c == '>' then [] else [c]
  {
    DropSplits(a, b, IsQuoteMark);
    forall c: char ensures Unquote([c]) == if c == '>' then [] else [c] {
      DropSplits([c], [], IsQuoteMark);
      assert [c] + [] == [c];
    }
  }

  /**
   * A body without quoting marks is left as it is, so removing them twice is
   * removing them once; and removing them only ever removes characters.
   */
  lemma UnquoteIdempotent(decoded: string)
    ensures (forall k :: 0 <= k < |decoded| ==> decoded[k] != '>') ==> Unquote(decoded) == decoded
    ensures Unquote(Unquote(decoded)) == Unquote(decoded)
    ensures forall k :: 0 <= k < |Unquote(decoded)| ==> Unquote(decoded)[k] in decoded
  {
    if forall k :: 0 <= k < |decoded| ==> decoded[k] != '>' {
      DropNothing(decoded, IsQuoteMark);
    }
    DropNothing(Unquote(decoded), IsQuoteMark);
    DropKeepsOnlyItsInput(decoded, IsQuoteMark);
  }

  /** `.replace("\n", "\t").replace("\r", "\t")`: the body on a single line, for debugging. */
  function DebugLine(content: string): (r: string)
    ensures |r| == |content|
    ensures forall k :: 0 <= k < |r| ==> r[k] != '\n' && r[k] != '\r'
    ensures forall k :: 0 <= k < |r| ==> r[k] == (if content[k] == '\n' || content[k] == '\r' then '\t' else content[k])
  {
    ReplaceChar(ReplaceChar(content, '\n', '\t'), '\r', '\t')
  }

  /**
   * The choice of parser: `--eyath` first, then `--dei`, then the `eyath.gr`
   * marker, then the `dei.gr` marker, else the error dictionary.
   */
  function Dispatch(flags: Flags, content: string): (r: Record)
    ensures r == EyathEmailRecord(content) || r == DeiEmailRecord(content) || r == map[ErrorKey := UnknownTypeMessage]
  {
    if flags.eyath then EyathEmailRecord(content)
    else if flags.dei then DeiEmailRecord(content)
    else if Find(content, EyathMarker) != -1 then EyathEmailRecord(content)
    else if Find(content, DeiMarker) != -1 then DeiEmailRecord(content)
    else map[ErrorKey := UnknownTypeMessage]
  }

  /** The precedence of the dispatch, with the markers tested as `marker in content`. */
  lemma DispatchOrder(flags: Flags, content: string)
    ensures flags.eyath ==> Dispatch(flags, content) == EyathEmailRecord(content)
    ensures !flags.eyath && flags.dei ==> Dispatch(flags, content) == DeiEmailRecord(content)
    ensures !flags.eyath && !flags.dei && Occurs(content, EyathMarker) ==>
      Dispatch(flags, content) == EyathEmailRecord(content)
    ensures !flags.eyath && !flags.dei && !Occurs(content, EyathMarker) && Occurs(content, DeiMarker) ==>
      Dispatch(flags, content) == DeiEmailRecord(content)
    ensures !flags.eyath && !flags.dei && !Occurs(content, EyathMarker) && !Occurs(content, DeiMarker) ==>
      Dispatch(flags, content) == map[ErrorKey := UnknownTypeMessage]
  {
    FindMissesOnlyAbsent(content, EyathMarker);
    FindMissesOnlyAbsent(content, DeiMarker);
  }

  /** A bill record: tagged with a type and the company that goes with it, and no error. */
  predicate IsTaggedBill(r: Record) {
    && TypeKey in r && CompanyKey in r && ErrorKey !in r
    && ((r[TypeKey] == WaterType && r[CompanyKey] == EyathCompany)
        || (r[TypeKey] == ElectricityType && r[CompanyKey] == DeiCompany))
  }

  /**
   * The dispatch answers either a tagged bill record or the error alone: the
   * error key appears exactly when no parser was chosen.
   */
  lemma DispatchTagsOrError(flags: Flags, content: string)
    ensures IsTaggedBill(Dispatch(flags, content)) || Dispatch(flags, content) == map[ErrorKey := UnknownTypeMessage]
  {
    EyathEmailTags(content);
    DeiEmailTags(content);
  }

  /**
   * `main` from the decoded body on: without a body it reports the missing
   * part and fails unless debugging; otherwise the body loses its `>` marks
   * and is either printed on one line or parsed.
   */
  function Respond(flags: Flags, decoded: Option<string>): (out: Output)
    ensures decoded.None? && !flags.debug ==> out == Json(map[ErrorKey := NoPayloadMessage], 1)
    ensures flags.debug ==> out.DebugText?
    ensures decoded.Some? && !flags.debug ==> out.Json? && out.status == 0
    ensures flags.debug ==> out == DebugText(DebugLine(if decoded.Some? then Unquote(decoded.value) else ""))
    ensures decoded.Some? && !flags.debug ==> out == Json(Dispatch(flags, Unquote(decoded.value)), 0)
  {
    if decoded.None? && !flags.debug then Json(map[ErrorKey := NoPayloadMessage], 1)
    else
      var processedContent := if decoded.Some? then Unquote(decoded.value) else "";
      if flags.debug then DebugText(DebugLine(processedContent))
      else Json(Dispatch(flags, processedContent), 0)
  }

  /**
   * The debug line is computed from the body with its `>` marks removed: it has
   * the unquoted length and no line breaks and no `>`.
   */
  lemma RespondUsesUnquotedBody(flags: Flags, decoded: Option<string>)
    ensures flags.debug ==>
      var line := Respond(flags, decoded).line;
      && |line| == (if decoded.Some? then |Unquote(decoded.value)| else 0)
      && forall k :: 0 <= k < |line| ==> line[k] != '\n' && line[k] != '\r' && line[k] != '>'
  {
  }
}
