/**
 * The bill record: the dictionary every parser fills, field name to text,
 * serialised as a JSON object by the scripts.
 */
module Bill {
  import opened Wrappers

  type Record = map<string, string>

  const TypeKey := "type"
  const CompanyKey := "company"
  const ConsumerNumberKey := "consumerNumber"
  const AccountNumberKey := "accountNumber"
  const RFcodeKey := "RFcode"
  const RFpaymentKey := "RFpayment"
  const ContractNumberKey := "contractNumber"
  const AmountKey := "amount"
  const AmountToPayKey := "amountToPay"
  const PaymentDueKey := "paymentDue"
  const DuePaymentKey := "duePayment"
  const NextMeasurementKey := "nextMeasurement"
  const StartMeasurementKey := "startMeasurement"
  const EndMeasurementKey := "endMeasurement"
  const NextStartMeasurementKey := "nextStartMeasurement"
  const ErrorKey := "error"

  /** The sentinel the Zenith parser writes instead of leaving a field out. */
  const NotFound := "Not found"

  /** `if value: data[key] = value`: one conditional assignment into the record. */
  function Assign(data: Record, key: string, value: Option<string>): Record {
    if value.Some? then data[key := value.value] else data
  }
}
