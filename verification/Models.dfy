/** The entities of internal/models and the Kafka records that carry them. */
module Models {
  import opened Wrappers

  newtype byte = x: int | 0 <= x < 256
  type Bytes = seq<byte>

  /** The JSON body of a Kafka record. The amount is a float64 in the source. */
  datatype PaymentEvent = PaymentEvent(
    paymentId: string,
    status: string,
    amount: real,
    currency: string,
    description: string,
    timestamp: string)

  /** The hash stored under "payment:<id>"; updatedAt is a clock reading. */
  datatype PaymentStatus = PaymentStatus(paymentId: string, status: string, updatedAt: nat)

  /** One item of the DynamoDB table. */
  datatype PaymentHistory = PaymentHistory(event: PaymentEvent, processedAt: nat, traceId: string)

  function NewPaymentHistoryFromEvent(event: PaymentEvent, now: nat, traceId: string): PaymentHistory {
    PaymentHistory(event, now, traceId)
  }

  datatype Header = Header(key: Bytes, value: Bytes)

  /** A consumed record. A header pointer can be nil. */
  datatype Message = Message(
    topic: Bytes,
    partition: int,
    offset: int,
    key: Bytes,
    value: Bytes,
    headers: seq<Option<Header>>)
}
