/**
  The data model of the transaction webhook service: the row of the `transactions`
  table, the webhook request body and its validation, and the limits the table's
  column types put on what can be stored.
 */
module Transactions {
  import opened Wrappers

  /** The two status values the service ever writes into the `status` column. */
  const PROCESSING: string := "PROCESSING"
  const PROCESSED: string := "PROCESSED"

  /** VARCHAR(255) limit of `transaction_id`, `source_account` and `destination_account`. */
  const ACCOUNT_FIELD_MAX: nat := 255
  /** VARCHAR(3) limit of `currency`. */
  const CURRENCY_MAX: nat := 3
  /** DECIMAL(10, 2) holds magnitudes below 10^8; amounts are counted in cents here. */
  const AMOUNT_LIMIT_CENTS: nat := 10_000_000_000

  /** Clock readings (`NOW()`, `CURRENT_TIMESTAMP`) are abstract ticks. */
  type Tick = nat

  /**
    One row of the `transactions` table. The surrogate `id SERIAL` column is not
    modelled: nothing in the service reads it. `transaction_id` is the unique key.
   */
  datatype Record = Record(
    transactionId: string,
    sourceAccount: string,
    destinationAccount: string,
    amount: int,
    currency: string,
    status: string,
    createdAt: Tick,
    processedAt: Option<Tick>,
    updatedAt: Tick)

  /** The table, keyed by the unique `transaction_id` column. */
  type Store = map<string, Record>

  /** The body of `POST /v1/webhooks/transactions` after validation. */
  datatype WebhookRequest = WebhookRequest(
    transactionId: string,
    sourceAccount: string,
    destinationAccount: string,
    amount: int,
    currency: string)

  /** The body as it arrives: any field may be missing. */
  datatype RawRequest = RawRequest(
    transactionId: Option<string>,
    sourceAccount: Option<string>,
    destinationAccount: Option<string>,
    amount: Option<int>,
    currency: Option<string>)

  /** The names of the fields that failed validation. */
  datatype ValidationError = ValidationError(fields: set<string>)

  /** The field constraints of the request model: every field is required and `amount > 0`. */
  predicate WellFormed(raw: RawRequest) {
    && raw.transactionId.Some?
    && raw.sourceAccount.Some?
    && raw.destinationAccount.Some?
    && raw.amount.Some?
    && raw.amount.value > 0
    && raw.currency.Some?
  }

  /** A request that passed validation: its amount is positive. */
  predicate Valid(req: WebhookRequest) {
    req.amount > 0
  }

  /** Every field name whose constraint `raw` violates. */
  function Problems(raw: RawRequest): set<string> {
    (if raw.transactionId.None? then {"transaction_id"} else {})
    + (if raw.sourceAccount.None? then {"source_account"} else {})
    + (if raw.destinationAccount.None? then {"destination_account"} else {})
    + (if raw.amount.None? || raw.amount.value <= 0 then {"amount"} else {})
    + (if raw.currency.None? then {"currency"} else {})
  }

  /**
    Request validation done before the handler runs: the request reaches the
    handler only when every field is present and the amount is positive;
    otherwise the caller gets the list of offending fields.
   */
  function Validate(raw: RawRequest): (r: Result<WebhookRequest, ValidationError>)
    ensures r.Ok? <==> WellFormed(raw)
    ensures r.Ok? ==> Valid(r.value)
    ensures r.Ok? ==> ToRaw(r.value) == raw
    ensures r.Err? ==> r.error.fields != {}
    ensures r.Err? ==> ("amount" in r.error.fields <==> raw.amount.None? || raw.amount.value <= 0)
    ensures r.Err? ==> ("transaction_id" in r.error.fields <==> raw.transactionId.None?)
    ensures r.Err? ==> ("source_account" in r.error.fields <==> raw.sourceAccount.None?)
    ensures r.Err? ==> ("destination_account" in r.error.fields <==> raw.destinationAccount.None?)
    ensures r.Err? ==> ("currency" in r.error.fields <==> raw.currency.None?)
  {
    if WellFormed(raw) then
      Ok(WebhookRequest(raw.transactionId.value, raw.sourceAccount.value,
                        raw.destinationAccount.value, raw.amount.value, raw.currency.value))
    else
      Err(ValidationError(Problems(raw)))
  }

  /** The body a client sends to produce `req`. */
  function ToRaw(req: WebhookRequest): RawRequest {
    RawRequest(Some(req.transactionId), Some(req.sourceAccount), Some(req.destinationAccount),
               Some(req.amount), Some(req.currency))
  }

  /** Validation accepts exactly the bodies of valid requests and gives them back unchanged. */
  lemma ValidateToRaw(req: WebhookRequest)
    ensures Validate(ToRaw(req)).Ok? <==> Valid(req)
    ensures Valid(req) ==> Validate(ToRaw(req)) == Ok(req)
  {
  }

  /** psycopg2 refuses to pass a string containing a NUL character as a query parameter. */
  predicate NulFree(s: string) {
    '\0' !in s
  }

  /**
    Whether the driver and the table's column types accept the request's values. An insert of a
    value that does not fit raises a database error, which the handler treats like
    any other storage failure.
   */
  predicate FitsSchema(req: WebhookRequest) {
    && NulFree(req.transactionId) && NulFree(req.sourceAccount)
    && NulFree(req.destinationAccount) && NulFree(req.currency)
    && |req.transactionId| <= ACCOUNT_FIELD_MAX
    && |req.sourceAccount| <= ACCOUNT_FIELD_MAX
    && |req.destinationAccount| <= ACCOUNT_FIELD_MAX
    && |req.currency| <= CURRENCY_MAX
    && -(AMOUNT_LIMIT_CENTS as int) < req.amount < AMOUNT_LIMIT_CENTS
  }

  /** The row the intake inserts for `req` at tick `now`, before any finalisation. */
  predicate FreshFrom(rec: Record, req: WebhookRequest, now: Tick) {
    && rec.transactionId == req.transactionId
    && rec.sourceAccount == req.sourceAccount
    && rec.destinationAccount == req.destinationAccount
    && rec.amount == req.amount
    && rec.currency == req.currency
    && rec.status == PROCESSING
    && rec.createdAt == now
    && rec.processedAt == None
    && rec.updatedAt == now
  }

  /** The columns no operation writes after the insert. */
  predicate SamePayload(a: Record, b: Record) {
    && a.transactionId == b.transactionId
    && a.sourceAccount == b.sourceAccount
    && a.destinationAccount == b.destinationAccount
    && a.amount == b.amount
    && a.currency == b.currency
    && a.createdAt == b.createdAt
  }

  /** The uniqueness of `transaction_id`: each row is filed under its own id. */
  ghost predicate KeysMatch(store: Store) {
    forall k :: k in store ==> store[k].transactionId == k
  }

  /** `rec` is the row the table holds under its own id. */
  predicate Stored(store: Store, rec: Record) {
    rec.transactionId in store && store[rec.transactionId] == rec
  }

  /** The fields of a row that the read endpoints return (`TransactionResponse`). */
  datatype TransactionView = TransactionView(
    transactionId: string,
    sourceAccount: string,
    destinationAccount: string,
    amount: int,
    currency: string,
    status: string,
    createdAt: Tick,
    processedAt: Option<Tick>)

  function View(rec: Record): TransactionView {
    TransactionView(rec.transactionId, rec.sourceAccount, rec.destinationAccount,
                    rec.amount, rec.currency, rec.status, rec.createdAt, rec.processedAt)
  }

  /** Errors the read endpoints answer with. */
  datatype ApiError = NotFound | InternalError {
    function Code(): nat {
      match this
      case NotFound => 404
      case InternalError => 500
    }
  }
}
