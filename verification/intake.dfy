/**
  The webhook intake (`receive_webhook`): an insert-if-absent into the table, a
  background finalisation scheduled only for a newly created row, and a reply
  that is always "Accepted".
 */
module Intake {
  import opened Wrappers
  import opened Transactions

  /** The table plus the background tasks still to run, each naming the id it finalises. */
  datatype State = State(store: Store, pending: seq<string>)

  /**
    Where the storage step of an intake breaks, if it does. Any exception before
    the commit (connection, execute, fetch, commit) rolls the insert back; an
    exception while closing the cursor or connection comes after the commit.
   */
  datatype StorageFault = NoFault | FailsBeforeCommit | FailsAfterCommit

  /** The reply of `POST /v1/webhooks/transactions`. */
  datatype WebhookReply = Accepted | Rejected(error: ValidationError) {
    function Code(): nat {
      match this
      case Accepted => 202
      case Rejected(_) => 422
    }

    /** The JSON `message` of a 202 reply. A 422 reply carries the framework's error detail, which is not modelled. */
    function Message(): string
      requires Accepted?
    {
      ACCEPTED_MESSAGE
    }
  }

  /** The body of the 202 reply, the same in every case. */
  const ACCEPTED_MESSAGE: string := "Accepted"

  /**
    `INSERT ... VALUES (..., 'PROCESSING') ON CONFLICT (transaction_id) DO NOTHING
    RETURNING transaction_id`: the new table and whether a row came back.
   */
  function InsertIfAbsent(store: Store, req: WebhookRequest, now: Tick): (r: (Store, bool))
    ensures r.1 <==> req.transactionId !in store
    ensures !r.1 ==> r.0 == store
    ensures r.1 ==> r.0.Keys == store.Keys + {req.transactionId}
    ensures r.1 ==> FreshFrom(r.0[req.transactionId], req, now)
    ensures forall k :: k in store ==> k in r.0 && r.0[k] == store[k]
  {
    var id := req.transactionId;
    if id in store then
      (store, false)
    else
      (store[id := Record(id, req.sourceAccount, req.destinationAccount, req.amount,
                          req.currency, PROCESSING, now, None, now)], true)
  }

  /** The storage step commits: no early fault and every value fits its column. */
  predicate Commits(req: WebhookRequest, fault: StorageFault) {
    fault != FailsBeforeCommit && FitsSchema(req)
  }

  /**
    The handler body for a validated request at tick `now`. A new id gains exactly
    its fresh row and, when nothing fails after the commit, exactly one pending
    task; a known id changes nothing whatever the payload; a failed insert
    changes nothing. The reply is not part of the result: it is always "Accepted".
   */
  function ReceiveWebhook(s: State, req: WebhookRequest, now: Tick, fault: StorageFault): (r: State)
    requires Valid(req)
    ensures !Commits(req, fault) ==> r == s
    ensures req.transactionId in s.store ==> r == s
    ensures Commits(req, fault) && req.transactionId !in s.store ==>
      && r.store.Keys == s.store.Keys + {req.transactionId}
      && FreshFrom(r.store[req.transactionId], req, now)
      && (forall k :: k in s.store ==> r.store[k] == s.store[k])
      && r.pending == (if fault == NoFault then s.pending + [req.transactionId] else s.pending)
  {
    if !Commits(req, fault) then
      s
    else
      var (store', created) := InsertIfAbsent(s.store, req, now);
      if created && fault == NoFault then
        State(store', s.pending + [req.transactionId])
      else
        State(store', s.pending)
  }

  /**
    The endpoint: validation first, then the handler. A body that fails validation
    is answered 422 and changes nothing; every validated body is answered 202.
   */
  function PostWebhook(s: State, raw: RawRequest, now: Tick, fault: StorageFault): (r: (State, WebhookReply))
    ensures r.1 == Accepted <==> WellFormed(raw)
    ensures r.1.Code() == (if WellFormed(raw) then 202 else 422)
    ensures WellFormed(raw) ==> r.1.Message() == ACCEPTED_MESSAGE
    ensures !WellFormed(raw) ==> r.0 == s
    ensures WellFormed(raw) && raw.transactionId.value in s.store ==> r.0 == s
    ensures r.0.store.Keys <= s.store.Keys + (if WellFormed(raw) then {raw.transactionId.value} else {})
  {
    match Validate(raw)
    case Err(e) => (s, Rejected(e))
    case Ok(req) => (ReceiveWebhook(s, req, now, fault), Accepted)
  }

  /**
    A new id submitted with no fault: one row, one task, and the reply is
    "Accepted"; resubmitting the same id with any payload is also "Accepted" and
    changes neither the row nor the task queue.
   */
  lemma {:induction false} SubmitTwice(s: State, raw1: RawRequest, raw2: RawRequest,
                                        t1: Tick, t2: Tick, f2: StorageFault)
    requires WellFormed(raw1) && WellFormed(raw2)
    requires raw1.transactionId == raw2.transactionId
    requires raw1.transactionId.value !in s.store
    requires FitsSchema(Validate(raw1).value)
    ensures var (s1, a1) := PostWebhook(s, raw1, t1, NoFault);
            var (s2, a2) := PostWebhook(s1, raw2, t2, f2);
            && a1 == Accepted && a2 == Accepted
            && s2 == s1
            && s2.store.Keys == s.store.Keys + {raw1.transactionId.value}
            && FreshFrom(s2.store[raw1.transactionId.value], Validate(raw1).value, t1)
            && s2.pending == s.pending + [raw1.transactionId.value]
  {
    var req1 := Validate(raw1).value;
    var s1 := ReceiveWebhook(s, req1, t1, NoFault);
    assert PostWebhook(s, raw1, t1, NoFault).0 == s1;
    assert req1.transactionId in s1.store;
  }
}
