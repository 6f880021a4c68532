/**
  The background finalisation (`process_transaction`): after its delay, an
  unconditional `UPDATE ... SET status = 'PROCESSED', processed_at = NOW(),
  updated_at = NOW() WHERE transaction_id = id`. The delay itself is the gap
  between the intake step that enqueues the task and the step that runs it.
 */
module Finalizer {
  import opened Wrappers
  import opened Transactions
  import opened Intake

  /**
    The UPDATE statement at tick `now`. The row for `id`, if any, becomes
    PROCESSED with both timestamps at `now`, its other columns untouched; every
    other row is untouched; no row appears or disappears. The statement does not
    look at the row's previous status.
   */
  function MarkProcessed(store: Store, id: string, now: Tick): (r: Store)
    ensures r.Keys == store.Keys
    ensures forall k :: k in store && k != id ==> r[k] == store[k]
    ensures id in store ==>
      && SamePayload(r[id], store[id])
      && r[id].status == PROCESSED
      && r[id].processedAt == Some(now)
      && r[id].updatedAt == now
    ensures id !in store ==> r == store
  {
    if id in store then
      store[id := store[id].(status := PROCESSED, processedAt := Some(now), updatedAt := now)]
    else
      store
  }

  /** Finalising a row that is already PROCESSED keeps it PROCESSED but moves its timestamps to `now`. */
  lemma FinalizeAgain(store: Store, id: string, t: Tick, now: Tick)
    requires id in store && store[id].status == PROCESSED && store[id].processedAt == Some(t)
    ensures MarkProcessed(store, id, now)[id].status == PROCESSED
    ensures MarkProcessed(store, id, now)[id].processedAt == Some(now)
    ensures t != now ==> MarkProcessed(store, id, now) != store
  {
  }

  /** The same task queue with its `i`-th entry taken out. */
  function RemoveAt(pending: seq<string>, i: nat): (r: seq<string>)
    requires i < |pending|
    ensures |r| == |pending| - 1
    ensures multiset(r) == multiset(pending) - multiset{pending[i]}
    ensures forall j :: 0 <= j < i ==> r[j] == pending[j]
    ensures forall j :: i <= j < |r| ==> r[j] == pending[j + 1]
  {
    assert pending == pending[..i] + [pending[i]] + pending[i + 1..];
    pending[..i] + pending[i + 1..]
  }

  /**
    The scheduler runs the `i`-th pending task at tick `now`. The task leaves the
    queue whether or not its database work succeeds; when it fails (`dbOk` false)
    the exception is swallowed and the table is unchanged.
   */
  function RunTask(s: State, i: nat, now: Tick, dbOk: bool): (r: State)
    requires i < |s.pending|
    ensures multiset(r.pending) == multiset(s.pending) - multiset{s.pending[i]}
    ensures |r.pending| == |s.pending| - 1
    ensures r.store.Keys == s.store.Keys
    ensures !dbOk ==> r.store == s.store
    ensures forall k :: k in s.store && k != s.pending[i] ==> r.store[k] == s.store[k]
    ensures dbOk && s.pending[i] in s.store ==>
      var id := s.pending[i];
      && SamePayload(r.store[id], s.store[id])
      && r.store[id].status == PROCESSED
      && r.store[id].processedAt == Some(now)
  {
    var id := s.pending[i];
    State(if dbOk then MarkProcessed(s.store, id, now) else s.store, RemoveAt(s.pending, i))
  }
}
