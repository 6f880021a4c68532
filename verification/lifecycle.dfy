/**
  The service as a state machine over the table and the background-task queue.
  Requests and task runs interleave as discrete steps; the 30-second delay is the
  freedom of the scheduler to run any pending task at any later step.
 */
module Lifecycle {
  import opened Wrappers
  import opened Transactions
  import opened Intake
  import opened Finalizer
  import opened Queries

  /**
    One event: a webhook arriving, the scheduler running the `task`-th pending
    task, or the server process restarting. Background tasks live in the
    process's memory, so a restart loses every one still waiting; the table is
    kept.
   */
  datatype Step =
    | Submit(raw: RawRequest, now: Tick, fault: StorageFault)
    | Finish(task: nat, now: Tick, dbOk: bool)
    | Restart

  /** The state after one event. A `Finish` naming no pending task changes nothing. */
  function Apply(s: State, step: Step): State {
    match step
    case Submit(raw, now, fault) => PostWebhook(s, raw, now, fault).0
    case Finish(i, now, dbOk) => if i < |s.pending| then RunTask(s, i, now, dbOk) else s
    case Restart => State(s.store, [])
  }

  /** The state after a sequence of events, first to last. */
  function Run(s: State, steps: seq<Step>): State
    decreases |steps|
  {
    if |steps| == 0 then s else Run(Apply(s, steps[0]), steps[1..])
  }

  /**
    An event in which nothing fails: no storage fault at intake, no error in the
    task, and no restart.
   */
  predicate Reliable(step: Step) {
    match step
    case Submit(_, _, fault) => fault == NoFault
    case Finish(_, _, dbOk) => dbOk
    case Restart => false
  }

  /**
    A row the service can have written: positive amount, values within their
    columns, one of the two statuses, and timestamps matching the status.
   */
  ghost predicate WellStored(rec: Record) {
    && rec.amount > 0
    && FitsSchema(WebhookRequest(rec.transactionId, rec.sourceAccount, rec.destinationAccount,
                                 rec.amount, rec.currency))
    && (rec.status == PROCESSING || rec.status == PROCESSED)
    && (rec.status == PROCESSING ==> rec.processedAt == None && rec.updatedAt == rec.createdAt)
    && (rec.status == PROCESSED ==> rec.processedAt == Some(rec.updatedAt))
  }

  /** No id is queued twice. */
  ghost predicate DistinctTasks(pending: seq<string>) {
    forall i, j :: 0 <= i < j < |pending| ==> pending[i] != pending[j]
  }

  /**
    The invariant of every reachable state: rows filed under their ids and well
    stored, and each pending task names a distinct stored row that is still
    PROCESSING.
   */
  ghost predicate Inv(s: State) {
    && KeysMatch(s.store)
    && (forall k :: k in s.store ==> WellStored(s.store[k]))
    && DistinctTasks(s.pending)
    && (forall i :: 0 <= i < |s.pending| ==> s.pending[i] in s.store && s.store[s.pending[i]].status == PROCESSING)
  }

  /** The invariant, and in addition every PROCESSING row still has its task queued. */
  ghost predicate NoOrphans(s: State) {
    && Inv(s)
    && (forall k :: k in s.store && s.store[k].status == PROCESSING ==> k in s.pending)
  }

  /**
    How the table may change between two states: no row disappears, no row's
    payload or creation time changes, and a PROCESSED row is frozen.
   */
  ghost predicate Evolves(s: State, t: State) {
    && s.store.Keys <= t.store.Keys
    && (forall k :: k in s.store ==> SamePayload(t.store[k], s.store[k]))
    && (forall k :: k in s.store && s.store[k].status == PROCESSED ==> t.store[k] == s.store[k])
  }

  lemma EvolvesTransitive(s: State, t: State, u: State)
    requires Evolves(s, t) && Evolves(t, u)
    ensures Evolves(s, u)
  {
  }

  /** The initial state: an empty table and no tasks. */
  lemma InitialInv()
    ensures NoOrphans(State(map[], []))
  {
  }

  /** The task queue after removing a distinct task keeps the other entries, each once. */
  lemma RemoveAtKeepsOthers(pending: seq<string>, i: nat)
    requires i < |pending| && DistinctTasks(pending)
    ensures DistinctTasks(RemoveAt(pending, i))
    ensures forall x :: x in RemoveAt(pending, i) <==> x in pending && x != pending[i]
  {
    var r := RemoveAt(pending, i);
    forall x | x in pending && x != pending[i]
      ensures x in r
    {
      var j :| 0 <= j < |pending| && pending[j] == x;
      if j < i {
        assert r[j] == x;
      } else {
        assert r[j - 1] == x;
      }
    }
  }

  /** A webhook keeps the invariant and evolves the table as allowed. */
  lemma SubmitPreservesInv(s: State, raw: RawRequest, now: Tick, fault: StorageFault)
    requires Inv(s)
    ensures Inv(PostWebhook(s, raw, now, fault).0)
    ensures Evolves(s, PostWebhook(s, raw, now, fault).0)
  {
    var t := PostWebhook(s, raw, now, fault).0;
    if WellFormed(raw) {
      var req := Validate(raw).value;
      var id := req.transactionId;
      if Commits(req, fault) && id !in s.store {
        assert id !in s.pending;
        forall i | 0 <= i < |t.pending|
          ensures t.pending[i] in t.store && t.store[t.pending[i]].status == PROCESSING
        {
          if i < |s.pending| {
            assert t.pending[i] == s.pending[i];
          }
        }
      }
    }
  }

  /** Running a pending task keeps the invariant and evolves the table as allowed. */
  lemma FinishPreservesInv(s: State, i: nat, now: Tick, dbOk: bool)
    requires Inv(s) && i < |s.pending|
    ensures Inv(RunTask(s, i, now, dbOk))
    ensures Evolves(s, RunTask(s, i, now, dbOk))
  {
    var t := RunTask(s, i, now, dbOk);
    RemoveAtKeepsOthers(s.pending, i);
    assert t.pending == RemoveAt(s.pending, i);
    forall j | 0 <= j < |t.pending|
      ensures t.pending[j] in t.store && t.store[t.pending[j]].status == PROCESSING
    {
      assert t.pending[j] in t.pending;
    }
  }

  /** Every step keeps the invariant and evolves the table as allowed. */
  lemma StepPreservesInv(s: State, step: Step)
    requires Inv(s)
    ensures Inv(Apply(s, step))
    ensures Evolves(s, Apply(s, step))
  {
    match step
    case Submit(raw, now, fault) =>
      SubmitPreservesInv(s, raw, now, fault);
    case Finish(i, now, dbOk) =>
      if i < |s.pending| {
        FinishPreservesInv(s, i, now, dbOk);
      }
    case Restart =>
  }

  /** Every run keeps the invariant and evolves the table as allowed. */
  lemma {:induction false} RunPreservesInv(s: State, steps: seq<Step>)
    requires Inv(s)
    ensures Inv(Run(s, steps))
    ensures Evolves(s, Run(s, steps))
    decreases |steps|
  {
    if |steps| > 0 {
      var t := Apply(s, steps[0]);
      StepPreservesInv(s, steps[0]);
      RunPreservesInv(t, steps[1..]);
      EvolvesTransitive(s, t, Run(t, steps[1..]));
    }
  }

  /**
    A task always finds its row still PROCESSING, so each id is finalised at most
    once: the run moves it to PROCESSED and no other task for it remains.
   */
  lemma FinishProcessesOnce(s: State, i: nat, now: Tick)
    requires Inv(s) && i < |s.pending|
    ensures s.pending[i] in s.store && s.store[s.pending[i]].status == PROCESSING
    ensures var t := Apply(s, Finish(i, now, true));
      && t.store[s.pending[i]].status == PROCESSED
      && t.store[s.pending[i]].processedAt == Some(now)
      && s.pending[i] !in t.pending
  {
    RemoveAtKeepsOthers(s.pending, i);
  }

  /** Reliable steps keep every PROCESSING row's task queued. */
  lemma ReliableStepKeepsNoOrphans(s: State, step: Step)
    requires NoOrphans(s) && Reliable(step)
    ensures NoOrphans(Apply(s, step))
  {
    StepPreservesInv(s, step);
    match step
    case Submit(raw, now, fault) =>
    case Finish(i, now, dbOk) =>
      if i < |s.pending| {
        RemoveAtKeepsOthers(s.pending, i);
      }
  }

  lemma {:induction false} ReliableRunKeepsNoOrphans(s: State, steps: seq<Step>)
    requires NoOrphans(s)
    requires forall i :: 0 <= i < |steps| ==> Reliable(steps[i])
    ensures NoOrphans(Run(s, steps))
    decreases |steps|
  {
    if |steps| > 0 {
      ReliableStepKeepsNoOrphans(s, steps[0]);
      ReliableRunKeepsNoOrphans(Apply(s, steps[0]), steps[1..]);
    }
  }

  /** `n` runs of the oldest pending task at tick `now`, none failing. */
  function DrainSteps(n: nat, now: Tick): seq<Step> {
    seq(n, _ => Finish(0, now, true))
  }

  /** Runs the oldest pending task at tick `now`, without error, until none is left. */
  function Drain(s: State, now: Tick): State
    decreases |s.pending|
  {
    if |s.pending| == 0 then s else Drain(RunTask(s, 0, now, true), now)
  }

  /** Draining the queue is the run of one reliable `Finish` step per pending task. */
  lemma {:induction false} DrainIsRun(s: State, now: Tick)
    ensures Drain(s, now) == Run(s, DrainSteps(|s.pending|, now))
    decreases |s.pending|
  {
    if |s.pending| > 0 {
      var steps := DrainSteps(|s.pending|, now);
      var s1 := RunTask(s, 0, now, true);
      assert Apply(s, steps[0]) == s1;
      assert steps[1..] == DrainSteps(|s1.pending|, now);
      DrainIsRun(s1, now);
    }
  }

  /**
    Once every delay has elapsed and every task has run without error, the queue
    is empty and every row is PROCESSED; the rows that were PROCESSING carry the
    tick of their task as `processed_at`.
   */
  lemma {:induction false} DrainProcessesEverything(s: State, now: Tick)
    requires NoOrphans(s)
    ensures Drain(s, now).pending == []
    ensures Drain(s, now).store.Keys == s.store.Keys
    ensures forall k :: k in s.store ==> Drain(s, now).store[k].status == PROCESSED
    ensures forall k :: k in s.store && s.store[k].status == PROCESSING ==>
      Drain(s, now).store[k].processedAt == Some(now)
    ensures Evolves(s, Drain(s, now))
    decreases |s.pending|
  {
    if |s.pending| > 0 {
      var s1 := RunTask(s, 0, now, true);
      var t := Drain(s, now);
      assert t == Drain(s1, now);
      assert Apply(s, Finish(0, now, true)) == s1;
      FinishPreservesInv(s, 0, now, true);
      ReliableStepKeepsNoOrphans(s, Finish(0, now, true));
      DrainProcessesEverything(s1, now);
      EvolvesTransitive(s, s1, t);
      forall k | k in s.store && s.store[k].status == PROCESSING
        ensures t.store[k].processedAt == Some(now)
      {
        if k != s.pending[0] {
          assert s1.store[k] == s.store[k];
        }
      }
    }
  }

  /**
    A PROCESSING row without a queued task never changes again: no later request
    or task touches it.
   */
  lemma {:induction false} OrphanStaysProcessing(s: State, steps: seq<Step>, id: string)
    requires Inv(s) && id in s.store && s.store[id].status == PROCESSING && id !in s.pending
    ensures id in Run(s, steps).store && Run(s, steps).store[id] == s.store[id]
    ensures id !in Run(s, steps).pending
    decreases |steps|
  {
    if |steps| > 0 {
      var t := Apply(s, steps[0]);
      StepPreservesInv(s, steps[0]);
      match steps[0] {
        case Submit(raw, now, fault) =>
          if WellFormed(raw) && raw.transactionId.value !in s.store {
            assert raw.transactionId.value != id;
          }
        case Finish(i, now, dbOk) =>
          if i < |s.pending| {
            assert s.pending[i] != id;
            RemoveAtKeepsOthers(s.pending, i);
          }
        case Restart =>
      }
      OrphanStaysProcessing(t, steps[1..], id);
    }
  }

  /**
    The three ways a row is orphaned: an exception after the intake's commit
    stores the row but schedules nothing, a failing task leaves its row
    PROCESSING, and a restart drops every task still waiting.
   */
  lemma FaultsOrphanRows(s: State, raw: RawRequest, now: Tick, i: nat)
    requires Inv(s)
    ensures WellFormed(raw) && raw.transactionId.value !in s.store && FitsSchema(Validate(raw).value) ==>
      var t := Apply(s, Submit(raw, now, FailsAfterCommit));
      var id := raw.transactionId.value;
      id in t.store && t.store[id].status == PROCESSING && id !in t.pending
    ensures i < |s.pending| ==>
      var t := Apply(s, Finish(i, now, false));
      var id := s.pending[i];
      id in t.store && t.store[id].status == PROCESSING && id !in t.pending
    ensures var t := Apply(s, Restart);
      t.store == s.store && t.pending == [] &&
      forall i :: 0 <= i < |s.pending| ==> s.pending[i] in t.store && t.store[s.pending[i]].status == PROCESSING
  {
    if WellFormed(raw) && raw.transactionId.value !in s.store {
      assert raw.transactionId.value !in s.pending;
    }
    if i < |s.pending| {
      RemoveAtKeepsOthers(s.pending, i);
    }
  }

  /**
    After a restart, a task that was waiting never runs: its row stays PROCESSING,
    unchanged and without a task, whatever events follow.
   */
  lemma RestartStrandsPending(s: State, steps: seq<Step>, i: nat)
    requires Inv(s) && i < |s.pending|
    ensures var id := s.pending[i]; var t := Run(s, [Restart] + steps);
      && id in t.store && t.store[id] == s.store[id]
      && t.store[id].status == PROCESSING && id !in t.pending
  {
    var r := Apply(s, Restart);
    StepPreservesInv(s, Restart);
    assert ([Restart] + steps)[1..] == steps;
    OrphanStaysProcessing(r, steps, s.pending[i]);
  }

  /**
    An id no request ever carried is never found: a 404, or a 500 when the id
    contains NUL and the driver refuses it.
   */
  lemma {:induction false} NeverSubmittedNotFound(s: State, steps: seq<Step>, id: string)
    requires id !in s.store
    requires forall i :: 0 <= i < |steps| && steps[i].Submit? ==> steps[i].raw.transactionId != Some(id)
    ensures GetTransaction(Run(s, steps).store, id, true) == Err(if NulFree(id) then NotFound else InternalError)
    decreases |steps|
  {
    if |steps| > 0 {
      NeverSubmittedNotFound(Apply(s, steps[0]), steps[1..], id);
    }
  }

  /**
    A new request accepted without fault is visible at once as PROCESSING with
    no `processed_at`; once its task runs without error it reads PROCESSED with
    the task's tick.
   */
  lemma SubmitThenFinish(s: State, raw: RawRequest, t1: Tick, t2: Tick)
    requires Inv(s) && WellFormed(raw) && raw.transactionId.value !in s.store
    requires FitsSchema(Validate(raw).value)
    ensures var id := raw.transactionId.value;
      var s1 := Apply(s, Submit(raw, t1, NoFault));
      var s2 := Apply(s1, Finish(|s.pending|, t2, true));
      && GetTransaction(s1.store, id, true) == Ok(TransactionView(id, raw.sourceAccount.value,
           raw.destinationAccount.value, raw.amount.value, raw.currency.value, PROCESSING, t1, None))
      && GetTransaction(s2.store, id, true) == Ok(TransactionView(id, raw.sourceAccount.value,
           raw.destinationAccount.value, raw.amount.value, raw.currency.value, PROCESSED, t1, Some(t2)))
  {
    var id := raw.transactionId.value;
    var s1 := Apply(s, Submit(raw, t1, NoFault));
    assert s1.pending == s.pending + [id];
    assert s1.pending[|s.pending|] == id;
  }
}
