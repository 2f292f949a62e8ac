/**
  One execution of a cron job: lock check, wait for the upgrade guard, lock write,
  run row, body, row update, lock removal, output. The body is anything; every file
  and database operation may fail; and everyone else uses the lock files and writes
  to the tables whenever the execution waits.
 */
module JobExecutor {
  import opened Wrappers
  import opened LockTtl
  import opened CronTables
  import CronDb
  import D = DeliveryProtocol
  import S = DeliverySafety
  import L = JobLocks

  /** How the body ended, as far as the row is concerned. */
  datatype Body =
    | NoBinary
    | NoLogDirectory
    | DidNotSpawn
    | NeverExited
    | Succeeded(output: Option<Output>)
    | Failed(notice: Option<string>)

  /** A parsed reply. `json` is the serialized notification, absent also when serializing failed. */
  datatype Output = Output(wantsNotify: bool, json: Option<string>)

  /** What an execution did with the job's lock. Reading a TTL too long for a duration panics. */
  datatype LockUse = Panicked | SkippedFresh | NotWritten(damaged: bool) | Taken(removed: bool)

  /** What became of the run row: no row, a row some writes of which failed, or all written. */
  datatype RowUse = NoRow | Partial | Complete

  // ------------------------------------------------------------ own and others'

  /** The steps of one starter in a history of the lock protocol. */
  predicate LockStepOf(e: L.Event, x: L.Starter) {
    match e
    case Check(y, _) => y == x
    case WriteLock(y) => y == x
    case RefusedWrite(y, _) => y == x
    case EndRun(y, _) => y == x
    case DeleteSpecLock(_) => false
    case Pass(_) => false
  }

  function LockSteps(h: seq<L.Event>, x: L.Starter): seq<L.Event> {
    if h == [] then []
    else LockSteps(h[..|h| - 1], x) + (if LockStepOf(h[|h| - 1], x) then [h[|h| - 1]] else [])
  }

  lemma LockStepsAppend(h: seq<L.Event>, e: L.Event, x: L.Starter)
    ensures LockSteps(h + [e], x) == LockSteps(h, x) + (if LockStepOf(e, x) then [e] else [])
  {
    assert (h + [e])[..|h|] == h;
  }

  /** The steps on one run row in a history of the delivery protocol. */
  predicate RowStepOf(e: D.Event, id: RunId) {
    e.Executor? && e.exec.id == id
  }

  /** A row that has an executor is left alone by all others, but for a redirect of its target. */
  lemma OthersKeepOwnRow(s: D.State, e: D.Event, id: RunId)
    requires S.BaseInv(s) && D.Enabled(s, e) && !e.Restart? && !RowStepOf(e, id)
    ensures id in s.executors ==>
              var s' := D.Apply(s, e);
              && id in s'.executors && s'.executors[id] == s.executors[id]
              && id in s'.tables.runs && s'.tables.runs[id] == s.tables.runs[id].(target := s'.tables.runs[id].target)
    ensures id !in s.executors && id !in s.tables.runs ==>
              id !in D.Apply(s, e).executors && id !in D.Apply(s, e).tables.runs
  {
    match e
    case Tool(t) => assert D.ApplyTool(s, t).tables.runs.Keys == s.tables.runs.Keys;
    case Executor(x) =>
    case Loop(l) => LoopKeepsOwnRow(s, l, id);
  }

  lemma LoopKeepsOwnRow(s: D.State, e: D.LoopEvent, id: RunId)
    requires S.BaseInv(s) && D.LoopEnabled(s, e)
    ensures D.ApplyLoop(s, e).executors == s.executors
    ensures D.ApplyLoop(s, e).tables.runs.Keys == s.tables.runs.Keys
    ensures id in s.executors ==> id in s.tables.runs && D.ApplyLoop(s, e).tables.runs[id] == s.tables.runs[id]
  {
    if !e.SupersedeOlder? && !e.Mark? {
      assert D.ApplyLoop(s, e).tables == s.tables;
    }
  }

  /** The row of a run whose writes all went through: an independent reading of the program's outcomes. */
  function FinalRow(job: JobName, body: Body, finishedAt: Time, target: Target): Run {
    var news := News(body);
    Run(job, EndStatus(body), if body.NoLogDirectory? then None else Some(finishedAt), news, None,
        if Announces(body) then Pending else Silent, target)
  }

  function EndStatus(body: Body): RunStatus {
    match body
    case NoLogDirectory => Running
    case Succeeded(_) => Success
    case _ => RunStatus.Failed
  }

  function News(body: Body): Option<string> {
    match body
    case Succeeded(Some(o)) => if o.wantsNotify then o.json else None
    case Failed(notice) => notice
    case _ => None
  }

  predicate Announces(body: Body) {
    (body.Succeeded? && body.output.Some? && body.output.value.wantsNotify) || (body.Failed? && body.notice.Some?)
  }

  class Executor {
    const db: CronDb.Connection
    /** The lock files and the clock, with everyone who uses them. */
    var locks: L.State
    /** Everything in the delivery protocol but the tables, which are the connection's. */
    var rest: D.State

    constructor (db: CronDb.Connection, locks: L.State, rest: D.State)
      ensures this.db == db && this.locks == locks && this.rest == rest
    {
      this.db, this.locks, this.rest := db, locks, rest;
    }

    function View(): D.State
      reads this, db
    {
      rest.(tables := Tables(db.specs, db.runs))
    }

    /** `h` leads from `a` to the present lock files. */
    ghost predicate LockTrail(a: L.State, h: seq<L.Event>, ttl: L.Ttls)
      reads this
    {
      L.Possible(a, h, ttl) && L.After(a, h, ttl) == locks
    }

    /** `h` leads from `s` to the present tables. */
    ghost predicate Trail(s: D.State, h: seq<D.Event>)
      reads this, db
    {
      D.Possible(s, h) && D.Restart !in h && D.After(s, h) == View() && S.BaseInv(View())
    }

    /** Others use the lock files, and time passes. */
    method OthersLock(x: L.Starter, ttl: L.Ttls, ghost a: L.State, ghost h0: seq<L.Event>) returns (ghost h: seq<L.Event>)
      requires LockTrail(a, h0, ttl)
      modifies this`locks
      ensures LockTrail(a, h, ttl) && LockSteps(h, x) == LockSteps(h0, x)
      ensures x in locks.executions <==> x in old(locks).executions
      ensures x in locks.executions ==> locks.executions[x] == old(locks).executions[x]
    {
      h := h0;
      var rounds: nat :| true;
      for n := 0 to rounds
        invariant LockTrail(a, h, ttl) && LockSteps(h, x) == LockSteps(h0, x)
        invariant x in locks.executions <==> x in old(locks).executions
        invariant x in locks.executions ==> locks.executions[x] == old(locks).executions[x]
      {
        var e: L.Event := *;
        if !LockStepOf(e, x) && L.Enabled(locks, e, ttl) {
          h := DoLock(e, ttl, a, h, x);
        }
      }
    }

    method DoLock(e: L.Event, ttl: L.Ttls, ghost a: L.State, ghost h0: seq<L.Event>, ghost x: L.Starter)
      returns (ghost h: seq<L.Event>)
      requires LockTrail(a, h0, ttl) && L.Enabled(locks, e, ttl)
      modifies this`locks
      ensures LockTrail(a, h, ttl) && locks == L.Apply(old(locks), e, ttl)
      ensures LockSteps(h, x) == LockSteps(h0, x) + (if LockStepOf(e, x) then [e] else [])
    {
      L.Extend(a, h0, e, ttl);
      LockStepsAppend(h0, e, x);
      h := h0 + [e];
      locks := L.Apply(locks, e, ttl);
    }

    /** Others write to the tables. */
    method OthersWrite(id: RunId, ghost s: D.State, ghost h0: seq<D.Event>) returns (ghost h: seq<D.Event>)
      requires Trail(s, h0)
      modifies this`rest, db
      ensures Trail(s, h)
      ensures id in old(rest).executors ==>
                && id in rest.executors && rest.executors[id] == old(rest).executors[id]
                && id in db.runs && id in old(db.runs) && db.runs[id] == old(db.runs)[id].(target := db.runs[id].target)
      ensures id !in old(rest).executors && id !in old(db.runs) ==> id !in rest.executors && id !in db.runs
    {
      h := h0;
      var rounds: nat :| true;
      for n := 0 to rounds
        invariant Trail(s, h)
        invariant id in old(rest).executors ==>
                    && id in rest.executors && rest.executors[id] == old(rest).executors[id]
                    && id in db.runs && id in old(db.runs) && db.runs[id] == old(db.runs)[id].(target := db.runs[id].target)
        invariant id !in old(rest).executors && id !in old(db.runs) ==> id !in rest.executors && id !in db.runs
      {
        var e: D.Event := *;
        if !e.Restart? && !RowStepOf(e, id) && D.Enabled(View(), e) {
          OthersKeepOwnRow(View(), e, id);
          S.BaseStep(View(), e);
          D.Extend(s, h, e);
          h := h + [e];
          rest := D.Apply(View(), e);
          db.specs, db.runs := rest.tables.specs, rest.tables.runs;
        }
      }
    }

    /** What stands in the way of a start, if anything; a TTL is read only once a lock has been. */
    method ReadLock(job: JobName, stored: Option<string>, ghost ttl: L.Ttls) returns (blocked: Option<LockUse>)
      requires EffectiveTtl(stored).Some? ==> ttl(job) == EffectiveTtl(stored).value
      ensures blocked ==
              if !(job in locks.locks && locks.locks[job].Heartbeat?) then None
              else if EffectiveTtl(stored).None? then Some(Panicked)
              else if L.IsLockFresh(locks, job, ttl) then Some(SkippedFresh)
              else None
      ensures stored.None? ==>
                (blocked == Some(SkippedFresh) <==>
                 job in locks.locks && locks.locks[job].Heartbeat? && locks.now - locks.locks[job].at < 1800)
      ensures stored.None? ==> blocked != Some(Panicked)
    {
      DefaultIsHalfAnHour("");
      blocked := None;
      if job in locks.locks && locks.locks[job].Heartbeat? {
        var lease := EffectiveTtl(stored);
        if lease.None? {
          blocked := Some(Panicked);
        } else if locks.now - locks.locks[job].at < lease.value {
          blocked := Some(SkippedFresh);
        }
      }
    }

    /**
      Skipped on a fresh lock; otherwise check, write and removal are steps of the
      lock protocol among those of others, and the row steps are steps of the
      delivery protocol among those of others.
     */
    method ExecuteJob(x: L.Starter, job: JobName, spec: CronSpec, id: RunId, body: Body, finishedAt: Time, ttl: L.Ttls)
      returns (use: LockUse, row: RowUse, ghost lockSteps: seq<L.Event>, ghost h: seq<D.Event>)
      requires x !in locks.executions && id !in db.runs && id !in rest.executors && S.BaseInv(View())
      requires EffectiveTtl(spec.lockTtl).Some? ==> ttl(job) == EffectiveTtl(spec.lockTtl).value
      modifies this, db
      ensures LockTrail(old(locks), lockSteps, ttl) && Trail(old(View()), h)
      ensures use.Panicked? <==> job in old(locks).locks && old(locks).locks[job].Heartbeat? && EffectiveTtl(spec.lockTtl).None?
      ensures use.SkippedFresh? <==> old(L.IsLockFresh(locks, job, ttl)) && EffectiveTtl(spec.lockTtl).Some?
      ensures LockSteps(lockSteps, x) ==
              match use
              case Panicked => []
              case SkippedFresh => []
              case NotWritten(damaged) => [L.Check(x, job), L.RefusedWrite(x, damaged)]
              case Taken(removed) => [L.Check(x, job), L.WriteLock(x), L.EndRun(x, removed)]
      ensures !use.Taken? ==> row.NoRow?
      ensures row.NoRow? ==> id !in db.runs
      ensures row.Complete? ==> id in db.runs && db.runs[id] == FinalRow(job, body, finishedAt, db.runs[id].target)
    {
      var blocked := ReadLock(job, spec.lockTtl, ttl);
      if blocked.Some? {
        use, row, lockSteps, h := blocked.value, NoRow, [], [];
        return;
      }
      use, row, lockSteps, h := StartUnlocked(x, job, spec, id, body, finishedAt, ttl);
    }

    /** Past the check: wait, then write the lock, or give up if that fails. */
    method StartUnlocked(x: L.Starter, job: JobName, spec: CronSpec, id: RunId, body: Body, finishedAt: Time, ttl: L.Ttls)
      returns (use: LockUse, row: RowUse, ghost lockSteps: seq<L.Event>, ghost h: seq<D.Event>)
      requires x !in locks.executions && id !in db.runs && id !in rest.executors && S.BaseInv(View())
      requires !L.IsLockFresh(locks, job, ttl)
      modifies this, db
      ensures LockTrail(old(locks), lockSteps, ttl) && Trail(old(View()), h)
      ensures use.NotWritten? || use.Taken?
      ensures LockSteps(lockSteps, x) == if use.Taken? then [L.Check(x, job), L.WriteLock(x), L.EndRun(x, use.removed)]
                                         else [L.Check(x, job), L.RefusedWrite(x, use.damaged)]
      ensures !use.Taken? ==> row.NoRow?
      ensures row.NoRow? ==> id !in db.runs
      ensures row.Complete? ==> id in db.runs && db.runs[id] == FinalRow(job, body, finishedAt, db.runs[id].target)
    {
      ghost var a, s := locks, View();
      row := NoRow;
      lockSteps, h := Approach(x, job, id, ttl);
      var lockWritten: bool := *;
      if !lockWritten {
        var damaged: bool := *;
        lockSteps := DoLock(L.RefusedWrite(x, damaged), ttl, a, lockSteps, x);
        use := NotWritten(damaged);
        return;
      }
      var removed;
      removed, row, lockSteps, h := HoldLock(x, job, spec, id, body, finishedAt, ttl, a, lockSteps, s, h);
      use := Taken(removed);
    }

    /** The check, and the wait for the upgrade guard while others act. */
    method Approach(x: L.Starter, job: JobName, id: RunId, ttl: L.Ttls)
      returns (ghost lockSteps: seq<L.Event>, ghost h: seq<D.Event>)
      requires L.Enabled(locks, L.Check(x, job), ttl)
      requires id !in db.runs && id !in rest.executors && S.BaseInv(View())
      modifies this, db
      ensures LockTrail(old(locks), lockSteps, ttl) && LockSteps(lockSteps, x) == [L.Check(x, job)]
      ensures x in locks.executions && locks.executions[x] == L.Checked(job)
      ensures Trail(old(View()), h) && id !in db.runs && id !in rest.executors
    {
      ghost var a, s := locks, View();
      lockSteps := DoLock(L.Check(x, job), ttl, a, [], x);
      lockSteps := OthersLock(x, ttl, a, lockSteps);
      h := OthersWrite(id, s, []);
    }

    /** From the lock write to the end. The output is stored after the lock is gone. */
    method HoldLock(x: L.Starter, job: JobName, spec: CronSpec, id: RunId, body: Body, finishedAt: Time, ttl: L.Ttls,
                    ghost a: L.State, ghost lockSteps0: seq<L.Event>, ghost s: D.State, ghost h0: seq<D.Event>)
      returns (removed: bool, row: RowUse, ghost lockSteps: seq<L.Event>, ghost h: seq<D.Event>)
      requires x in locks.executions && locks.executions[x] == L.Checked(job) && LockTrail(a, lockSteps0, ttl)
      requires id !in db.runs && id !in rest.executors && Trail(s, h0)
      modifies this, db
      ensures LockTrail(a, lockSteps, ttl) && LockSteps(lockSteps, x) == LockSteps(lockSteps0, x) + [L.WriteLock(x), L.EndRun(x, removed)]
      ensures Trail(s, h)
      ensures row.NoRow? ==> id !in db.runs
      ensures row.Complete? ==> id in db.runs && db.runs[id] == FinalRow(job, body, finishedAt, db.runs[id].target)
    {
      lockSteps := DoLock(L.WriteLock(x), ttl, a, lockSteps0, x);
      row, h := RunLocked(job, spec, id, body, finishedAt, s, h0);
      lockSteps := OthersLock(x, ttl, a, lockSteps);
      removed := *;
      lockSteps := DoLock(L.EndRun(x, removed), ttl, a, lockSteps, x);
      if !row.NoRow? {
        h := OthersWrite(id, s, h);
        var persisted;
        persisted, h := PersistRow(id, body, s, h);
        row := if persisted then row else Partial;
      }
    }

    /** What happens while the lock is held: insert the row, run the body, finish the row. Without a row the body is not run. */
    method RunLocked(job: JobName, spec: CronSpec, id: RunId, body: Body, finishedAt: Time, ghost s: D.State, ghost h0: seq<D.Event>)
      returns (row: RowUse, ghost h: seq<D.Event>)
      requires Trail(s, h0) && id !in db.runs && id !in rest.executors
      modifies this`rest, db
      ensures Trail(s, h)
      ensures row.NoRow? ==> id !in db.runs && id !in rest.executors
      ensures !row.NoRow? ==> id in db.runs && id in rest.executors
      ensures row.Complete? ==> db.runs[id] == FinishedRow(job, body, finishedAt, db.runs[id].target)
    {
      h := h0;
      row := NoRow;
      var inserted := db.InsertRunningRun(id, job, spec);
      if inserted {
        h := Note(D.InsertRun(id, job, spec.target), s, h);
        h := OthersWrite(id, s, h);
        var finished;
        finished, h := FinishRow(id, body, finishedAt, s, h);
        row := if finished then Complete else Partial;
      }
    }

    /** Enters a statement already executed on the tables into the history. */
    method Note(e: D.ExecutorEvent, ghost s: D.State, ghost h0: seq<D.Event>) returns (ghost h: seq<D.Event>)
      requires D.Possible(s, h0) && D.Restart !in h0 && S.BaseInv(D.After(s, h0)) && D.ExecutorEnabled(D.After(s, h0), e)
      requires D.ApplyExecutor(D.After(s, h0), e).tables == Tables(db.specs, db.runs)
      requires D.After(s, h0) == rest.(tables := D.After(s, h0).tables)
      modifies this`rest
      ensures Trail(s, h) && h == h0 + [D.Executor(e)]
      ensures rest.executors == D.ApplyExecutor(D.After(s, h0), e).executors
    {
      D.Extend(s, h0, D.Executor(e));
      S.BaseStep(D.After(s, h0), D.Executor(e));
      h := h0 + [D.Executor(e)];
      rest := rest.(executors := match e
                                 case InsertRun(id, _, _) => rest.executors[id := D.Started]
                                 case FinishRun(id, _, _) => rest.executors[id := D.RowFinished]
                                 case PersistRun(id, _, _) => rest.executors - {id}
                                 case AbandonRun(id) => rest.executors - {id});
    }

    /** Nothing is written when the log directory could not be made. */
    method FinishRow(id: RunId, body: Body, finishedAt: Time, ghost s: D.State, ghost h0: seq<D.Event>)
      returns (ok: bool, ghost h: seq<D.Event>)
      requires Trail(s, h0) && id in db.runs && id in rest.executors && rest.executors[id].Started?
      modifies this`rest, db`runs
      ensures Trail(s, h) && id in db.runs && id in rest.executors
      ensures ok && !body.NoLogDirectory? ==>
                db.runs[id] == old(db.runs)[id].(status := EndStatus(body), finishedAt := Some(finishedAt))
      ensures !ok || body.NoLogDirectory? ==> db.runs == old(db.runs)
    {
      h := h0;
      ok := true;
      if !body.NoLogDirectory? {
        var status := if body.Succeeded? then Success else RunStatus.Failed;
        ok := db.FinishRun(id, finishedAt, status);
        if ok {
          h := Note(D.FinishRun(id, status, finishedAt), s, h);
        }
      }
    }

    /** A reply that was parsed and a failure that could be worded are persisted; anything else ends here. */
    method PersistRow(id: RunId, body: Body, ghost s: D.State, ghost h0: seq<D.Event>) returns (ok: bool, ghost h: seq<D.Event>)
      requires Trail(s, h0) && id in db.runs && id in rest.executors
      modifies this`rest, db`runs
      ensures Trail(s, h) && id in db.runs && id !in rest.executors
      ensures ok && Persists(body) ==>
                db.runs[id] == old(db.runs)[id].(notify := News(body), deliveryStatus := if Announces(body) then Pending else Silent)
      ensures !ok || !Persists(body) ==> db.runs == old(db.runs)
    {
      match body {
        case Succeeded(Some(output)) =>
          ok, h := StoreOutput(id, if output.wantsNotify then output.json else None,
                               if output.wantsNotify then Pending else Silent, s, h0);
        case Failed(Some(notice)) => ok, h := StoreOutput(id, Some(notice), Pending, s, h0);
        case _ =>
          ok := true;
          h := Abandon(id, s, h0);
      }
    }

    method Abandon(id: RunId, ghost s: D.State, ghost h0: seq<D.Event>) returns (ghost h: seq<D.Event>)
      requires Trail(s, h0) && id in db.runs && id in rest.executors
      modifies this`rest
      ensures Trail(s, h) && id !in rest.executors
    {
      h := Note(D.AbandonRun(id), s, h0);
    }

    /** One output write; if it fails the row is left as it is. */
    method StoreOutput(id: RunId, notify: Option<string>, mark: DeliveryStatus, ghost s: D.State, ghost h0: seq<D.Event>)
      returns (ok: bool, ghost h: seq<D.Event>)
      requires Trail(s, h0) && id in db.runs && id in rest.executors
      requires mark in {Pending, Silent} && (notify.Some? ==> mark == Pending)
      modifies this`rest, db`runs
      ensures Trail(s, h) && id in db.runs && id !in rest.executors
      ensures db.runs == if ok then PersistOutput(old(db.runs), id, notify, mark) else old(db.runs)
    {
      ok := db.PersistCronOutput(id, notify, mark);
      if ok {
        h := Note(D.PersistRun(id, notify, mark), s, h0);
      } else {
        h := Abandon(id, s, h0);
      }
    }
  }

  predicate Persists(body: Body) {
    (body.Succeeded? && body.output.Some?) || (body.Failed? && body.notice.Some?)
  }

  /** The row once the body is done and before its output is stored. */
  function FinishedRow(job: JobName, body: Body, finishedAt: Time, target: Target): Run {
    FinalRow(job, body, finishedAt, target).(notify := None, deliveryStatus := Silent)
  }

  /**
    An execution whose statements go through ends in success exactly if its body
    succeeded and in failed otherwise, except when the log directory could not be
    made, and leaves news exactly when a reply asked for it or a failure notice could
    be written: that reply or notice, marked as pending.
   */
  lemma CompleteExecutionOutcome(job: JobName, body: Body, finishedAt: Time, target: Target)
    ensures var row := FinalRow(job, body, finishedAt, target);
            && row.jobName == job && row.target == target && row.deliveredAt.None?
            && (row.status.Running? <==> body.NoLogDirectory?)
            && (row.status.Success? <==> body.Succeeded?)
            && row.finishedAt == (if body.NoLogDirectory? then None else Some(finishedAt))
            && (row.Awaiting() <==>
                  (body.Failed? && body.notice.Some?)
                  || (body.Succeeded? && body.output.Some? && body.output.value.wantsNotify && body.output.value.json.Some?))
            && (row.Awaiting() ==> row.notify == if body.Failed? then body.notice else body.output.value.json)
            && (!row.Awaiting() ==> row.notify.None?)
            && (row.deliveryStatus == Pending || row.deliveryStatus == Silent)
            && (row.deliveryStatus == Pending <==>
                  (body.Failed? && body.notice.Some?)
                  || (body.Succeeded? && body.output.Some? && body.output.value.wantsNotify))
  {
  }
}
