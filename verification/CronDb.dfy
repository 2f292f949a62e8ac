/**
  The database connection of the cron engine: two tables updated in place, one
  method per operation. Any statement may fail, and then it leaves the tables as
  they were.
 */
module CronDb {
  import opened Wrappers
  import opened Text
  import opened ScheduleCodec
  import opened CronTables

  /** The columns a delivery query returns. */
  datatype PendingCronResult = PendingCronResult(
    id: RunId, jobName: JobName, notify: string, status: RunStatus, target: Target)

  function PendingRow(runs: Runs, id: RunId): PendingCronResult
    requires id in runs && runs[id].Awaiting()
  {
    PendingCronResult(id, runs[id].jobName, runs[id].notify.value, runs[id].status, runs[id].target)
  }

  /** One entry of the SET list that a partial update builds. */
  datatype Assignment =
    | SetSchedule(schedule: string)
    | SetRunAt(runAt: Option<string>)
    | SetRecurring(recurring: int)
    | SetPrompt(prompt: string)
    | SetLockTtl(lockTtl: string)
    | SetBudget(budget: real)
    | SetChat(chat: int)
    | SetThread(thread: Option<int>)

  function Assign(row: SpecRow, a: Assignment): SpecRow {
    match a
    case SetSchedule(v) => row.(columns := row.columns.(schedule := v))
    case SetRunAt(v) => row.(columns := row.columns.(runAt := v))
    case SetRecurring(v) => row.(columns := row.columns.(recurring := v))
    case SetPrompt(v) => row.(prompt := v)
    case SetLockTtl(v) => row.(lockTtl := Some(v))
    case SetBudget(v) => row.(budget := v)
    case SetChat(v) => row.(target := row.target.(chat := Some(v)))
    case SetThread(v) => row.(target := row.target.(thread := v))
  }

  function AssignAll(row: SpecRow, sets: seq<Assignment>): SpecRow {
    if sets == [] then row else Assign(AssignAll(row, sets[..|sets| - 1]), sets[|sets| - 1])
  }

  lemma AssignAppend(row: SpecRow, sets: seq<Assignment>, a: Assignment)
    ensures AssignAll(row, sets + [a]) == Assign(AssignAll(row, sets), a)
  {
  }

  class Connection {
    var specs: Specs
    var runs: Runs

    constructor ()
      ensures specs == map[] && runs == map[]
    {
      specs, runs := map[], map[];
    }

    // -------------------------------------------------------------- cron_runs

    method InsertRunningRun(id: RunId, job: JobName, spec: CronSpec) returns (ok: bool)
      modifies this`runs
      ensures id in old(runs) ==> !ok
      ensures runs == if ok then InsertRunning(old(runs), id, job, spec.target) else old(runs)
    {
      ok := false;
      if id !in runs {
        if * {
          runs := runs[id := Run(job, Running, None, None, None, Silent, spec.target)];
          ok := true;
        }
      }
    }

    method FinishRun(id: RunId, now: Time, status: RunStatus) returns (ok: bool)
      modifies this`runs
      ensures runs == if ok then UpdateRunRecord(old(runs), id, now, status) else old(runs)
    {
      ok := *;
      if ok && id in runs {
        runs := runs[id := runs[id].(finishedAt := Some(now), status := status)];
      }
    }

    method PersistCronOutput(id: RunId, notify: Option<string>, status: DeliveryStatus) returns (ok: bool)
      modifies this`runs
      ensures runs == if ok then PersistOutput(old(runs), id, notify, status) else old(runs)
    {
      ok := *;
      if ok && id in runs {
        runs := runs[id := runs[id].(notify := notify, deliveryStatus := status)];
      }
    }

    /** The oldest awaiting run. Rows with equal finish times may come in any order. */
    method FetchPending() returns (ok: bool, pending: Option<PendingCronResult>)
      ensures ok && pending.Some? ==>
                IsOldestAwaiting(runs, pending.value.id) && pending.value == PendingRow(runs, pending.value.id)
      ensures ok && pending.None? ==> NothingAwaiting(runs)
      ensures ok && pending.Some? ==>
                var id := pending.value.id;
                && id in runs && runs[id].status != Running && runs[id].notify == Some(pending.value.notify)
                && runs[id].deliveredAt.None? && pending.value.target == runs[id].target
    {
      ok, pending := *, None;
      var ids := set id | id in runs && runs[id].Awaiting();
      if ids == {} {
        assert forall o :: o in runs && runs[o].Awaiting() ==> o in ids;
      } else {
        var _ := ExtremeExists(runs, ids, false);
        var id :| id in ids && forall o :: o in ids ==> runs[id].FinishKey() <= runs[o].FinishKey();
        pending := Some(PendingRow(runs, id));
      }
    }

    /** The latest awaiting run of the job. Rows with equal finish times may come in any order. */
    method SelectLatest(job: JobName) returns (ok: bool, latest: Option<PendingCronResult>)
      ensures ok && latest.None? ==> NothingAwaitingFor(runs, job)
      ensures ok && latest.Some? ==>
                IsLatestAwaiting(runs, job, latest.value.id) && latest.value == PendingRow(runs, latest.value.id)
    {
      ok, latest := *, None;
      var ids := set id | id in runs && runs[id].Awaiting() && runs[id].jobName == job;
      if ids == {} {
        assert forall o :: o in runs && runs[o].Awaiting() && runs[o].jobName == job ==> o in ids;
      } else {
        var _ := ExtremeExists(runs, ids, true);
        var id :| id in ids && forall o :: o in ids ==> runs[o].FinishKey() <= runs[id].FinishKey();
        latest := Some(PendingRow(runs, id));
      }
    }

    /** Marks the job's other awaiting runs superseded, and counts them. */
    method SupersedeOlder(job: JobName, keep: RunId, now: Time) returns (ok: bool, skipped: nat)
      modifies this`runs
      ensures !ok ==> runs == old(runs)
      ensures ok ==> runs == SupersedeOthers(old(runs), job, keep, now)
                     && skipped == |set o | o in old(runs) && Supersedable(old(runs), job, keep, o)|
    {
      ok, skipped := *, 0;
      if ok {
        var hit := set o | o in runs && Supersedable(runs, job, keep, o);
        runs := map o | o in runs ::
          if o in hit then runs[o].(deliveredAt := Some(now), deliveryStatus := Superseded) else runs[o];
        skipped := |hit|;
      }
    }

    /**
      Both statements with no other writer between them: keeps the latest awaiting
      run of the job, marks the others superseded, and counts them.
     */
    method DeduplicateJob(job: JobName, now: Time) returns (ok: bool, latest: Option<(PendingCronResult, nat)>)
      modifies this`runs
      ensures !ok ==> runs == old(runs)
      ensures ok && latest.None? ==> NothingAwaitingFor(runs, job) && runs == old(runs)
      ensures ok && latest.Some? ==>
                var id := latest.value.0.id;
                && IsLatestAwaiting(old(runs), job, id) && latest.value.0 == PendingRow(old(runs), id)
                && runs == SupersedeOthers(old(runs), job, id, now)
                && latest.value.1 == |set o | o in old(runs) && Supersedable(old(runs), job, id, o)|
    {
      var row;
      ok, row := SelectLatest(job);
      latest := None;
      if ok && row.Some? {
        var skipped;
        ok, skipped := SupersedeOlder(job, row.value.id, now);
        latest := Some((row.value, skipped));
      }
    }

    /** Settles a run. An error report does not exclude that the write took effect. */
    method MarkDeliveryOutcome(id: RunId, status: DeliveryStatus, now: Time) returns (reported: bool, ghost applied: bool)
      modifies this`runs
      ensures reported ==> applied
      ensures runs == if applied then MarkOutcome(old(runs), id, status, now) else old(runs)
    {
      reported := *;
      var took: bool := *;
      applied := reported || took;
      if (reported || took) && id in runs {
        runs := runs[id := runs[id].(deliveryStatus := status, deliveredAt := Some(now))];
      }
    }

    // ------------------------------------------------------------- cron_specs

    /** Validates, builds the SET list, and runs both updates in one transaction. */
    method UpdateSpecPartially(x: Readers, job: JobName, p: SpecPatch) returns (ok: bool)
      modifies this
      ensures ok ==> UpdateSpecPartial(x, Tables(old(specs), old(runs)), job, p) == Result.Ok(Tables(specs, runs))
      ensures !ok ==> specs == old(specs) && runs == old(runs)
    {
      ok := false;
      if !ValidJobName(job) || !p.Valid(x) || job !in specs {
        return;
      }
      var sets := BuildSetList(p, specs[job]);
      ok := *;
      if ok {
        var row := AssignAll(specs[job], sets);
        specs := specs[job := row];
        if p.chat.Some? || p.thread.Some? {
          runs := map id | id in runs ::
            if runs[id].jobName == job && runs[id].deliveredAt.None? then runs[id].(target := row.target) else runs[id];
          assert runs == Redirect(old(runs), job, row.target);
        }
      }
    }

    /** The SET list: the schedule columns first, then one entry for each column that was given. */
    static method BuildSetList(p: SpecPatch, ghost row: SpecRow) returns (sets: seq<Assignment>)
      requires !(p.schedule.Some? && p.runAt.Some?)
      ensures AssignAll(row, sets) == p.PatchRow(row)
    {
      sets := BuildScheduleSets(p, row);
      if p.prompt.Some? {
        sets := Push(row, sets, SetPrompt(p.prompt.value));
      }
      if p.lockTtl.Some? {
        sets := Push(row, sets, SetLockTtl(p.lockTtl.value));
      }
      if p.budget.Some? {
        sets := Push(row, sets, SetBudget(p.budget.value));
      }
      if p.chat.Some? {
        sets := Push(row, sets, SetChat(p.chat.value));
      }
      if p.thread.Some? {
        sets := Push(row, sets, SetThread(p.thread.value));
      }
    }

    static method BuildScheduleSets(p: SpecPatch, ghost row: SpecRow) returns (sets: seq<Assignment>)
      requires !(p.schedule.Some? && p.runAt.Some?)
      ensures AssignAll(row, sets) == row.(columns := p.PatchColumns(row.columns))
    {
      sets := [];
      if p.schedule.Some? {
        sets := Push(row, sets, SetSchedule(p.schedule.value));
        sets := Push(row, sets, SetRunAt(None));
        sets := Push(row, sets, SetRecurring(if p.recurring.GetOr(true) then 1 else 0));
      } else if p.runAt.Some? {
        sets := Push(row, sets, SetRunAt(p.runAt));
        sets := Push(row, sets, SetSchedule(""));
        sets := Push(row, sets, SetRecurring(0));
      } else if p.recurring.Some? {
        sets := Push(row, sets, SetRecurring(if p.recurring.value then 1 else 0));
      }
    }

    static method Push(ghost row: SpecRow, sets: seq<Assignment>, a: Assignment) returns (more: seq<Assignment>)
      ensures more == sets + [a]
      ensures AssignAll(row, more) == Assign(AssignAll(row, sets), a)
    {
      AssignAppend(row, sets, a);
      more := sets + [a];
    }

    method CreateSpecRow(x: Readers, job: JobName, q: CreateRequest) returns (ok: bool)
      modifies this`specs
      ensures ok ==> CreateSpecV2(x, old(specs), job, q) == Result.Ok(specs)
      ensures ok ==> job !in old(specs) && job in specs
                     && specs[job].prompt == q.prompt && specs[job].lockTtl == q.lockTtl && specs[job].triggeredAt.None?
                     && specs[job].target == q.target && specs[job].budget == if q.budget.Some? then q.budget.value else 5.0
      ensures !ok ==> specs == old(specs)
    {
      ok := false;
      if !ValidBody(job, q.prompt, q.lockTtl, q.budget) {
        return;
      }
      match ResolveScheduleFields(x, q.schedule, q.recurring, q.runAt, q.immediate)
      case Err(_) =>
      case Ok(columns) =>
        if job !in specs {
          ok := *;
          if ok {
            specs := specs[job := SpecRow(columns, q.prompt, q.lockTtl, q.budget.GetOr(DEFAULT_CRON_BUDGET), None, q.target)];
          }
        }
    }

    method Trigger(job: JobName, now: Time) returns (ok: bool)
      modifies this`specs
      ensures ok ==> job in old(specs)
      ensures specs == if ok then TriggerSpec(old(specs), job, now) else old(specs)
    {
      ok := false;
      if job in specs {
        ok := *;
        if ok {
          specs := specs[job := specs[job].(triggeredAt := Some(now))];
        }
      }
    }

    /** `fails` is the database's choice. */
    method ClearTrigger(job: JobName, fails: bool) returns (ok: bool)
      modifies this`specs
      ensures ok == !fails
      ensures specs == if fails then old(specs) else ClearTriggeredAt(old(specs), job)
    {
      ok := !fails;
      if ok && job in specs {
        specs := specs[job := specs[job].(triggeredAt := None)];
      }
    }

    method Delete(job: JobName) returns (ok: bool)
      modifies this`specs
      ensures ok ==> job in old(specs)
      ensures specs == if ok then DeleteSpec(old(specs), job) else old(specs)
    {
      ok := false;
      if job in specs {
        ok := *;
        if ok {
          specs := specs - {job};
        }
      }
    }

    /** Reads the whole table row by row, skipping rows that do not decode. */
    method Load(x: Readers) returns (loaded: map<JobName, CronSpec>)
      ensures loaded == LoadSpecs(x, specs)
    {
      loaded := map[];
      var left := specs.Keys;
      while left != {}
        invariant left <= specs.Keys
        invariant loaded.Keys == set job | job in specs && job !in left && LoadRow(x, specs[job]).Some?
        invariant forall job :: job in loaded ==> loaded[job] == LoadRow(x, specs[job]).value
        decreases left
      {
        var job :| job in left;
        left := left - {job};
        match FromDbRow(x, specs[job].columns)
        case Err(_) =>
        case Ok(kind) =>
          var row := specs[job];
          loaded := loaded[job := CronSpec(kind, row.prompt, row.lockTtl, row.budget, row.triggeredAt, row.target)];
      }
    }
  }
}
