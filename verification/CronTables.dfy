/**
  The cron_specs and cron_runs tables, and what each SQL statement of the cron
  engine does to them, as functions on values. `CronDb` executes these
  statements in place; the protocol modules interleave them.
 */
module CronTables {
  import opened Wrappers
  import opened Text
  import opened ScheduleCodec
  import opened LockTtl

  type JobName = string
  type RunId = string

  /** Timestamps as stored: ordered, compared by the ORDER BY clauses. */
  type Time = nat

  datatype Target = Target(chat: Option<int>, thread: Option<int>)

  datatype RunStatus = Running | Success | Failed

  /** `GaveUp` is the outcome the program stores as 'failed'. */
  datatype DeliveryStatus = Pending | Silent | Superseded | Delivered | Denied | NoTarget | GaveUp

  datatype Run = Run(
    jobName: JobName,
    status: RunStatus,
    finishedAt: Option<Time>,
    notify: Option<string>,
    deliveredAt: Option<Time>,
    deliveryStatus: DeliveryStatus,
    target: Target)
  {
    predicate Settled() {
      deliveredAt.Some?
    }

    /** Carries news for a chat: finished with a notification. */
    predicate IsNews() {
      status != Running && notify.Some?
    }

    /** The WHERE clause shared by the delivery queries. */
    predicate Awaiting() {
      IsNews() && !Settled()
    }

    /** Position under ORDER BY finished_at; SQL sorts NULL first. */
    function FinishKey(): int {
      if finishedAt.Some? then finishedAt.value else -1
    }
  }

  type Runs = map<RunId, Run>

  datatype SpecRow = SpecRow(
    columns: Columns,
    prompt: string,
    lockTtl: Option<string>,
    budget: real,
    triggeredAt: Option<Time>,
    target: Target)

  type Specs = map<JobName, SpecRow>

  datatype Tables = Tables(specs: Specs, runs: Runs)

  // ---------------------------------------------------------------- cron_runs

  /** INSERT with status 'running'; the insert trigger fills the delivery status of a row without a notification. */
  function InsertRunning(runs: Runs, id: RunId, job: JobName, target: Target): Runs {
    runs[id := Run(job, Running, None, None, None, Silent, target)]
  }

  function UpdateRunRecord(runs: Runs, id: RunId, now: Time, status: RunStatus): Runs {
    if id in runs then runs[id := runs[id].(finishedAt := Some(now), status := status)] else runs
  }

  function PersistOutput(runs: Runs, id: RunId, notify: Option<string>, status: DeliveryStatus): Runs {
    if id in runs then runs[id := runs[id].(notify := notify, deliveryStatus := status)] else runs
  }

  function MarkOutcome(runs: Runs, id: RunId, status: DeliveryStatus, now: Time): Runs {
    if id in runs then runs[id := runs[id].(deliveryStatus := status, deliveredAt := Some(now))] else runs
  }

  predicate IsOldestAwaiting(runs: Runs, id: RunId) {
    && id in runs && runs[id].Awaiting()
    && forall o :: o in runs && runs[o].Awaiting() ==> runs[id].FinishKey() <= runs[o].FinishKey()
  }

  predicate IsLatestAwaiting(runs: Runs, job: JobName, id: RunId) {
    && id in runs && runs[id].Awaiting() && runs[id].jobName == job
    && forall o :: o in runs && runs[o].Awaiting() && runs[o].jobName == job
         ==> runs[o].FinishKey() <= runs[id].FinishKey()
  }

  predicate NothingAwaiting(runs: Runs) {
    forall o :: o in runs ==> !runs[o].Awaiting()
  }

  predicate NothingAwaitingFor(runs: Runs, job: JobName) {
    forall o :: o in runs && runs[o].jobName == job ==> !runs[o].Awaiting()
  }

  /** Some awaiting row comes first under ORDER BY finished_at, in either direction. */
  lemma {:induction false} ExtremeExists(runs: Runs, ids: set<RunId>, descending: bool) returns (id: RunId)
    requires ids != {} && ids <= runs.Keys
    ensures id in ids
    ensures forall o :: o in ids ==>
              if descending then runs[o].FinishKey() <= runs[id].FinishKey() else runs[id].FinishKey() <= runs[o].FinishKey()
  {
    id :| id in ids;
    if ids != {id} {
      var rest := ExtremeExists(runs, ids - {id}, descending);
      if if descending then runs[rest].FinishKey() > runs[id].FinishKey() else runs[rest].FinishKey() < runs[id].FinishKey() {
        id := rest;
      }
    }
  }

  /** Rows the dedup UPDATE hits. */
  predicate Supersedable(runs: Runs, job: JobName, keep: RunId, id: RunId) {
    id in runs && id != keep && runs[id].jobName == job && runs[id].Awaiting()
  }

  function SupersedeOthers(runs: Runs, job: JobName, keep: RunId, now: Time): Runs {
    map id | id in runs ::
      if Supersedable(runs, job, keep, id)
      then runs[id].(deliveredAt := Some(now), deliveryStatus := Superseded)
      else runs[id]
  }

  /** The propagation UPDATE of a target change: every row of the job without a delivery time. */
  function Redirect(runs: Runs, job: JobName, target: Target): Runs {
    map id | id in runs ::
      if runs[id].jobName == job && !runs[id].Settled() then runs[id].(target := target) else runs[id]
  }

  // --------------------------------------------------------------- cron_specs

  datatype CreateRequest = CreateRequest(
    schedule: Option<string>,
    recurring: Option<bool>,
    runAt: Option<string>,
    immediate: bool,
    prompt: string,
    lockTtl: Option<string>,
    budget: Option<real>,
    target: Target)

  const DEFAULT_CRON_BUDGET: real := 5.0

  predicate ValidBody(job: JobName, prompt: string, lockTtl: Option<string>, budget: Option<real>) {
    && ValidJobName(job)
    && Trim(prompt) != ""
    && (lockTtl.Some? ==> ValidateLockTtl(lockTtl.value))
    && (budget.Some? ==> budget.value > 0.0)
  }

  function CreateSpecV2(x: Readers, specs: Specs, job: JobName, q: CreateRequest): Result<Specs> {
    if !ValidBody(job, q.prompt, q.lockTtl, q.budget) then Err("invalid spec")
    else
      match ResolveScheduleFields(x, q.schedule, q.recurring, q.runAt, q.immediate)
      case Err(e) => Err(e)
      case Ok(columns) =>
        if job in specs then Err("job already exists")
        else Ok(specs[job := SpecRow(columns, q.prompt, q.lockTtl, q.budget.GetOr(DEFAULT_CRON_BUDGET), None, q.target)])
  }

  /** The first create path: recurring cron text only, column defaults for the rest. */
  function CreateSpec(x: Readers, specs: Specs, job: JobName, schedule: string, prompt: string,
                      lockTtl: Option<string>, budget: Option<real>): Result<Specs>
  {
    if !(ValidBody(job, prompt, lockTtl, budget) && ValidSchedule(x, schedule)) then Err("invalid spec")
    else if job in specs then Err("job already exists")
    else
      var columns := Columns(schedule, None, 1);
      Ok(specs[job := SpecRow(columns, prompt, lockTtl, budget.GetOr(DEFAULT_CRON_BUDGET), None, Target(None, None))])
  }

  /** The first update path: it rewrites `schedule` and leaves `run_at` and `recurring` alone. */
  function UpdateSpec(x: Readers, specs: Specs, job: JobName, schedule: string, prompt: string,
                      lockTtl: Option<string>, budget: Option<real>): Result<Specs>
  {
    if !(ValidBody(job, prompt, lockTtl, budget) && ValidSchedule(x, schedule)) then Err("invalid spec")
    else if job !in specs then Err("job not found")
    else
      Ok(specs[job := specs[job].(columns := specs[job].columns.(schedule := schedule), prompt := prompt,
                                  lockTtl := lockTtl, budget := budget.GetOr(DEFAULT_CRON_BUDGET))])
  }

  function InsertBackgroundContinuation(x: Readers, specs: Specs, job: JobName, prompt: string, forkFrom: Uuid,
                                        chat: int, thread: Option<int>, budget: Option<real>): Result<Specs>
  {
    if !ValidBody(job, prompt, None, budget) then Err("invalid spec")
    else if job in specs then Err("job already exists")
    else
      var columns := Columns(BG_SENTINEL_PREFIX + x.printUuid(forkFrom), None, 0);
      Ok(specs[job := SpecRow(columns, prompt, Some(IMMEDIATE_DEFAULT_LOCK_TTL), budget.GetOr(DEFAULT_CRON_BUDGET),
                              None, Target(Some(chat), thread))])
  }

  /** Arguments of a partial update; `thread` distinguishes "leave" from "clear". */
  datatype SpecPatch = SpecPatch(
    schedule: Option<string>,
    runAt: Option<string>,
    recurring: Option<bool>,
    prompt: Option<string>,
    lockTtl: Option<string>,
    budget: Option<real>,
    chat: Option<int>,
    thread: Option<Option<int>>)
  {
    predicate IsEmpty() {
      schedule.None? && runAt.None? && recurring.None? && prompt.None? && lockTtl.None? && budget.None? && !ChangesTarget()
    }

    predicate ChangesTarget() {
      chat.Some? || thread.Some?
    }

    predicate Valid(x: Readers) {
      && !IsEmpty()
      && !(schedule.Some? && runAt.Some?)
      && (schedule.Some? ==> ValidSchedule(x, schedule.value))
      && (runAt.Some? ==> x.parseTime(runAt.value).Some?)
      && (prompt.Some? ==> Trim(prompt.value) != "")
      && (lockTtl.Some? ==> ValidateLockTtl(lockTtl.value))
      && (budget.Some? ==> budget.value > 0.0)
    }

    function PatchColumns(c: Columns): Columns {
      if schedule.Some? then Columns(schedule.value, None, if recurring.GetOr(true) then 1 else 0)
      else if runAt.Some? then Columns("", runAt, 0)
      else if recurring.Some? then c.(recurring := if recurring.value then 1 else 0)
      else c
    }

    function PatchTarget(t: Target): Target {
      Target(if chat.Some? then chat else t.chat, thread.GetOr(t.thread))
    }

    function PatchRow(row: SpecRow): SpecRow {
      SpecRow(PatchColumns(row.columns), prompt.GetOr(row.prompt),
              if lockTtl.Some? then lockTtl else row.lockTtl,
              budget.GetOr(row.budget), row.triggeredAt, PatchTarget(row.target))
    }
  }

  /** One transaction: the spec row, and with a target change the undelivered runs too. */
  function UpdateSpecPartial(x: Readers, t: Tables, job: JobName, p: SpecPatch): Result<Tables> {
    if !(ValidJobName(job) && p.Valid(x)) then Err("invalid update")
    else if job !in t.specs then Err("job not found")
    else
      var row := p.PatchRow(t.specs[job]);
      Ok(Tables(t.specs[job := row], if p.ChangesTarget() then Redirect(t.runs, job, row.target) else t.runs))
  }

  function TriggerSpec(specs: Specs, job: JobName, now: Time): Specs {
    if job in specs then specs[job := specs[job].(triggeredAt := Some(now))] else specs
  }

  function ClearTriggeredAt(specs: Specs, job: JobName): Specs {
    if job in specs then specs[job := specs[job].(triggeredAt := None)] else specs
  }

  function DeleteSpec(specs: Specs, job: JobName): Specs {
    specs - {job}
  }

  /** A spec as loaded: the schedule decoded, everything else carried over. */
  datatype CronSpec = CronSpec(
    kind: ScheduleKind,
    prompt: string,
    lockTtl: Option<string>,
    budget: real,
    triggeredAt: Option<Time>,
    target: Target)
  {
    /** Equality as the reconciler sees it: every field but the trigger time. */
    predicate SameConfig(o: CronSpec) {
      && kind == o.kind && prompt == o.prompt && lockTtl == o.lockTtl
      && budget == o.budget && target == o.target
    }
  }

  /** That equality leaves out the trigger time and nothing else. */
  lemma SameConfigIff(a: CronSpec, b: CronSpec)
    ensures a.SameConfig(b) <==> a.(triggeredAt := None) == b.(triggeredAt := None)
  {
  }

  function LoadRow(x: Readers, row: SpecRow): Option<CronSpec> {
    match FromDbRow(x, row.columns)
    case Ok(k) => Some(CronSpec(k, row.prompt, row.lockTtl, row.budget, row.triggeredAt, row.target))
    case Err(_) => None
  }

  /** Rows that do not decode are skipped. */
  function LoadSpecs(x: Readers, specs: Specs): map<JobName, CronSpec> {
    map job | job in specs && LoadRow(x, specs[job]).Some? :: LoadRow(x, specs[job]).value
  }
}
