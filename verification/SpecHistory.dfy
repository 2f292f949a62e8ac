/** What every history of spec writes keeps true of the schedule columns. */
module SpecHistory {
  import opened Wrappers
  import opened ScheduleCodec
  import opened CronTables
  import opened LegacyMigration

  /** Everything that writes cron_specs, except the first update path, which is treated below. */
  datatype SpecWrite =
    | Create(job: JobName, request: CreateRequest)
    | CreateRecurring(job: JobName, schedule: string, prompt: string, lockTtl: Option<string>, budget: Option<real>)
    | Background(job: JobName, prompt: string, forkFrom: Uuid, chat: int, thread: Option<int>, budget: Option<real>)
    | Patch(job: JobName, patch: SpecPatch)
    | TriggerRow(job: JobName, now: Time)
    | ClearRow(job: JobName)
    | DeleteRow(job: JobName)
    | MigrateRows

  /** A refused write leaves the table alone. */
  function Write(x: Readers, specs: Specs, w: SpecWrite): Specs {
    match w
    case Create(job, q) => OrElse(CreateSpecV2(x, specs, job, q), specs)
    case CreateRecurring(job, s, p, ttl, b) => OrElse(CreateSpec(x, specs, job, s, p, ttl, b), specs)
    case Background(job, p, u, chat, thread, b) =>
      OrElse(InsertBackgroundContinuation(x, specs, job, p, u, chat, thread, b), specs)
    case Patch(job, p) =>
      (match UpdateSpecPartial(x, Tables(specs, map[]), job, p) case Ok(t) => t.specs case Err(_) => specs)
    case TriggerRow(job, now) => TriggerSpec(specs, job, now)
    case ClearRow(job) => ClearTriggeredAt(specs, job)
    case DeleteRow(job) => DeleteSpec(specs, job)
    case MigrateRows => Migrate(x, specs)
  }

  function OrElse(r: Result<Specs>, specs: Specs): Specs {
    if r.Ok? then r.value else specs
  }

  function WriteAll(x: Readers, specs: Specs, ws: seq<SpecWrite>): Specs {
    if ws == [] then specs else Write(x, WriteAll(x, specs, ws[..|ws| - 1]), ws[|ws| - 1])
  }

  /**
    The row decodes, an empty schedule goes with a run time and only with one,
    and a job loop given its expression will be able to parse it.
   */
  predicate RowDecodes(x: Readers, c: Columns) {
    && FromDbRow(x, c).Ok?
    && (c.schedule == "" <==> c.runAt.Some?)
    && (FromDbRow(x, c).value.HasCronExpression() ==> x.cronParses(ToSevenField(FromDbRow(x, c).value.expr)))
  }

  ghost predicate AllRowsDecode(x: Readers, specs: Specs) {
    forall job :: job in specs ==> RowDecodes(x, specs[job].columns)
  }

  /** What a partial update makes of the decoded kind. */
  function PatchedKind(x: Readers, k: ScheduleKind, p: SpecPatch): ScheduleKind
    requires p.Valid(x)
  {
    if p.schedule.Some? then
      if p.recurring == Some(false) then OneShotCron(p.schedule.value) else Recurring(p.schedule.value)
    else if p.runAt.Some? then RunAt(x.parseTime(p.runAt.value).value)
    else if p.recurring.Some? && k.HasCronExpression() then
      if p.recurring.value then Recurring(k.expr) else OneShotCron(k.expr)
    else k
  }

  /** A partial update changes the decoded kind as asked, and only if asked. */
  lemma PatchDecodes(x: Readers, c: Columns, p: SpecPatch)
    requires Sound(x) && RowDecodes(x, c) && p.Valid(x)
    ensures RowDecodes(x, p.PatchColumns(c))
    ensures FromDbRow(x, p.PatchColumns(c)) == Result.Ok(PatchedKind(x, FromDbRow(x, c).value, p))
  {
  }

  lemma RequestDecodes(x: Readers, q: CreateRequest)
    requires Sound(x)
    requires ResolveScheduleFields(x, q.schedule, q.recurring, q.runAt, q.immediate).Ok?
    ensures RowDecodes(x, ResolveScheduleFields(x, q.schedule, q.recurring, q.runAt, q.immediate).value)
  {
    ResolvedRequestDecodes(x, q.schedule, q.recurring, q.runAt, q.immediate);
    if q.schedule.Some? {
      ValidScheduleIsNoSentinel(x, q.schedule.value);
    }
  }

  lemma RecurringDecodes(x: Readers, s: string)
    requires Sound(x) && ValidSchedule(x, s)
    ensures RowDecodes(x, Columns(s, None, 1))
  {
  }

  lemma MigrateDecodes(x: Readers, row: SpecRow)
    requires Sound(x) && RowDecodes(x, row.columns)
    ensures RowDecodes(x, MigrateRow(x, row).columns)
  {
  }

  lemma WriteKeepsDecoding(x: Readers, specs: Specs, w: SpecWrite)
    requires Sound(x) && AllRowsDecode(x, specs)
    ensures AllRowsDecode(x, Write(x, specs, w))
  {
    match w
    case Create(job, q) => CreateKeepsDecoding(x, specs, job, q);
    case CreateRecurring(_, _, _, _, _) => RecurringKeepsDecoding(x, specs, w);
    case Background(_, _, _, _, _, _) => BackgroundKeepsDecoding(x, specs, w);
    case Patch(job, p) => PatchKeepsDecoding(x, specs, job, p);
    case TriggerRow(job, now) =>
    case ClearRow(job) =>
    case DeleteRow(job) =>
    case MigrateRows => MigrationKeepsDecoding(x, specs, w);
  }

  lemma RecurringKeepsDecoding(x: Readers, specs: Specs, w: SpecWrite)
    requires Sound(x) && AllRowsDecode(x, specs) && w.CreateRecurring?
    ensures AllRowsDecode(x, Write(x, specs, w))
  {
    if ValidSchedule(x, w.schedule) {
      RecurringDecodes(x, w.schedule);
    }
  }

  lemma BackgroundKeepsDecoding(x: Readers, specs: Specs, w: SpecWrite)
    requires Sound(x) && AllRowsDecode(x, specs) && w.Background?
    ensures AllRowsDecode(x, Write(x, specs, w))
  {
    StoredKindDecodes(x, BackgroundContinuation(w.forkFrom));
  }

  lemma CreateKeepsDecoding(x: Readers, specs: Specs, job: JobName, q: CreateRequest)
    requires Sound(x) && AllRowsDecode(x, specs)
    ensures AllRowsDecode(x, Write(x, specs, Create(job, q)))
  {
    if ResolveScheduleFields(x, q.schedule, q.recurring, q.runAt, q.immediate).Ok? {
      RequestDecodes(x, q);
    }
  }

  lemma PatchKeepsDecoding(x: Readers, specs: Specs, job: JobName, p: SpecPatch)
    requires Sound(x) && AllRowsDecode(x, specs)
    ensures AllRowsDecode(x, Write(x, specs, Patch(job, p)))
  {
    if job in specs && p.Valid(x) {
      PatchDecodes(x, specs[job].columns, p);
    }
  }

  lemma MigrationKeepsDecoding(x: Readers, specs: Specs, w: SpecWrite)
    requires Sound(x) && AllRowsDecode(x, specs) && w.MigrateRows?
    ensures AllRowsDecode(x, Write(x, specs, w))
  {
    forall job | job in specs
      ensures RowDecodes(x, MigrateRow(x, specs[job]).columns)
    {
      MigrateDecodes(x, specs[job]);
    }
  }

  /** Over any history of writes from an empty table every row decodes, and none is skipped when specs are loaded. */
  lemma {:induction false} HistoriesDecode(x: Readers, ws: seq<SpecWrite>)
    requires Sound(x)
    ensures AllRowsDecode(x, WriteAll(x, map[], ws))
    ensures LoadSpecs(x, WriteAll(x, map[], ws)).Keys == WriteAll(x, map[], ws).Keys
  {
    if ws != [] {
      HistoriesDecode(x, ws[..|ws| - 1]);
      WriteKeepsDecoding(x, WriteAll(x, map[], ws[..|ws| - 1]), ws[|ws| - 1]);
    }
  }

  /**
    The first update path is outside this history: the schedule it is given takes
    effect exactly when the row had no run time. Otherwise the row keeps firing
    at its run time, beside a schedule that is never read.
   */
  lemma FirstUpdatePathTakesEffectIff(x: Readers, specs: Specs, job: JobName, schedule: string, prompt: string,
                                      lockTtl: Option<string>, budget: Option<real>)
    requires Sound(x) && job in specs && RowDecodes(x, specs[job].columns)
    requires UpdateSpec(x, specs, job, schedule, prompt, lockTtl, budget).Ok?
    ensures var kind := FromDbRow(x, UpdateSpec(x, specs, job, schedule, prompt, lockTtl, budget).value[job].columns);
            && ((kind.Ok? && kind.value in {Recurring(schedule), OneShotCron(schedule)}) <==> specs[job].columns.runAt.None?)
            && (specs[job].columns.runAt.Some? ==> kind == FromDbRow(x, specs[job].columns))
  {
  }
}
