/**
  What each write of a spec comes to for whoever loads the table afterwards: which
  requests are accepted, and every field of the spec they leave.
 */
module SpecWrites {
  import opened Wrappers
  import opened Text
  import opened LockTtl
  import opened ScheduleCodec
  import opened CronTables
  import opened SpecHistory

  /** Only this job's row differs. */
  predicate OnlyJob(before: Specs, after: Specs, job: JobName) {
    after.Keys == before.Keys + {job} && forall o :: o in before && o != job ==> after[o] == before[o]
  }

  /** Exactly these requests are accepted. */
  lemma CreateIsAcceptedIff(x: Readers, specs: Specs, job: JobName, q: CreateRequest)
    requires Sound(x)
    ensures CreateSpecV2(x, specs, job, q).Ok? <==>
            && ValidJobName(job) && job !in specs && Trim(q.prompt) != ""
            && (q.lockTtl.Some? ==> ValidateLockTtl(q.lockTtl.value))
            && (q.budget.Some? ==> q.budget.value > 0.0)
            && Meant(x, q.schedule, q.recurring, q.runAt, q.immediate).Some?
  {
    ResolvedRequestDecodes(x, q.schedule, q.recurring, q.runAt, q.immediate);
  }

  /** An accepted request adds this job, and it loads as the spec that was asked for. */
  lemma CreatedSpecReads(x: Readers, specs: Specs, job: JobName, q: CreateRequest)
    requires Sound(x) && CreateSpecV2(x, specs, job, q).Ok?
    ensures var after := CreateSpecV2(x, specs, job, q).value;
            && job !in specs && OnlyJob(specs, after, job)
            && var kind := Meant(x, q.schedule, q.recurring, q.runAt, q.immediate);
               kind.Some?
               && LoadRow(x, after[job]) ==
                  Some(CronSpec(kind.value, q.prompt, q.lockTtl, if q.budget.Some? then q.budget.value else 5.0, None, q.target))
  {
    ResolvedRequestDecodes(x, q.schedule, q.recurring, q.runAt, q.immediate);
  }

  /** The first create path: a recurring job without a target. */
  lemma FirstCreateReads(x: Readers, specs: Specs, job: JobName, schedule: string, prompt: string,
                         lockTtl: Option<string>, budget: Option<real>)
    requires Sound(x)
    ensures var r := CreateSpec(x, specs, job, schedule, prompt, lockTtl, budget);
            && (r.Ok? <==>
                && ValidJobName(job) && job !in specs && Trim(prompt) != "" && ValidSchedule(x, schedule)
                && (lockTtl.Some? ==> ValidateLockTtl(lockTtl.value)) && (budget.Some? ==> budget.value > 0.0))
            && (r.Ok? ==>
                  OnlyJob(specs, r.value, job) && r.value[job].columns == Columns(schedule, None, 1)
                  && LoadRow(x, r.value[job]) ==
                     Some(CronSpec(Recurring(schedule), prompt, lockTtl, if budget.Some? then budget.value else 5.0, None,
                                   Target(None, None))))
  {
    if ValidSchedule(x, schedule) {
      ValidScheduleIsNoSentinel(x, schedule);
      SentinelsAreDistinct(schedule);
    }
  }

  /** A background continuation: its session, its chat and thread, and a lease of six hours. */
  lemma BackgroundReads(x: Readers, specs: Specs, job: JobName, prompt: string, forkFrom: Uuid,
                        chat: int, thread: Option<int>, budget: Option<real>)
    requires Sound(x)
    ensures var r := InsertBackgroundContinuation(x, specs, job, prompt, forkFrom, chat, thread, budget);
            && (r.Ok? <==>
                && ValidJobName(job) && job !in specs && Trim(prompt) != "" && (budget.Some? ==> budget.value > 0.0))
            && (r.Ok? ==>
                  OnlyJob(specs, r.value, job)
                  && r.value[job].columns == Columns("@bg:" + x.printUuid(forkFrom), None, 0)
                  && LoadRow(x, r.value[job]) ==
                     Some(CronSpec(BackgroundContinuation(forkFrom), prompt, Some("6h"),
                                   if budget.Some? then budget.value else 5.0, None, Target(Some(chat), thread)))
                  && EffectiveTtl(r.value[job].lockTtl) == Some(6 * 3600))
  {
    StoredKindDecodes(x, BackgroundContinuation(forkFrom));
    SixHours();
  }

  lemma SixHours()
    ensures EffectiveTtl(Some("6h")) == Some(6 * 3600)
  {
    MinutesAndHours(6);
    assert Decimal(6) + "h" == "6h";
  }

  /** The first update path rewrites everything but the run time, the flag, the trigger and the target. */
  lemma FirstUpdateReads(x: Readers, specs: Specs, job: JobName, schedule: string, prompt: string,
                         lockTtl: Option<string>, budget: Option<real>)
    requires UpdateSpec(x, specs, job, schedule, prompt, lockTtl, budget).Ok?
    ensures var after := UpdateSpec(x, specs, job, schedule, prompt, lockTtl, budget).value;
            && job in specs && OnlyJob(specs, after, job) && after.Keys == specs.Keys
            && after[job].columns == Columns(schedule, specs[job].columns.runAt, specs[job].columns.recurring)
            && after[job].prompt == prompt && after[job].lockTtl == lockTtl
            && after[job].budget == (if budget.Some? then budget.value else 5.0)
            && after[job].triggeredAt == specs[job].triggeredAt && after[job].target == specs[job].target
  {
  }

  /** Exactly these partial updates are accepted. */
  lemma PatchIsAcceptedIff(x: Readers, t: Tables, job: JobName, p: SpecPatch)
    ensures UpdateSpecPartial(x, t, job, p).Ok? <==>
            && ValidJobName(job) && job in t.specs
            && p != SpecPatch(None, None, None, None, None, None, None, None)
            && (p.schedule.None? || p.runAt.None?)
            && (p.schedule.Some? ==> ValidSchedule(x, p.schedule.value))
            && (p.runAt.Some? ==> x.parseTime(p.runAt.value).Some?)
            && (p.prompt.Some? ==> Trim(p.prompt.value) != "")
            && (p.lockTtl.Some? ==> ValidateLockTtl(p.lockTtl.value))
            && (p.budget.Some? ==> p.budget.value > 0.0)
  {
  }

  /** What a partial update leaves: every field given is the new one, every other the old one. */
  predicate Patched(x: Readers, old_: CronSpec, new_: CronSpec, p: SpecPatch) {
    && (p.prompt.Some? ==> new_.prompt == p.prompt.value) && (p.prompt.None? ==> new_.prompt == old_.prompt)
    && (p.lockTtl.Some? ==> new_.lockTtl == p.lockTtl) && (p.lockTtl.None? ==> new_.lockTtl == old_.lockTtl)
    && (p.budget.Some? ==> new_.budget == p.budget.value) && (p.budget.None? ==> new_.budget == old_.budget)
    && (p.chat.Some? ==> new_.target.chat == p.chat) && (p.chat.None? ==> new_.target.chat == old_.target.chat)
    && (p.thread.Some? ==> new_.target.thread == p.thread.value)
    && (p.thread.None? ==> new_.target.thread == old_.target.thread)
    && new_.triggeredAt == old_.triggeredAt
    && (p.schedule.Some? && p.recurring == Some(false) ==> new_.kind == OneShotCron(p.schedule.value))
    && (p.schedule.Some? && p.recurring != Some(false) ==> new_.kind == Recurring(p.schedule.value))
    && (p.schedule.None? && p.runAt.Some? ==> new_.kind.RunAt? && Some(new_.kind.at) == x.parseTime(p.runAt.value))
    && (p.schedule.None? && p.runAt.None? && p.recurring.None? ==> new_.kind == old_.kind)
    && (p.schedule.None? && p.runAt.None? && p.recurring.Some? ==>
          match old_.kind
          case Recurring(s) => new_.kind == if p.recurring.value then Recurring(s) else OneShotCron(s)
          case OneShotCron(s) => new_.kind == if p.recurring.value then Recurring(s) else OneShotCron(s)
          case _ => new_.kind == old_.kind)
  }

  lemma PatchedSpecReads(x: Readers, t: Tables, job: JobName, p: SpecPatch)
    requires Sound(x) && UpdateSpecPartial(x, t, job, p).Ok? && job in t.specs && RowDecodes(x, t.specs[job].columns)
    ensures var after := UpdateSpecPartial(x, t, job, p).value;
            && OnlyJob(t.specs, after.specs, job) && after.specs.Keys == t.specs.Keys
            && (t.specs[job].columns.recurring in {0, 1} ==> after.specs[job].columns.recurring in {0, 1})
            && (p.runAt.Some? ==> after.specs[job].columns.recurring == 0 && after.specs[job].columns.schedule == "")
            && LoadRow(x, t.specs[job]).Some? && LoadRow(x, after.specs[job]).Some?
            && Patched(x, LoadRow(x, t.specs[job]).value, LoadRow(x, after.specs[job]).value, p)
  {
    PatchDecodes(x, t.specs[job].columns, p);
  }

  /** With a target given, the job's undelivered runs follow it; nothing else about any run changes. */
  lemma PatchedRunsFollow(x: Readers, t: Tables, job: JobName, p: SpecPatch, id: RunId)
    requires UpdateSpecPartial(x, t, job, p).Ok? && job in t.specs && id in t.runs
    ensures var after := UpdateSpecPartial(x, t, job, p).value;
            && after.runs.Keys == t.runs.Keys
            && after.runs[id] == t.runs[id].(target := after.runs[id].target)
            && after.runs[id].target ==
               (if (p.chat.Some? || p.thread.Some?) && t.runs[id].jobName == job && t.runs[id].deliveredAt.None?
                then after.specs[job].target else t.runs[id].target)
  {
  }

  /** What the delivery queries look for. */
  lemma AwaitingIff(row: Run)
    ensures row.Awaiting() <==> (row.status.Success? || row.status.Failed?) && row.notify.Some? && row.deliveredAt.None?
  {
  }

  /** A mark sets the outcome and the time of its row, and nothing else. */
  lemma MarkedRow(runs: Runs, id: RunId, status: DeliveryStatus, now: Time)
    ensures var after := MarkOutcome(runs, id, status, now);
            && after.Keys == runs.Keys
            && (forall o :: o in runs && o != id ==> after[o] == runs[o])
            && (id in runs ==>
                  after[id].deliveryStatus == status && after[id].deliveredAt == Some(now)
                  && after[id].(deliveryStatus := runs[id].deliveryStatus, deliveredAt := runs[id].deliveredAt) == runs[id])
  {
  }

  /** The dedup update settles what it hits as superseded, and touches nothing else. */
  lemma SupersededRow(runs: Runs, job: JobName, keep: RunId, now: Time, id: RunId)
    requires id in runs
    ensures var after := SupersedeOthers(runs, job, keep, now);
            && after.Keys == runs.Keys
            && (if id != keep && runs[id].jobName == job && runs[id].Awaiting()
                then after[id] == runs[id].(deliveredAt := Some(now), deliveryStatus := Superseded)
                else after[id] == runs[id])
  {
  }

  /** Triggering and clearing touch one row's trigger time. */
  lemma TriggeredRow(specs: Specs, job: JobName, now: Time)
    requires job in specs
    ensures OnlyJob(specs, TriggerSpec(specs, job, now), job) && OnlyJob(specs, ClearTriggeredAt(specs, job), job)
    ensures TriggerSpec(specs, job, now)[job] == specs[job].(triggeredAt := Some(now))
    ensures ClearTriggeredAt(specs, job)[job] == specs[job].(triggeredAt := None)
    ensures DeleteSpec(specs, job).Keys == specs.Keys - {job}
  {
  }

  /** The job a write names; the migration names none. */
  predicate Names(w: SpecWrite, job: JobName) {
    !w.MigrateRows? && w.job == job
  }

  /** A write leaves every other job alone; deleting, triggering and clearing do that and nothing else. */
  lemma WriteTouchesItsJob(x: Readers, specs: Specs, w: SpecWrite, job: JobName)
    ensures var after := Write(x, specs, w);
            && (!w.MigrateRows? && !Names(w, job) ==>
                  (job in after <==> job in specs) && (job in specs ==> after[job] == specs[job]))
            && (w.DeleteRow? && w.job == job ==> job !in after)
            && (w.TriggerRow? && w.job == job && job in specs ==>
                  job in after && after[job] == specs[job].(triggeredAt := Some(w.now)))
            && (w.ClearRow? && w.job == job && job in specs ==>
                  job in after && after[job] == specs[job].(triggeredAt := None))
  {
  }

  /** A job no write of a history names keeps its row, or stays without one, as long as no migration comes by. */
  lemma {:induction false} UnnamedJobsAreUntouched(x: Readers, specs: Specs, ws: seq<SpecWrite>, job: JobName)
    requires forall i :: 0 <= i < |ws| ==> !ws[i].MigrateRows? && !Names(ws[i], job)
    ensures var after := WriteAll(x, specs, ws);
            (job in after <==> job in specs) && (job in specs ==> after[job] == specs[job])
  {
    if ws != [] {
      var m := |ws| - 1;
      UnnamedJobsAreUntouched(x, specs, ws[..m], job);
      WriteTouchesItsJob(x, WriteAll(x, specs, ws[..m]), ws[m], job);
    }
  }
}
