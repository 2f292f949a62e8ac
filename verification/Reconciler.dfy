/**
  The reconciler keeps one sleeping loop per cron-scheduled spec. `Reconciler`
  updates its map of loops in place; the relation `Reconciled` says what one pass
  does to the map, and the lemmas are about sequences of passes.
 */
module Reconciler {
  import opened Wrappers
  import opened ScheduleCodec
  import opened CronTables
  import CronDb
  import T = Triggers

  /** A loop task and the spec it was spawned with. */
  datatype JobLoop = JobLoop(spec: CronSpec, task: nat)

  type Handles = map<JobName, JobLoop>
  type Loaded = map<JobName, CronSpec>

  /** Exactly the cron-scheduled specs have loops. */
  predicate NeedsLoop(specs: Loaded, job: JobName) {
    job in specs && (specs[job].kind.Recurring? || specs[job].kind.OneShotCron?)
  }

  /** The loop survives a pass: its spec is still there, unchanged but for the trigger time. */
  predicate Kept(handles: Handles, specs: Loaded, job: JobName) {
    job in handles && job in specs && SameButTrigger(specs[job], handles[job].spec)
  }

  /** The two specs differ at most in when they were triggered. */
  predicate SameButTrigger(a: CronSpec, b: CronSpec) {
    a.(triggeredAt := None) == b.(triggeredAt := None)
  }

  /** What one pass over `specs` makes of the loops; tasks from `next` on are new. */
  ghost predicate Reconciled(handles: Handles, specs: Loaded, handles': Handles, next: nat) {
    && (forall job :: job in handles' <==> NeedsLoop(specs, job))
    && (forall job :: job in handles' ==>
          if Kept(handles, specs, job) then handles'[job] == handles[job]
          else handles'[job].spec == specs[job] && handles'[job].task >= next)
  }

  /**
    `owner` records which job each task was spawned for. A task is the current
    loop of its owner exactly when it was not aborted: no loop is leaked, none is
    shared, and no current loop was aborted. A loop that came to an end by itself
    stays in the map.
   */
  ghost predicate Accounted(handles: Handles, next: nat, aborted: set<nat>, owner: map<nat, JobName>) {
    && (forall t: nat :: t in owner <==> t < next)
    && (forall t: nat :: t in aborted ==> t < next)
    && (forall j :: j in handles ==> handles[j].task in owner && owner[handles[j].task] == j && handles[j].task !in aborted)
    && (forall t: nat :: t in owner && t !in aborted ==> owner[t] in handles && handles[owner[t]].task == t)
  }

  lemma SpawnAccounted(handles: Handles, next: nat, aborted: set<nat>, owner: map<nat, JobName>, job: JobName, spec: CronSpec)
    requires Accounted(handles, next, aborted, owner) && job !in handles
    ensures Accounted(handles[job := JobLoop(spec, next)], next + 1, aborted, owner[next := job])
  {
  }

  lemma AbortAccounted(handles: Handles, next: nat, aborted: set<nat>, owner: map<nat, JobName>, job: JobName)
    requires Accounted(handles, next, aborted, owner) && job in handles
    ensures Accounted(handles - {job}, next, aborted + {handles[job].task}, owner)
  {
  }

  function Tasks(handles: Handles, jobs: set<JobName>): set<nat> {
    set j | j in jobs && j in handles :: handles[j].task
  }

  lemma TasksOneMore(handles: Handles, jobs: set<JobName>, job: JobName)
    requires job in handles
    ensures Tasks(handles, jobs + {job}) == Tasks(handles, jobs) + {handles[job].task}
    ensures handles - (jobs + {job}) == handles - jobs - {job}
  {
  }

  function DroppedJobs(handles: Handles, specs: Loaded): set<JobName> {
    set job | job in handles && !Kept(handles, specs, job)
  }

  /** Comparing field by field finds exactly the dropped jobs. */
  lemma ComparedJobs(handles: Handles, specs: Loaded)
    ensures (set job | job in handles && !(job in specs && specs[job].SameConfig(handles[job].spec))) == DroppedJobs(handles, specs)
  {
    forall job | job in handles && job in specs
      ensures specs[job].SameConfig(handles[job].spec) <==> SameButTrigger(specs[job], handles[job].spec)
    {
      SameConfigIff(specs[job], handles[job].spec);
    }
  }

  /** `handles` is `was` plus a new loop for each cron-scheduled spec outside `left` that had none. */
  ghost predicate Spawned(was: Handles, handles: Handles, specs: Loaded, left: set<JobName>, first: nat, next: nat) {
    && (forall job :: job in handles <==> job in was || (NeedsLoop(specs, job) && job !in left))
    && (forall job :: job in handles ==>
          if job in was then handles[job] == was[job]
          else job in specs && handles[job].spec == specs[job] && handles[job].task >= first)
    && first <= next && (next == first <==> handles == was)
  }

  lemma SpawnedOneMore(was: Handles, handles: Handles, specs: Loaded, left: set<JobName>, first: nat, next: nat, job: JobName)
    requires Spawned(was, handles, specs, left, first, next) && job in left && job in specs
    ensures NeedsLoop(specs, job) && job !in handles ==>
              Spawned(was, handles[job := JobLoop(specs[job], next)], specs, left - {job}, first, next + 1)
    ensures !(NeedsLoop(specs, job) && job !in handles) ==> Spawned(was, handles, specs, left - {job}, first, next)
  {
  }

  datatype Cause = Overdue | Tick | Trigger

  /** A run started by the reconciler itself. */
  datatype Start = Start(job: JobName, cause: Cause)

  class Reconciler {
    const db: CronDb.Connection
    var handles: Handles
    var nextTask: nat
    var aborted: set<nat>
    var starts: seq<Start>
    ghost var owner: map<nat, JobName>

    ghost predicate Valid()
      reads this
    {
      Accounted(handles, nextTask, aborted, owner)
      && forall job :: job in handles ==> handles[job].spec.kind.HasCronExpression()
    }

    constructor (db: CronDb.Connection)
      ensures Valid() && this.db == db && handles == map[] && starts == []
    {
      this.db := db;
      handles, nextTask, aborted, starts, owner := map[], 0, {}, [], map[];
    }

    /** Aborts the loops of removed or changed specs. */
    method AbortChanged(specs: Loaded)
      requires Valid()
      modifies this`handles, this`aborted
      ensures Valid()
      ensures handles == old(handles) - DroppedJobs(old(handles), specs)
      ensures aborted == old(aborted) + Tasks(old(handles), DroppedJobs(old(handles), specs))
    {
      var toRemove := set job | job in handles && !(job in specs && specs[job].SameConfig(handles[job].spec));
      ComparedJobs(handles, specs);
      ghost var was, all, done: set<JobName> := handles, toRemove, {};
      assert was - done == was && aborted + Tasks(was, done) == aborted;
      while toRemove != {}
        invariant Valid() && all <= was.Keys && done !! toRemove
        invariant forall job :: job in all <==> job in done || job in toRemove
        invariant handles == was - done && aborted == old(aborted) + Tasks(was, done)
        decreases toRemove
      {
        var job :| job in toRemove;
        toRemove := toRemove - {job};
        TasksOneMore(was, done, job);
        Abort(job);
        done := done + {job};
      }
      assert done == all;
    }

    method Spawn(job: JobName, spec: CronSpec)
      requires Valid() && job !in handles && !spec.kind.SkipsJobLoop()
      modifies this`handles, this`nextTask, this`owner
      ensures Valid()
      ensures handles == old(handles)[job := JobLoop(spec, old(nextTask))] && nextTask == old(nextTask) + 1
    {
      SpawnAccounted(handles, nextTask, aborted, owner, job, spec);
      owner := owner[nextTask := job];
      handles := handles[job := JobLoop(spec, nextTask)];
      nextTask := nextTask + 1;
    }

    method Abort(job: JobName)
      requires Valid() && job in handles
      modifies this`handles, this`aborted
      ensures Valid()
      ensures handles == old(handles) - {job} && aborted == old(aborted) + {old(handles)[job].task}
    {
      AbortAccounted(handles, nextTask, aborted, owner, job);
      aborted := aborted + {handles[job].task};
      handles := handles - {job};
    }

    /** Spawns a loop for every cron-scheduled spec that has none. */
    method SpawnMissing(specs: Loaded)
      requires Valid()
      modifies this`handles, this`nextTask, this`owner
      ensures Valid()
      ensures Spawned(old(handles), handles, specs, {}, old(nextTask), nextTask)
    {
      var left := specs.Keys;
      ghost var was := handles;
      while left != {}
        invariant Valid() && left <= specs.Keys
        invariant Spawned(was, handles, specs, left, old(nextTask), nextTask)
        decreases left
      {
        var job :| job in left;
        SpawnedOneMore(was, handles, specs, left, old(nextTask), nextTask, job);
        left := left - {job};
        if !specs[job].kind.SkipsJobLoop() && job !in handles {
          Spawn(job, specs[job]);
        }
      }
    }

    /** The loop part of a pass: abort, then spawn. */
    method ReconcileLoops(specs: Loaded)
      requires Valid()
      modifies this`handles, this`nextTask, this`aborted, this`owner
      ensures Valid()
      ensures Reconciled(old(handles), specs, handles, old(nextTask))
      ensures aborted == old(aborted) + Tasks(old(handles), DroppedJobs(old(handles), specs))
      ensures nextTask >= old(nextTask)
      ensures nextTask == old(nextTask) <==> forall job :: NeedsLoop(specs, job) ==> Kept(old(handles), specs, job)
    {
      AbortChanged(specs);
      SpawnMissing(specs);
      AbortThenSpawn(old(handles), specs, handles, old(nextTask), nextTask);
    }

    /** Starts a run for every job of the batch whose lock is not locked. */
    method FireOneShots(batch: set<JobName>, cause: Cause, locked: set<JobName>)
      modifies this`starts
      ensures Fired(old(starts), starts, batch - locked, cause)
    {
      var left := batch;
      ghost var done: set<JobName> := {};
      assert starts[|old(starts)|..] == [] && {} - locked == {};
      while left != {}
        invariant forall job :: job in batch <==> job in done || job in left
        invariant done !! left && Fired(old(starts), starts, done - locked, cause)
        decreases left
      {
        var job :| job in left;
        left := left - {job};
        StartedOneMore(old(starts), starts, done, locked, cause, job);
        if job !in locked {
          starts := starts + [Start(job, cause)];
        }
        done := done + {job};
      }
      assert done == batch;
    }

    /** `h` leads from `s` to the present rows, with the given triggers still to be handled. */
    ghost predicate Trail(s: T.State, h: seq<T.Event>, left: set<JobName>)
      reads db
    {
      && T.Possible(s, h) && T.Restart !in h
      && T.After(s, h).specs == db.specs && T.After(s, h).loaded == left && T.After(s, h).cleared == {}
    }

    /** The tools write to the rows, any number of times. */
    method OthersWrite(ghost s: T.State, ghost h0: seq<T.Event>) returns (ghost h: seq<T.Event>)
      requires T.Possible(s, h0) && T.Restart !in h0 && T.After(s, h0).specs == db.specs
      modifies db`specs
      ensures T.Possible(s, h) && T.Restart !in h && T.After(s, h).specs == db.specs
      ensures T.After(s, h).loaded == T.After(s, h0).loaded && T.After(s, h).cleared == T.After(s, h0).cleared
      ensures T.OwnSteps(h) == T.OwnSteps(h0) && h0 <= h
    {
      h := h0;
      var rounds: nat :| true;
      for n := 0 to rounds
        invariant T.Possible(s, h) && T.Restart !in h && T.After(s, h).specs == db.specs
        invariant T.After(s, h).loaded == T.After(s, h0).loaded && T.After(s, h).cleared == T.After(s, h0).cleared
        invariant T.OwnSteps(h) == T.OwnSteps(h0) && h0 <= h
      {
        var e: T.Event := *;
        var here := T.State(db.specs, {}, {}, map[], map[]);
        if T.OfTools(e) && T.Enabled(here, e) {
          T.ToolsSeeOnlyRows(T.After(s, h), here, e);
          h := Note(e, s, h);
          db.specs := T.Apply(here, e).specs;
        }
      }
    }

    /** Enters a statement into the history. */
    ghost method Note(e: T.Event, s: T.State, h0: seq<T.Event>) returns (h: seq<T.Event>)
      requires T.Possible(s, h0) && T.Restart !in h0 && T.Enabled(T.After(s, h0), e) && !e.Restart?
      ensures h == h0 + [e] && T.Possible(s, h) && T.Restart !in h && T.After(s, h) == T.Apply(T.After(s, h0), e)
      ensures T.OwnSteps(h) == T.OwnSteps(h0) + (if T.OfReconciler(e) then [e] else [])
    {
      T.Extend(s, h0, e);
      T.OwnStepsAppend(h0, e);
      h := h0 + [e];
    }

    method LoadTable(x: Readers, ghost s: T.State, ghost h0: seq<T.Event>) returns (specs: Loaded, ghost h: seq<T.Event>)
      requires Trail(s, h0, {})
      ensures specs == LoadSpecs(x, db.specs) && Trail(s, h, TriggeredIn(specs)) && h0 <= h
      ensures T.OwnSteps(h) == T.OwnSteps(h0) + [T.LoadTable(T.TriggeredJobs(db.specs) - specs.Keys)]
    {
      specs := db.Load(x);
      LoadedTriggers(x, db.specs);
      h := Note(T.LoadTable(T.TriggeredJobs(db.specs) - specs.Keys), s, h0);
    }

    /** One loaded trigger: clear the row first, then start a run unless the job is locked. */
    method HandleTrigger(job: JobName, refused: bool, locked: bool, ghost s: T.State, ghost h0: seq<T.Event>, ghost left: set<JobName>)
      returns (ghost h: seq<T.Event>)
      requires Trail(s, h0, left) && job in left
      modifies this`starts, db`specs
      ensures Trail(s, h, left - {job}) && h0 <= h
      ensures T.OwnSteps(h) == T.OwnSteps(h0) + T.Handling(job, refused, locked)
      ensures starts == old(starts) + if refused || locked then [] else [Start(job, Trigger)]
    {
      var ok := db.ClearTrigger(job, refused);
      assert starts + [] == starts && {} + {job} == {job};
      if !ok {
        h := Note(T.ClearFails(job), s, h0);
        return;
      }
      ghost var cleared := Note(T.ClearRow(job), s, h0);
      h := StartOrSkip(job, locked, s, cleared, left - {job});
      T.ClearThenEnd(T.OwnSteps(h0), job, locked);
      T.PrefixOfPrefix(h0, cleared, h);
    }

    method StartOrSkip(job: JobName, locked: bool, ghost s: T.State, ghost h0: seq<T.Event>, ghost left: set<JobName>)
      returns (ghost h: seq<T.Event>)
      requires T.Possible(s, h0) && T.Restart !in h0
      requires T.After(s, h0).specs == db.specs && T.After(s, h0).loaded == left && T.After(s, h0).cleared == {job}
      modifies this`starts, db`specs
      ensures Trail(s, h, left) && h0 <= h
      ensures T.OwnSteps(h) == T.OwnSteps(h0) + [if locked then T.SkipLocked(job) else T.StartRun(job)]
      ensures starts == old(starts) + if locked then [] else [Start(job, Trigger)]
    {
      ghost var meanwhile := OthersWrite(s, h0);
      assert starts + [] == starts && {job} - {job} == {};
      h := Note(if locked then T.SkipLocked(job) else T.StartRun(job), s, meanwhile);
      T.PrefixOfPrefix(h0, meanwhile, h);
      if !locked {
        starts := starts + [Start(job, Trigger)];
      }
    }

    /**
      All loaded triggers, one after another, with the tools writing in between.
      `refused` are the jobs whose clear the database fails, `locked` those whose
      lock is fresh when it is looked at.
     */
    method FireTriggered(jobs: set<JobName>, locked: set<JobName>, refused: set<JobName>, ghost s: T.State, ghost h0: seq<T.Event>)
      returns (ghost h: seq<T.Event>, ghost order: seq<JobName>)
      requires Trail(s, h0, jobs)
      modifies this`starts, db`specs
      ensures Trail(s, h, {}) && h0 <= h
      ensures T.Lists(order, jobs) && T.OwnSteps(h) == T.OwnSteps(h0) + T.HandlingAll(order, refused, locked)
      ensures Fired(old(starts), starts, jobs - refused - locked, Trigger)
    {
      var left := jobs;
      ghost var done: set<JobName> := {};
      ghost var own := T.OwnSteps(h0);
      h, order := h0, [];
      assert starts[|old(starts)|..] == [] && {} - refused - locked == {} && own + [] == own;
      while left != {}
        invariant forall job :: job in jobs <==> job in done || job in left
        invariant done !! left && Trail(s, h, left) && h0 <= h
        invariant Tally(T.OwnSteps(h), own, order, done, old(starts), starts, refused, locked)
        decreases left
      {
        var job :| job in left;
        h := FireNext(job, refused, locked, s, h, left, own, order, done, old(starts));
        left := left - {job};
        order, done := order + [job], done + {job};
      }
      assert done == jobs;
    }

    method FireNext(job: JobName, refused: set<JobName>, locked: set<JobName>, ghost s: T.State, ghost h0: seq<T.Event>, ghost left: set<JobName>,
                    ghost own: seq<T.Event>, ghost order: seq<JobName>, ghost done: set<JobName>, ghost was: seq<Start>)
      returns (ghost h: seq<T.Event>)
      requires Trail(s, h0, left) && job in left && job !in done
      requires Tally(T.OwnSteps(h0), own, order, done, was, starts, refused, locked)
      modifies this`starts, db`specs
      ensures Trail(s, h, left - {job}) && h0 <= h
      ensures Tally(T.OwnSteps(h), own, order + [job], done + {job}, was, starts, refused, locked)
    {
      h := OthersWrite(s, h0);
      TallyOneMore(T.OwnSteps(h), own, order, done, was, starts, refused, locked, job);
      h := HandleTrigger(job, job in refused, job in locked, s, h, left);
    }

    /**
      One pass of the reconciler, with the tools writing to the rows from the load on. A
      failed load changes nothing. Otherwise it is the table as it was at the load that
      decides: `Acted` says exactly which loops and runs there are, and the pass's own
      trigger statements are the load and then the handling of each loaded trigger.
     */
    method Pass(x: Readers, now: Instant, locks: Looks, loadFails: bool, refused: set<JobName>, ghost s: T.State, ghost h0: seq<T.Event>)
      returns (ghost h: seq<T.Event>, ghost order: seq<JobName>)
      requires Valid() && Trail(s, h0, {})
      modifies this, db`specs
      ensures Valid() && Trail(s, h, {})
      ensures loadFails ==> h == h0 && handles == old(handles) && aborted == old(aborted) && starts == old(starts)
      ensures !loadFails ==>
                var specs := LoadSpecs(x, old(db.specs));
                && Acted(old(handles), handles, old(aborted), aborted, old(nextTask), old(starts), starts,
                         specs, now, locks, refused, order)
                && T.OwnSteps(h) == T.OwnSteps(h0) + [T.LoadTable(T.TriggeredJobs(old(db.specs)) - specs.Keys)]
                                    + T.HandlingAll(order, refused, locks.atTrigger)
    {
      h, order := h0, [];
      if !loadFails {
        var specs;
        specs, h := LoadTable(x, s, h0);
        h, order := ActOn(specs, now, locks, refused, s, h);
      }
    }

    /** What a pass does with the specs it loaded. */
    method ActOn(specs: Loaded, now: Instant, locks: Looks, refused: set<JobName>, ghost s: T.State, ghost h0: seq<T.Event>)
      returns (ghost h: seq<T.Event>, ghost order: seq<JobName>)
      requires Valid() && Trail(s, h0, TriggeredIn(specs))
      modifies this, db`specs
      ensures Valid() && Trail(s, h, {}) && h0 <= h
      ensures Acted(old(handles), handles, old(aborted), aborted, old(nextTask), old(starts), starts, specs, now, locks, refused, order)
      ensures T.OwnSteps(h) == T.OwnSteps(h0) + T.HandlingAll(order, refused, locks.atTrigger)
    {
      FireOneShots(OverdueJobs(specs, now), Overdue, locks.atOneShot);
      ghost var afterOverdue := starts;
      FireOneShots(TickJobs(specs), Tick, locks.atOneShot);
      ghost var afterTick := starts;
      ReconcileLoops(specs);
      h, order := FireTriggered(TriggeredIn(specs), locks.atTrigger, refused, s, h0);
      StartsOfPass(old(starts), afterOverdue, afterTick, starts, specs, now, locks, refused);
    }
  }

  /** The jobs whose lock was fresh when the pass looked: for a one-shot, and for a trigger. */
  datatype Looks = Looks(atOneShot: set<JobName>, atTrigger: set<JobName>)

  function TriggeredIn(specs: Loaded): set<JobName> {
    set job | job in specs && specs[job].triggeredAt.Some?
  }

  function OverdueJobs(specs: Loaded, now: Instant): set<JobName> {
    set job | job in specs && specs[job].kind.RunAt? && specs[job].kind.at <= now
  }

  function TickJobs(specs: Loaded): set<JobName> {
    set job | job in specs && specs[job].kind.FiresOnTick()
  }

  /** `starts` is `was` plus exactly one start for each job of the batch, in some order. */
  ghost predicate Fired(was: seq<Start>, starts: seq<Start>, batch: set<JobName>, cause: Cause) {
    && was <= starts
    && (forall i :: |was| <= i < |starts| ==> starts[i].cause == cause && starts[i].job in batch)
    && (forall i, k :: |was| <= i < k < |starts| ==> starts[i].job != starts[k].job)
    && (forall job :: job in batch ==> exists i :: |was| <= i < |starts| && starts[i].job == job)
  }

  lemma FiredOneMore(was: seq<Start>, starts: seq<Start>, batch: set<JobName>, cause: Cause, job: JobName)
    requires Fired(was, starts, batch, cause) && job !in batch
    ensures Fired(was, starts + [Start(job, cause)], batch + {job}, cause)
  {
    var more := starts + [Start(job, cause)];
    assert more[|starts|].job == job;
    forall b | b in batch ensures exists i :: |was| <= i < |more| && more[i].job == b {
      var i :| |was| <= i < |starts| && starts[i].job == b;
      assert more[i].job == b;
    }
  }

  lemma StartedOneMore(was: seq<Start>, starts: seq<Start>, done: set<JobName>, locked: set<JobName>, cause: Cause, job: JobName)
    requires Fired(was, starts, done - locked, cause) && job !in done
    ensures Fired(was, if job in locked then starts else starts + [Start(job, cause)], done + {job} - locked, cause)
  {
    assert done + {job} - locked == if job in locked then done - locked else (done - locked) + {job};
    FiredOneMore(was, starts, done - locked, cause, job);
  }

  /** What starts a job in a pass, and of which cause. */
  predicate Due(specs: Loaded, now: Instant, locks: Looks, refused: set<JobName>, start: Start) {
    && start.job in specs
    && var spec := specs[start.job];
       match start.cause
       case Overdue => spec.kind.RunAt? && spec.kind.at <= now && start.job !in locks.atOneShot
       case Tick => (spec.kind.Immediate? || spec.kind.BackgroundContinuation?) && start.job !in locks.atOneShot
       case Trigger => spec.triggeredAt.Some? && start.job !in refused && start.job !in locks.atTrigger
  }

  /** The starts of one pass: each one that is due, once, and no others. */
  ghost predicate FiredInPass(was: seq<Start>, starts: seq<Start>, specs: Loaded, now: Instant, locks: Looks, refused: set<JobName>) {
    && was <= starts
    && (forall i :: |was| <= i < |starts| ==> Due(specs, now, locks, refused, starts[i]))
    && (forall i, k :: |was| <= i < k < |starts| ==> starts[i] != starts[k])
    && (forall start :: Due(specs, now, locks, refused, start) ==> exists i :: |was| <= i < |starts| && starts[i] == start)
  }

  lemma StartsOfPass(was: seq<Start>, a: seq<Start>, b: seq<Start>, starts: seq<Start>,
                     specs: Loaded, now: Instant, locks: Looks, refused: set<JobName>)
    requires Fired(was, a, OverdueJobs(specs, now) - locks.atOneShot, Overdue)
    requires Fired(a, b, TickJobs(specs) - locks.atOneShot, Tick)
    requires Fired(b, starts, TriggeredIn(specs) - refused - locks.atTrigger, Trigger)
    ensures FiredInPass(was, starts, specs, now, locks, refused)
  {
    assert forall i :: 0 <= i < |a| ==> starts[i] == b[i] == a[i];
    assert forall i :: 0 <= i < |b| ==> starts[i] == b[i];
    forall start | Due(specs, now, locks, refused, start)
      ensures exists i :: |was| <= i < |starts| && starts[i] == start
    {
      DueAppears(was, a, b, starts, specs, now, locks, refused, start);
    }
  }

  lemma DueAppears(was: seq<Start>, a: seq<Start>, b: seq<Start>, starts: seq<Start>,
                   specs: Loaded, now: Instant, locks: Looks, refused: set<JobName>, start: Start)
    requires Fired(was, a, OverdueJobs(specs, now) - locks.atOneShot, Overdue)
    requires Fired(a, b, TickJobs(specs) - locks.atOneShot, Tick)
    requires Fired(b, starts, TriggeredIn(specs) - refused - locks.atTrigger, Trigger)
    requires Due(specs, now, locks, refused, start)
    ensures exists i :: |was| <= i < |starts| && starts[i] == start
  {
    match start.cause
    case Overdue =>
      assert start.job in OverdueJobs(specs, now) - locks.atOneShot;
      var i :| |was| <= i < |a| && a[i].job == start.job;
      assert starts[i] == b[i] == a[i];
    case Tick =>
      assert start.job in TickJobs(specs) - locks.atOneShot;
      var i :| |a| <= i < |b| && b[i].job == start.job;
      assert starts[i] == b[i];
    case Trigger =>
      assert start.job in TriggeredIn(specs) - refused - locks.atTrigger;
      var i :| |b| <= i < |starts| && starts[i].job == start.job;
      assert starts[i] == start;
  }

  /**
    What a pass does with loaded specs: the loops reconciled, exactly the dropped ones
    aborted, exactly the due jobs started, the loaded triggers handled in `order`.
   */
  ghost predicate Acted(handles: Handles, handles': Handles, aborted: set<nat>, aborted': set<nat>, next: nat,
                        starts: seq<Start>, starts': seq<Start>, specs: Loaded, now: Instant, locks: Looks,
                        refused: set<JobName>, order: seq<JobName>)
  {
    && Reconciled(handles, specs, handles', next)
    && aborted' == aborted + Tasks(handles, DroppedJobs(handles, specs))
    && FiredInPass(starts, starts', specs, now, locks, refused)
    && T.Lists(order, TriggeredIn(specs))
  }

  /** The loaded triggers are the triggered rows without those that do not decode. */
  lemma LoadedTriggers(x: Readers, rows: Specs)
    ensures T.TriggeredJobs(rows) - (T.TriggeredJobs(rows) - LoadSpecs(x, rows).Keys) == TriggeredIn(LoadSpecs(x, rows))
  {
  }

  /**
    The triggers of `done` have been handled in the given order: the reconciler's own
    statements since `own`, and the runs started since `was`.
   */
  ghost predicate Tally(steps: seq<T.Event>, own: seq<T.Event>, order: seq<JobName>, done: set<JobName>,
                        was: seq<Start>, starts: seq<Start>, refused: set<JobName>, locked: set<JobName>)
  {
    && T.Lists(order, done) && steps == own + T.HandlingAll(order, refused, locked)
    && Fired(was, starts, done - refused - locked, Trigger)
  }

  lemma TallyOneMore(steps: seq<T.Event>, own: seq<T.Event>, order: seq<JobName>, done: set<JobName>,
                     was: seq<Start>, starts: seq<Start>, refused: set<JobName>, locked: set<JobName>, job: JobName)
    requires Tally(steps, own, order, done, was, starts, refused, locked) && job !in done
    ensures Tally(steps + T.Handling(job, job in refused, job in locked), own, order + [job], done + {job},
                  was, starts + (if job in refused || job in locked then [] else [Start(job, Trigger)]), refused, locked)
  {
    TriggeredOneMore(was, starts, done, refused, locked, job);
    T.ListsOneMore(order, done, job);
    T.HandlingOneMore(own, order, refused, locked, job);
  }

  lemma TriggeredOneMore(was: seq<Start>, starts: seq<Start>, done: set<JobName>, refused: set<JobName>, locked: set<JobName>, job: JobName)
    requires Fired(was, starts, done - refused - locked, Trigger) && job !in done
    ensures Fired(was, starts + (if job in refused || job in locked then [] else [Start(job, Trigger)]),
                  done + {job} - refused - locked, Trigger)
  {
    var fired := done - refused - locked;
    assert done + {job} - refused - locked == if job in refused || job in locked then fired else fired + {job};
    FiredOneMore(was, starts, fired, Trigger, job);
    assert starts + [] == starts;
  }

  lemma AbortThenSpawn(handles: Handles, specs: Loaded, handles': Handles, first: nat, next: nat)
    requires forall job :: job in handles ==> handles[job].spec.kind.HasCronExpression()
    requires Spawned(handles - DroppedJobs(handles, specs), handles', specs, {}, first, next)
    ensures Reconciled(handles, specs, handles', first)
    ensures next == first <==> forall job :: NeedsLoop(specs, job) ==> Kept(handles, specs, job)
  {
  }

  // ------------------------------------------------------ sequences of passes

  /** The same specs, up to their trigger times. */
  predicate SameTable(a: Loaded, b: Loaded) {
    a.Keys == b.Keys && forall job :: job in a ==> SameButTrigger(a[job], b[job])
  }

  ghost predicate Matches(handles: Handles, specs: Loaded) {
    && (forall job :: job in handles <==> NeedsLoop(specs, job))
    && (forall job :: job in handles ==> SameButTrigger(specs[job], handles[job].spec))
  }

  lemma PassMatches(handles: Handles, specs: Loaded, handles': Handles, next: nat)
    requires Reconciled(handles, specs, handles', next)
    ensures Matches(handles', specs)
  {
  }

  /** A second pass over the same table, triggers or not, aborts no loop and spawns none. */
  lemma SecondPassIsQuiet(handles: Handles, specs: Loaded, handles': Handles, next: nat, again: Loaded, handles'': Handles, next': nat)
    requires Reconciled(handles, specs, handles', next) && SameTable(specs, again)
    requires Reconciled(handles', again, handles'', next')
    ensures handles'' == handles' && DroppedJobs(handles', again) == {}
  {
  }

  /** A run of passes: each either fails to load and changes nothing, or reconciles with the table it loaded. */
  ghost predicate Passes(handles: seq<Handles>, loads: seq<Option<Loaded>>, next: seq<nat>) {
    && |handles| == |loads| + 1 == |next|
    && forall i :: 0 <= i < |loads| ==> PassStep(handles[i], loads[i], handles[i + 1], next[i])
  }

  ghost predicate PassStep(h: Handles, load: Option<Loaded>, h': Handles, next: nat) {
    match load
    case None => h' == h
    case Some(specs) => Reconciled(h, specs, h', next)
  }

  /** After any run of passes the loops are exactly the cron-scheduled specs of the last table that loaded. */
  lemma LoopsFollowTheTable(handles: seq<Handles>, loads: seq<Option<Loaded>>, next: seq<nat>, last: nat)
    requires Passes(handles, loads, next) && last < |loads| && loads[last].Some?
    requires forall i :: last < i < |loads| ==> loads[i].None?
    ensures Matches(handles[|loads|], loads[last].value)
  {
    PassMatches(handles[last], loads[last].value, handles[last + 1], next[last]);
    SameUpTo(handles, loads, next, last + 1, |loads|);
  }

  lemma {:induction false} SameUpTo(handles: seq<Handles>, loads: seq<Option<Loaded>>, next: seq<nat>, from: nat, to: nat)
    requires Passes(handles, loads, next) && from <= to <= |loads|
    requires forall i :: from <= i < to ==> loads[i].None?
    ensures handles[to] == handles[from]
  {
    if from < to {
      SameUpTo(handles, loads, next, from, to - 1);
      assert PassStep(handles[to - 1], loads[to - 1], handles[to], next[to - 1]);
    }
  }

  /** A loop keeps its task through every pass in which its spec is still there unchanged, however often it is triggered. */
  lemma {:induction false} UnchangedLoopIsNeverAborted(handles: seq<Handles>, loads: seq<Option<Loaded>>, next: seq<nat>, job: JobName, n: nat)
    requires Passes(handles, loads, next) && n <= |loads|
    requires job in handles[0] && handles[0][job].spec.kind.HasCronExpression()
    requires forall i :: 0 <= i < n && loads[i].Some? ==>
               job in loads[i].value && SameButTrigger(loads[i].value[job], handles[0][job].spec)
    ensures job in handles[n] && handles[n][job] == handles[0][job]
  {
    if n > 0 {
      UnchangedLoopIsNeverAborted(handles, loads, next, job, n - 1);
      assert PassStep(handles[n - 1], loads[n - 1], handles[n], next[n - 1]);
      if loads[n - 1].Some? {
        assert Kept(handles[n - 1], loads[n - 1].value, job);
      }
    }
  }
}
