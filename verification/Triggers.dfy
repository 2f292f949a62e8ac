/**
  Manual triggers: tool calls set a row's trigger time at any moment, the
  reconciler loads the table, then for each loaded trigger clears the row and
  starts a run. Every statement is a step; any of them may fall between two others,
  and the process may restart at any point.
 */
module Triggers {
  import opened Wrappers
  import opened CronTables

  datatype State = State(
    specs: Specs,
    // the reconciler: loaded triggers not handled yet, and jobs cleared but not yet started
    loaded: set<JobName>,
    cleared: set<JobName>,
    // history variables: successful trigger calls and trigger-started runs
    calls: map<JobName, nat>,
    starts: map<JobName, nat>)

  datatype Event =
    | CallTrigger(job: JobName, now: Time)
    | CreateRow(job: JobName, row: SpecRow)
    | RewriteRow(job: JobName, row: SpecRow)
    | DeleteRow(job: JobName)
    | LoadTable(skipped: set<JobName>)
    | ClearRow(job: JobName)
    | ClearFails(job: JobName)
    | StartRun(job: JobName)
    | SkipLocked(job: JobName)
    | Restart

  function TriggeredJobs(specs: Specs): set<JobName> {
    set job | job in specs && specs[job].triggeredAt.Some?
  }

  function Count(m: map<JobName, nat>, job: JobName): nat {
    if job in m then m[job] else 0
  }

  /** Creates write no trigger time and updates do not touch it. A load skips the rows that do not decode. */
  predicate Enabled(s: State, e: Event) {
    match e
    case CallTrigger(job, _) => job in s.specs
    case CreateRow(job, row) => job !in s.specs && row.triggeredAt.None?
    case RewriteRow(job, row) => job in s.specs && row.triggeredAt == s.specs[job].triggeredAt
    case DeleteRow(job) => job in s.specs
    case LoadTable(_) => s.loaded == {} && s.cleared == {}
    case ClearRow(job) => job in s.loaded
    case ClearFails(job) => job in s.loaded
    case StartRun(job) => job in s.cleared
    case SkipLocked(job) => job in s.cleared
    case Restart => true
  }

  function Apply(s: State, e: Event): State
    requires Enabled(s, e)
  {
    match e
    case CallTrigger(job, now) =>
      s.(specs := TriggerSpec(s.specs, job, now), calls := s.calls[job := Count(s.calls, job) + 1])
    case CreateRow(job, row) => s.(specs := s.specs[job := row])
    case RewriteRow(job, row) => s.(specs := s.specs[job := row])
    case DeleteRow(job) => s.(specs := DeleteSpec(s.specs, job))
    case LoadTable(skipped) => s.(loaded := TriggeredJobs(s.specs) - skipped)
    case ClearRow(job) =>
      s.(specs := ClearTriggeredAt(s.specs, job), loaded := s.loaded - {job}, cleared := s.cleared + {job})
    case ClearFails(job) => s.(loaded := s.loaded - {job})
    case StartRun(job) => s.(cleared := s.cleared - {job}, starts := s.starts[job := Count(s.starts, job) + 1])
    case SkipLocked(job) => s.(cleared := s.cleared - {job})
    case Restart => s.(loaded := {}, cleared := {})
  }

  function One(b: bool): nat {
    if b then 1 else 0
  }

  /** A call that is still to be answered: its row is triggered, or was when it was loaded. */
  predicate Waits(s: State, job: JobName) {
    job in s.loaded || job in TriggeredJobs(s.specs)
  }

  /** The calls accounted for: runs started, a job cleared and about to start, a call still to be answered. */
  function Owed(s: State, job: JobName): nat {
    Count(s.starts, job) + One(job in s.cleared) + One(Waits(s, job))
  }

  /**
    The steps that lose a call of the job: a call on top of one still waiting; a start
    skipped because the job is locked; the deletion of a triggered row not loaded yet; a
    failed clear of a job whose row is no longer triggered; and a restart that forgets a
    cleared job, or a loaded one whose row is no longer triggered.
   */
  predicate Loses(s: State, e: Event, job: JobName) {
    match e
    case CallTrigger(j, _) => j == job && Waits(s, job)
    case SkipLocked(j) => j == job
    case DeleteRow(j) => j == job && job in TriggeredJobs(s.specs) && job !in s.loaded
    case ClearFails(j) => j == job && job !in TriggeredJobs(s.specs)
    case Restart => job in s.cleared || (job in s.loaded && job !in TriggeredJobs(s.specs))
    case _ => false
  }

  lemma ApartStep(s: State, e: Event)
    requires s.loaded !! s.cleared && Enabled(s, e)
    ensures Apply(s, e).loaded !! Apply(s, e).cleared
  {
  }

  /** What a step does to the books: calls and what is owed move together, but for a loss. */
  lemma CallsBalanceStep(s: State, e: Event, job: JobName)
    requires s.loaded !! s.cleared && Enabled(s, e)
    ensures Count(Apply(s, e).calls, job) + Owed(s, job) == Owed(Apply(s, e), job) + Count(s.calls, job) + One(Loses(s, e, job))
  {
    var s' := Apply(s, e);
    assert job in TriggeredJobs(s'.specs) <==> job in s'.specs && s'.specs[job].triggeredAt.Some?;
  }

  /** Every call is accounted for, and loaded jobs are not cleared yet. */
  ghost predicate Exact(s: State) {
    s.loaded !! s.cleared && forall job :: Owed(s, job) == Count(s.calls, job)
  }

  /** The exact condition for a step to keep every call accounted for. */
  lemma ExactStepIff(s: State, e: Event)
    requires Exact(s) && Enabled(s, e)
    ensures Exact(Apply(s, e)) <==> forall job :: !Loses(s, e, job)
  {
    ApartStep(s, e);
    forall job
      ensures Owed(Apply(s, e), job) == Count(Apply(s, e).calls, job) <==> !Loses(s, e, job)
    {
      CallsBalanceStep(s, e, job);
    }
  }

  predicate Possible(s: State, h: seq<Event>)
    decreases |h|
  {
    h == [] || (Enabled(s, h[0]) && Possible(Apply(s, h[0]), h[1..]))
  }

  function After(s: State, h: seq<Event>): State
    requires Possible(s, h)
    decreases |h|
  {
    if h == [] then s else After(Apply(s, h[0]), h[1..])
  }

  lemma {:induction false} Extend(s: State, h: seq<Event>, e: Event)
    requires Possible(s, h) && Enabled(After(s, h), e)
    ensures Possible(s, h + [e]) && After(s, h + [e]) == Apply(After(s, h), e)
    decreases |h|
  {
    if h == [] {
      assert h + [e] == [e] && [e][1..] == [];
    } else {
      assert (h + [e])[1..] == h[1..] + [e];
      Extend(Apply(s, h[0]), h[1..], e);
    }
  }

  /** What handling one loaded trigger amounts to. */
  function Handled(s: State, job: JobName, refused: bool, locked: bool): State {
    s.(specs := if refused then s.specs else ClearTriggeredAt(s.specs, job),
       loaded := s.loaded - {job},
       starts := if refused || locked then s.starts else s.starts[job := Count(s.starts, job) + 1])
  }

  /** The statements for it: a clear that fails, or a clear and then a start or a skip. */
  function Handling(job: JobName, refused: bool, locked: bool): seq<Event> {
    if refused then [ClearFails(job)] else [ClearRow(job), if locked then SkipLocked(job) else StartRun(job)]
  }

  lemma HandlingIsAHistory(s: State, h: seq<Event>, job: JobName, refused: bool, locked: bool)
    requires Possible(s, h) && job in After(s, h).loaded && After(s, h).cleared == {}
    ensures Possible(s, h + Handling(job, refused, locked))
    ensures After(s, h + Handling(job, refused, locked)) == Handled(After(s, h), job, refused, locked)
  {
    if refused {
      Extend(s, h, ClearFails(job));
    } else {
      var end := if locked then SkipLocked(job) else StartRun(job);
      Extend(s, h, ClearRow(job));
      Extend(s, h + [ClearRow(job)], end);
      assert h + [ClearRow(job)] + [end] == h + Handling(job, refused, locked);
      assert {} + {job} - {job} == After(s, h).cleared;
    }
  }

  /** `order` lists the jobs of `jobs`, each once. */
  ghost predicate Lists(order: seq<JobName>, jobs: set<JobName>) {
    && (forall job :: job in jobs <==> job in order)
    && forall i, j :: 0 <= i < j < |order| ==> order[i] != order[j]
  }

  lemma ListsOneLess(order: seq<JobName>, jobs: set<JobName>)
    requires Lists(order, jobs) && order != []
    ensures Lists(order[..|order| - 1], jobs - {order[|order| - 1]}) && order[|order| - 1] in jobs
  {
    var m := |order| - 1;
    assert order == order[..m] + [order[m]];
  }

  lemma ListsOneMore(order: seq<JobName>, jobs: set<JobName>, job: JobName)
    requires Lists(order, jobs) && job !in jobs
    ensures Lists(order + [job], jobs + {job})
  {
  }

  /** Handling one loaded trigger after another. */
  function HandlingAll(order: seq<JobName>, refused: set<JobName>, locked: set<JobName>): seq<Event> {
    if order == [] then []
    else
      var m := |order| - 1;
      HandlingAll(order[..m], refused, locked) + Handling(order[m], order[m] in refused, order[m] in locked)
  }

  lemma HandlingOneMore(own: seq<Event>, order: seq<JobName>, refused: set<JobName>, locked: set<JobName>, job: JobName)
    ensures own + HandlingAll(order + [job], refused, locked)
         == own + HandlingAll(order, refused, locked) + Handling(job, job in refused, job in locked)
  {
    assert (order + [job])[..|order|] == order;
  }

  lemma ClearThenEnd(own: seq<Event>, job: JobName, locked: bool)
    ensures own + [ClearRow(job)] + [if locked then SkipLocked(job) else StartRun(job)] == own + Handling(job, false, locked)
  {
  }

  lemma PrefixOfPrefix(a: seq<Event>, b: seq<Event>, c: seq<Event>)
    requires a <= b && b <= c
    ensures a <= c
  {
    assert a == b[..|a|] == c[..|a|];
  }

  /** The reconciler's own statements, as opposed to the tools'. */
  predicate OfReconciler(e: Event) {
    e.LoadTable? || e.ClearRow? || e.ClearFails? || e.StartRun? || e.SkipLocked?
  }

  function OwnSteps(h: seq<Event>): seq<Event> {
    if h == [] then []
    else OwnSteps(h[..|h| - 1]) + (if OfReconciler(h[|h| - 1]) then [h[|h| - 1]] else [])
  }

  lemma OwnStepsAppend(h: seq<Event>, e: Event)
    ensures OwnSteps(h + [e]) == OwnSteps(h) + (if OfReconciler(e) then [e] else [])
  {
    assert (h + [e])[..|h|] == h;
  }

  /** The tools see only the rows, and leave what the reconciler has under way alone. */
  predicate OfTools(e: Event) {
    e.CallTrigger? || e.CreateRow? || e.RewriteRow? || e.DeleteRow?
  }

  lemma ToolsSeeOnlyRows(s: State, t: State, e: Event)
    requires s.specs == t.specs && OfTools(e)
    ensures Enabled(s, e) <==> Enabled(t, e)
    ensures Enabled(s, e) ==>
              && Apply(s, e).specs == Apply(t, e).specs
              && Apply(s, e).loaded == s.loaded && Apply(s, e).cleared == s.cleared && Apply(s, e).starts == s.starts
  {
  }

  /** Exactly the rows of `cleared` lost their trigger time; nothing else changed. */
  ghost predicate TriggersCleared(before: Specs, after: Specs, cleared: set<JobName>) {
    && after.Keys == before.Keys
    && forall job :: job in before ==> after[job] == if job in cleared then before[job].(triggeredAt := None) else before[job]
  }

  /** Each job of `fired` has one start more, no calls came, and `left` is yet to be handled. */
  ghost predicate TriggersHandled(before: State, after: State, fired: set<JobName>, left: set<JobName>) {
    && after.loaded == left && after.cleared == {} && after.calls == before.calls
    && forall job :: Count(after.starts, job) == Count(before.starts, job) + One(job in fired)
  }

  lemma HandledOneMore(before: State, s: State, done: set<JobName>, refused: set<JobName>, locked: set<JobName>, job: JobName)
    requires TriggersCleared(before.specs, s.specs, done - refused) && job !in done
    requires TriggersHandled(before, s, done - refused - locked, before.loaded - done)
    ensures var t := Handled(s, job, job in refused, job in locked);
            && TriggersCleared(before.specs, t.specs, done + {job} - refused)
            && TriggersHandled(before, t, done + {job} - refused - locked, before.loaded - (done + {job}))
  {
    assert before.loaded - done - {job} == before.loaded - (done + {job});
  }

  lemma {:induction false} HandlingAllIsAHistory(s: State, h: seq<Event>, order: seq<JobName>, jobs: set<JobName>,
                                                 refused: set<JobName>, locked: set<JobName>)
    requires Possible(s, h) && After(s, h).cleared == {} && Lists(order, jobs) && jobs <= After(s, h).loaded
    ensures Possible(s, h + HandlingAll(order, refused, locked))
    ensures TriggersCleared(After(s, h).specs, After(s, h + HandlingAll(order, refused, locked)).specs, jobs - refused)
    ensures TriggersHandled(After(s, h), After(s, h + HandlingAll(order, refused, locked)), jobs - refused - locked,
                            After(s, h).loaded - jobs)
  {
    if order == [] {
      assert h + [] == h && jobs == {};
    } else {
      var m := |order| - 1;
      var job, k, done := order[m], HandlingAll(order[..m], refused, locked), jobs - {order[m]};
      ListsOneLess(order, jobs);
      HandlingAllIsAHistory(s, h, order[..m], done, refused, locked);
      HandlingIsAHistory(s, h + k, job, job in refused, job in locked);
      HandledOneMore(After(s, h), After(s, h + k), done, refused, locked, job);
      assert done + {job} == jobs;
      assert h + k + Handling(job, job in refused, job in locked) == h + HandlingAll(order, refused, locked);
    }
  }

  /** How many steps of the history lost a call of the job. */
  function Losses(s: State, h: seq<Event>, job: JobName): nat
    requires Possible(s, h)
    decreases |h|
  {
    if h == [] then 0 else One(Loses(s, h[0], job)) + Losses(Apply(s, h[0]), h[1..], job)
  }

  const BOOT: State := State(map[], {}, {}, map[], map[])

  lemma {:induction false} CallsBalance(s: State, h: seq<Event>, job: JobName)
    requires s.loaded !! s.cleared && Possible(s, h)
    ensures Count(After(s, h).calls, job) + Owed(s, job) == Owed(After(s, h), job) + Count(s.calls, job) + Losses(s, h, job)
    decreases |h|
  {
    if h != [] {
      ApartStep(s, h[0]);
      CallsBalanceStep(s, h[0], job);
      CallsBalance(Apply(s, h[0]), h[1..], job);
    }
  }

  /** Conservation: over every interleaving each successful call was answered by a start, is still pending, or was lost. */
  lemma CallsAreConserved(h: seq<Event>, job: JobName)
    requires Possible(BOOT, h)
    ensures var s := After(BOOT, h);
            Count(s.calls, job) == Count(s.starts, job) + One(job in s.cleared) + One(Waits(s, job)) + Losses(BOOT, h, job)
  {
    CallsBalance(BOOT, h, job);
  }

  /** Starts and what is pending equal the calls exactly when no step lost one. */
  lemma NothingIsLostIff(h: seq<Event>, job: JobName)
    requires Possible(BOOT, h)
    ensures Owed(After(BOOT, h), job) == Count(After(BOOT, h).calls, job) <==> !LosesAlong(BOOT, h, job)
  {
    CallsAreConserved(h, job);
    LossesAreSteps(BOOT, h, job);
  }

  predicate LosesAlong(s: State, h: seq<Event>, job: JobName)
    requires Possible(s, h)
    decreases |h|
  {
    h != [] && (Loses(s, h[0], job) || LosesAlong(Apply(s, h[0]), h[1..], job))
  }

  lemma {:induction false} LossesAreSteps(s: State, h: seq<Event>, job: JobName)
    requires Possible(s, h)
    ensures Losses(s, h, job) == 0 <==> !LosesAlong(s, h, job)
    decreases |h|
  {
    if h != [] {
      LossesAreSteps(Apply(s, h[0]), h[1..], job);
    }
  }

  /** Over every interleaving, trigger-started runs of a job never outnumber its successful trigger calls. */
  lemma StartsNeverExceedCalls(h: seq<Event>, job: JobName)
    requires Possible(BOOT, h)
    ensures Count(After(BOOT, h).starts, job) <= Count(After(BOOT, h).calls, job)
  {
    CallsAreConserved(h, job);
  }

  /** A witness: a call that lands between the load and the clear is lost, and nothing is left to fire for it. */
  lemma CallsCanCoalesce(job: JobName, row: SpecRow, now: Time)
    requires row.triggeredAt.None?
    ensures var h := [CreateRow(job, row), CallTrigger(job, now), LoadTable({}), CallTrigger(job, now), ClearRow(job), StartRun(job)];
            var s := BOOT;
            && Possible(s, h) && Losses(s, h, job) == 1
            && Count(After(s, h).calls, job) == 2 && Count(After(s, h).starts, job) == 1
            && TriggeredJobs(After(s, h).specs) == {} == After(s, h).loaded == After(s, h).cleared
  {
    var s0 := BOOT;
    var s1 := Apply(s0, CreateRow(job, row));
    var s2 := Apply(s1, CallTrigger(job, now));
    assert TriggeredJobs(s2.specs) == {job};
    var s3 := Apply(s2, LoadTable({}));
    var s4 := Apply(s3, CallTrigger(job, now));
    var s5 := Apply(s4, ClearRow(job));
    var s6 := Apply(s5, StartRun(job));
    var h := [CreateRow(job, row), CallTrigger(job, now), LoadTable({}), CallTrigger(job, now), ClearRow(job), StartRun(job)];
    Step(s0, h);
    Step(s1, h[1..]);
    Step(s2, h[2..]);
    Step(s3, h[3..]);
    Step(s4, h[4..]);
    Step(s5, h[5..]);
    assert Possible(s6, h[6..]);
    CallsAreConserved(h, job);
  }

  /** One unrolling of a history. */
  lemma Step(s: State, h: seq<Event>)
    requires h != [] && Enabled(s, h[0])
    ensures Possible(s, h) <==> Possible(Apply(s, h[0]), h[1..])
    ensures Possible(s, h) ==> After(s, h) == After(Apply(s, h[0]), h[1..])
  {
  }

  /** The job's row by the creations, edits and deletions alone. */
  function RowBy(h: seq<Event>, job: JobName, was: Option<SpecRow>): Option<SpecRow> {
    if h == [] then was else RowBy(h[1..], job, RowAfter(h[0], job, was))
  }

  function RowAfter(e: Event, job: JobName, was: Option<SpecRow>): Option<SpecRow> {
    match e
    case CreateRow(j, row) => if j == job then Some(row) else was
    case RewriteRow(j, row) => if j == job then Some(row) else was
    case DeleteRow(j) => if j == job then None else was
    case _ => was
  }

  predicate IsRow(specs: Specs, job: JobName, row: Option<SpecRow>) {
    && (job in specs <==> row.Some?)
    && (job in specs ==> specs[job].(triggeredAt := None) == row.value.(triggeredAt := None))
  }

  /** Over every history triggering, loading, clearing and starting change nothing of any row but its trigger time. */
  lemma {:induction false} RowsFollowTools(s: State, h: seq<Event>, job: JobName, was: Option<SpecRow>)
    requires Possible(s, h) && IsRow(s.specs, job, was)
    ensures IsRow(After(s, h).specs, job, RowBy(h, job, was))
    decreases |h|
  {
    if h != [] {
      RowsFollowTools(Apply(s, h[0]), h[1..], job, RowAfter(h[0], job, was));
    }
  }
}
