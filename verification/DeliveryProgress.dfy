/** How fast the delivery loop settles what is waiting, and what can stop it. */
module DeliveryProgress {
  import opened CronTables
  import opened DeliveryProtocol
  import opened DeliverySafety

  // ---------------------------------------------------- sums over finite sets

  ghost function Sum(jobs: set<JobName>, f: JobName -> nat): nat {
    if jobs == {} then 0 else var j :| j in jobs; f(j) + Sum(jobs - {j}, f)
  }

  lemma {:induction false} SumTakeOut(jobs: set<JobName>, f: JobName -> nat, j: JobName)
    requires j in jobs
    ensures Sum(jobs, f) == f(j) + Sum(jobs - {j}, f)
  {
    var k :| k in jobs && Sum(jobs, f) == f(k) + Sum(jobs - {k}, f);
    if k != j {
      SumTakeOut(jobs - {k}, f, j);
      SumTakeOut(jobs - {j}, f, k);
      assert jobs - {k} - {j} == jobs - {j} - {k};
    }
  }

  lemma {:induction false} SumMonotone(small: set<JobName>, f: JobName -> nat, big: set<JobName>, g: JobName -> nat)
    requires small <= big && forall j :: j in small ==> f(j) <= g(j)
    ensures Sum(small, f) <= Sum(big, g)
  {
    if small != {} {
      var j :| j in small;
      SumTakeOut(small, f, j);
      SumTakeOut(big, g, j);
      SumMonotone(small - {j}, f, big - {j}, g);
    }
  }

  lemma SumDrops(small: set<JobName>, f: JobName -> nat, big: set<JobName>, g: JobName -> nat, at: JobName)
    requires small <= big && forall j :: j in small ==> f(j) <= g(j)
    requires at in big && g(at) > 0 && (at in small ==> f(at) < g(at))
    ensures Sum(small, f) < Sum(big, g)
  {
    SumTakeOut(big, g, at);
    if at in small {
      SumTakeOut(small, f, at);
    }
    assert at !in small ==> small - {at} == small;
    SumMonotone(small - {at}, f, big - {at}, g);
  }

  lemma {:induction false} SumBounded(jobs: set<JobName>, f: JobName -> nat)
    requires forall j :: j in jobs ==> f(j) <= MAX_DELIVERY_ATTEMPTS
    ensures Sum(jobs, f) <= MAX_DELIVERY_ATTEMPTS * |jobs|
  {
    if jobs != {} {
      var j :| j in jobs;
      SumTakeOut(jobs, f, j);
      SumBounded(jobs - {j}, f);
      assert |jobs| == |jobs - {j}| + 1;
    }
  }

  // ------------------------------------------------------------------ measure

  predicate AwaitingIn(s: State, job: JobName, id: RunId) {
    id in s.tables.runs && s.tables.runs[id].Awaiting() && s.tables.runs[id].jobName == job
  }

  function AwaitingJobs(s: State): set<JobName> {
    set id | id in s.tables.runs && s.tables.runs[id].Awaiting() :: s.tables.runs[id].jobName
  }

  /** The most attempts, up to `n`, that some awaiting run of the job has left. */
  ghost function MostLeft(s: State, job: JobName, n: nat): (left: nat)
    ensures left <= n
  {
    if n == 0 then 0
    else if exists id :: AwaitingIn(s, job, id) && Count(s.attemptCounts, id) + n <= MAX_DELIVERY_ATTEMPTS then n
    else MostLeft(s, job, n - 1)
  }

  ghost function Left(s: State, job: JobName): nat {
    MostLeft(s, job, MAX_DELIVERY_ATTEMPTS)
  }

  /** Delivery turns still needed at most: attempts left, summed over the jobs with something waiting. */
  ghost function Work(s: State): nat {
    Sum(AwaitingJobs(s), (j: JobName) => Left(s, j))
  }

  lemma {:induction false} MostLeftCovers(s: State, job: JobName, id: RunId, n: nat)
    requires AwaitingIn(s, job, id) && n <= MAX_DELIVERY_ATTEMPTS
    ensures MostLeft(s, job, n) >= n || MostLeft(s, job, n) + Count(s.attemptCounts, id) >= MAX_DELIVERY_ATTEMPTS
  {
    if n > 0 {
      MostLeftCovers(s, job, id, n - 1);
    }
  }

  lemma {:induction false} MostLeftWitness(s: State, job: JobName, n: nat)
    requires MostLeft(s, job, n) > 0
    ensures exists id :: AwaitingIn(s, job, id) && Count(s.attemptCounts, id) + MostLeft(s, job, n) <= MAX_DELIVERY_ATTEMPTS
  {
    if !(exists id :: AwaitingIn(s, job, id) && Count(s.attemptCounts, id) + n <= MAX_DELIVERY_ATTEMPTS) {
      MostLeftWitness(s, job, n - 1);
    }
  }

  // ------------------------------------------------------- comparing the work

  lemma AwaitingJobsShrink(s: State, s': State)
    requires forall j, id :: AwaitingIn(s', j, id) ==> AwaitingIn(s, j, id)
    ensures AwaitingJobs(s') <= AwaitingJobs(s)
  {
    forall j | j in AwaitingJobs(s')
      ensures j in AwaitingJobs(s)
    {
      var id :| id in s'.tables.runs && s'.tables.runs[id].Awaiting() && s'.tables.runs[id].jobName == j;
      assert AwaitingIn(s', j, id);
    }
  }

  lemma LeftDoesNotGrow(s: State, s': State, job: JobName)
    requires forall id :: AwaitingIn(s', job, id) ==> AwaitingIn(s, job, id) && Count(s'.attemptCounts, id) >= Count(s.attemptCounts, id)
    ensures Left(s', job) <= Left(s, job)
  {
    if Left(s', job) > 0 {
      MostLeftWitness(s', job, MAX_DELIVERY_ATTEMPTS);
      var id :| AwaitingIn(s', job, id) && Count(s'.attemptCounts, id) + Left(s', job) <= MAX_DELIVERY_ATTEMPTS;
      MostLeftCovers(s, job, id, MAX_DELIVERY_ATTEMPTS);
    }
  }

  lemma WorkShrinks(s: State, s': State)
    requires forall j, id :: AwaitingIn(s', j, id) ==>
               AwaitingIn(s, j, id) && Count(s'.attemptCounts, id) >= Count(s.attemptCounts, id)
    ensures Work(s') <= Work(s)
  {
    AwaitingJobsShrink(s, s');
    forall j | j in AwaitingJobs(s')
      ensures Left(s', j) <= Left(s, j)
    {
      LeftDoesNotGrow(s, s', j);
    }
    SumMonotone(AwaitingJobs(s'), j => Left(s', j), AwaitingJobs(s), j => Left(s, j));
  }

  lemma WorkDrops(s: State, s': State, job: JobName)
    requires forall j, id :: AwaitingIn(s', j, id) ==>
               AwaitingIn(s, j, id) && Count(s'.attemptCounts, id) >= Count(s.attemptCounts, id)
    requires job in AwaitingJobs(s) && Left(s, job) > 0
    requires job in AwaitingJobs(s') ==> Left(s', job) < Left(s, job)
    ensures Work(s') < Work(s)
  {
    AwaitingJobsShrink(s, s');
    forall j | j in AwaitingJobs(s')
      ensures Left(s', j) <= Left(s, j)
    {
      LeftDoesNotGrow(s, s', j);
    }
    SumDrops(AwaitingJobs(s'), j => Left(s', j), AwaitingJobs(s), j => Left(s, j), job);
  }

  // ------------------------------------------------------- what the steps keep

  /** Every run has an attempt left, but for the one that is being given up. */
  ghost predicate CountsBelow(s: State) {
    forall id :: Count(s.attemptCounts, id) < MAX_DELIVERY_ATTEMPTS || s.point == Settling(id, GaveUp)
  }

  lemma CountsBelowStep(s: State, e: Event)
    requires CountsBelow(s) && Enabled(s, e)
    ensures CountsBelow(Apply(s, e))
  {
  }

  /** Over every history, whatever writes fail, every run has an attempt left. */
  lemma {:induction false} CountsBelowAlong(s: State, h: seq<Event>)
    requires Possible(s, h) && CountsBelow(s)
    ensures CountsBelow(After(s, h))
    decreases |h|
  {
    if h != [] {
      CountsBelowStep(s, h[0]);
      CountsBelowAlong(Apply(s, h[0]), h[1..]);
    }
  }

  /** From the UPDATE on the run the loop works on is the only one of its job that awaits delivery. */
  ghost predicate Alone(s: State) {
    s.point.Chosen? || s.point.Delivering? || s.point.Settling? ==>
      forall o :: s.point.id in s.tables.runs && AwaitingIn(s, s.tables.runs[s.point.id].jobName, o) ==> o == s.point.id
  }

  ghost predicate ProgressInv(s: State) {
    BaseInv(s) && CountsBelow(s) && Alone(s)
  }

  /** What the rest of the system may do between turns: nothing new to deliver, the loop's memory untouched. */
  ghost predicate QuietChange(s: State, s': State) {
    && s'.point == s.point && s'.deliveredInMemory == s.deliveredInMemory && s'.attemptCounts == s.attemptCounts
    && forall j, id :: AwaitingIn(s', j, id) ==> AwaitingIn(s, j, id)
  }

  lemma ToolStepsAreQuiet(s: State, e: ToolEvent)
    requires ToolEnabled(s, e)
    ensures QuietChange(s, ApplyTool(s, e))
  {
  }

  /** Every executor step is quiet except persisting a notification. */
  lemma OnlyPersistedNewsIsNoisy(s: State, e: ExecutorEvent)
    requires BaseInv(s) && ExecutorEnabled(s, e) && !(e.PersistRun? && e.notify.Some?)
    ensures QuietChange(s, ApplyExecutor(s, e))
  {
  }

  /** No new notification, no restart, and outcome writes go through. Anything else may happen, in any order. */
  predicate Quiet(e: Event) {
    match e
    case Tool(_) => true
    case Executor(PersistRun(_, notify, _)) => notify.None?
    case Executor(_) => true
    case Loop(Mark(_, _, reported)) => reported
    case Loop(_) => true
    case Restart => false
  }

  /** The event settles a run or uses up one of its attempts: the end of a pass that got beyond the dedup. */
  predicate Settles(s: State, e: Event)
    requires Enabled(s, e)
  {
    match e
    case Loop(Mark(_, _, _)) => true
    case Loop(Deliver(false)) => Count(s.attemptCounts, s.point.id) + 1 < MAX_DELIVERY_ATTEMPTS
    case _ => false
  }

  function One(b: bool): nat {
    if b then 1 else 0
  }

  /** The work, and one more for a run whose last attempt is gone but whose outcome is not written yet. */
  ghost function Budget(s: State): nat {
    Work(s) + One(s.point.Settling? && s.point.outcome.GaveUp?)
  }

  lemma OtherStepPays(s: State, e: Event)
    requires ProgressInv(s) && Enabled(s, e) && Quiet(e) && !e.Loop?
    ensures Alone(Apply(s, e)) && Budget(Apply(s, e)) <= Budget(s)
  {
    var s' := Apply(s, e);
    match e {
      case Tool(t) => ToolStepsAreQuiet(s, t);
      case Executor(x) => OnlyPersistedNewsIsNoisy(s, x);
    }
    WorkShrinks(s, s');
    if s.point.Chosen? || s.point.Delivering? || s.point.Settling? {
      assert s'.tables.runs[s.point.id].jobName == s.tables.runs[s.point.id].jobName;
    }
  }

  /** A failed call: the run keeps awaiting, with one attempt less. */
  lemma FailurePays(s: State)
    requires ProgressInv(s) && s.point.Delivering?
    ensures var s' := ApplyLoop(s, Deliver(false));
            Alone(s') && Budget(s') + One(Settles(s, Loop(Deliver(false)))) <= Budget(s)
  {
    var s', id := ApplyLoop(s, Deliver(false)), s.point.id;
    var job := s.tables.runs[id].jobName;
    assert AwaitingIn(s, job, id);
    MostLeftCovers(s, job, id, MAX_DELIVERY_ATTEMPTS);
    assert forall j, o :: AwaitingIn(s', j, o) <==> AwaitingIn(s, j, o);
    if Left(s', job) > 0 {
      MostLeftWitness(s', job, MAX_DELIVERY_ATTEMPTS);
      var o :| AwaitingIn(s', job, o) && Count(s'.attemptCounts, o) + Left(s', job) <= MAX_DELIVERY_ATTEMPTS;
    }
    WorkDrops(s, s', job);
  }

  /** An outcome that is written: the run, and with it its job, no longer awaits. */
  lemma MarkPays(s: State, now: Time)
    requires ProgressInv(s) && s.point.Settling?
    ensures var s' := ApplyLoop(s, Mark(now, true, true));
            Alone(s') && Budget(s') + 1 <= Budget(s)
  {
    var s', id := ApplyLoop(s, Mark(now, true, true)), s.point.id;
    var job := s.tables.runs[id].jobName;
    assert AwaitingIn(s, job, id);
    MostLeftCovers(s, job, id, MAX_DELIVERY_ATTEMPTS);
    assert s'.tables.runs[id].Settled();
    assert forall j, o :: AwaitingIn(s', j, o) <==> AwaitingIn(s, j, o) && o != id;
    forall o ensures !AwaitingIn(s', job, o) {
    }
    assert job !in AwaitingJobs(s') by {
      assert forall o :: o in s'.tables.runs && s'.tables.runs[o].Awaiting() && s'.tables.runs[o].jobName == job ==> AwaitingIn(s', job, o);
    }
    if s.point.outcome.GaveUp? {
      WorkShrinks(s, s');
    } else {
      WorkDrops(s, s', job);
    }
  }

  lemma DedupPays(s: State, now: Time)
    requires ProgressInv(s) && s.point.Selected?
    ensures var s' := ApplyLoop(s, SupersedeOlder(now));
            Alone(s') && Budget(s') <= Budget(s)
  {
    var s' := ApplyLoop(s, SupersedeOlder(now));
    assert forall j, o :: AwaitingIn(s', j, o) ==> AwaitingIn(s, j, o);
    WorkShrinks(s, s');
  }

  /** The steps that leave tables and counters alone. */
  lemma IdleStepPays(s: State, e: LoopEvent)
    requires ProgressInv(s) && LoopEnabled(s, e) && !e.SupersedeOlder? && !e.Mark? && e != Deliver(false)
    ensures Alone(ApplyLoop(s, e)) && Budget(ApplyLoop(s, e)) <= Budget(s)
  {
    var s' := ApplyLoop(s, e);
    assert s'.tables == s.tables && s'.attemptCounts == s.attemptCounts;
    assert forall j, o :: AwaitingIn(s', j, o) <==> AwaitingIn(s, j, o);
    WorkShrinks(s, s');
  }

  lemma LoopStepPays(s: State, e: LoopEvent)
    requires ProgressInv(s) && LoopEnabled(s, e) && Quiet(Loop(e))
    ensures Alone(ApplyLoop(s, e)) && Budget(ApplyLoop(s, e)) + One(Settles(s, Loop(e))) <= Budget(s)
  {
    if e == Deliver(false) {
      FailurePays(s);
    } else if e.Mark? {
      MarkPays(s, e.now);
    } else if e.SupersedeOlder? {
      DedupPays(s, e.now);
    } else {
      IdleStepPays(s, e);
    }
  }

  lemma QuietStepPays(s: State, e: Event)
    requires ProgressInv(s) && Enabled(s, e) && Quiet(e)
    ensures ProgressInv(Apply(s, e)) && Budget(Apply(s, e)) + One(Settles(s, e)) <= Budget(s)
  {
    BaseStep(s, e);
    CountsBelowStep(s, e);
    if e.Loop? {
      LoopStepPays(s, e.step);
    } else {
      OtherStepPays(s, e);
    }
  }

  // ---------------------------------------------------------------- histories

  predicate QuietHistory(h: seq<Event>) {
    forall i :: 0 <= i < |h| ==> Quiet(h[i])
  }

  function Settlements(s: State, h: seq<Event>): nat
    requires Possible(s, h)
    decreases |h|
  {
    if h == [] then 0 else One(Settles(s, h[0])) + Settlements(Apply(s, h[0]), h[1..])
  }

  /** Passes that got beyond the dedup with a run not delivered before. */
  function Classifications(h: seq<Event>): nat {
    if h == [] then 0 else One(h[0].Loop? && h[0].step.Classify?) + Classifications(h[1..])
  }

  lemma {:induction false} SettlementsArePaidFor(s: State, h: seq<Event>)
    requires Possible(s, h) && QuietHistory(h) && ProgressInv(s)
    ensures ProgressInv(After(s, h)) && Settlements(s, h) + Budget(After(s, h)) <= Budget(s)
    decreases |h|
  {
    if h != [] {
      QuietStepPays(s, h[0]);
      SettlementsArePaidFor(Apply(s, h[0]), h[1..]);
    }
  }

  predicate InFlight(s: State) {
    s.point.Delivering? || s.point.Settling?
  }

  /** Each pass beyond the dedup ends in exactly one settlement, unless the process ends first. */
  lemma {:induction false} EveryPassSettles(s: State, h: seq<Event>)
    requires Possible(s, h) && Restart !in h
    ensures Classifications(h) + One(InFlight(s)) == Settlements(s, h) + One(InFlight(After(s, h)))
    decreases |h|
  {
    if h != [] {
      assert h[0] != Restart;
      EveryPassSettles(Apply(s, h[0]), h[1..]);
    }
  }

  /**
    With no new notification and outcome writes going through, settlements number
    at most three per waiting job, whatever executors and tools write before,
    between and during the passes; and once that many have happened nothing waits.
   */
  lemma EverythingSettlesInTime(boot: State, before: seq<Event>, h: seq<Event>)
    requires Initial(boot) && Possible(boot, before) && After(boot, before).point.Idle?
    requires Possible(After(boot, before), h) && QuietHistory(h)
    ensures var s := After(boot, before);
            && Settlements(s, h) <= 3 * |AwaitingJobs(s)|
            && (Settlements(s, h) == 3 * |AwaitingJobs(s)| ==> NothingAwaiting(After(s, h).tables.runs))
  {
    var s := After(boot, before);
    BaseInvAlong(boot, before);
    CountsBelowAlong(boot, before);
    SettlementsArePaidFor(s, h);
    SumBounded(AwaitingJobs(s), j => Left(s, j));
    var z := After(s, h);
    if id :| id in z.tables.runs && z.tables.runs[id].Awaiting() {
      AwaitingIsWork(z, id);
    }
  }

  /** No run that awaits delivery is remembered as sent: every outcome write so far went through. */
  ghost predicate NothingRemembered(s: State) {
    forall job, id :: AwaitingIn(s, job, id) ==> id !in s.deliveredInMemory
  }

  lemma LoopRemembersNothing(s: State, e: LoopEvent)
    requires ProgressInv(s) && NothingRemembered(s) && LoopEnabled(s, e) && Quiet(Loop(e))
    ensures NothingRemembered(ApplyLoop(s, e)) && !e.SkipDelivered?
  {
    var s' := ApplyLoop(s, e);
    assert s'.deliveredInMemory == s.deliveredInMemory;
    forall j, id | AwaitingIn(s', j, id) ensures AwaitingIn(s, j, id) {
    }
    if e.SkipDelivered? {
      assert AwaitingIn(s, s.tables.runs[s.point.id].jobName, s.point.id);
    }
  }

  lemma RemembersNothing(s: State, e: Event)
    requires ProgressInv(s) && NothingRemembered(s) && Enabled(s, e) && Quiet(e)
    ensures NothingRemembered(Apply(s, e)) && e != Loop(SkipDelivered)
  {
    match e
    case Tool(t) => ToolStepsAreQuiet(s, t);
    case Executor(x) => OnlyPersistedNewsIsNoisy(s, x);
    case Loop(l) => LoopRemembersNothing(s, l);
  }

  /** In a quiet history that begins with nothing remembered no run is skipped. */
  lemma {:induction false} NothingIsSkipped(s: State, h: seq<Event>)
    requires Possible(s, h) && QuietHistory(h) && ProgressInv(s) && NothingRemembered(s)
    ensures Loop(SkipDelivered) !in h
    decreases |h|
  {
    if h != [] {
      QuietStepPays(s, h[0]);
      RemembersNothing(s, h[0]);
      NothingIsSkipped(Apply(s, h[0]), h[1..]);
    }
  }

  /** Passes that got beyond the dedup. */
  function Dedups(h: seq<Event>): nat {
    if h == [] then 0 else One(h[0].Loop? && h[0].step.SupersedeOlder?) + Dedups(h[1..])
  }

  predicate BeyondDedup(s: State) {
    s.point.Chosen? || InFlight(s)
  }

  /** Where no run is skipped each pass beyond the dedup ends in exactly one settlement. */
  lemma {:induction false} EveryDedupSettles(s: State, h: seq<Event>)
    requires Possible(s, h) && Restart !in h && Loop(SkipDelivered) !in h
    ensures Dedups(h) + One(BeyondDedup(s)) == Settlements(s, h) + One(BeyondDedup(After(s, h)))
    decreases |h|
  {
    if h != [] {
      assert h[0] != Restart && h[0] != Loop(SkipDelivered);
      EveryDedupSettles(Apply(s, h[0]), h[1..]);
    }
  }

  /**
    So, with nothing remembered at the start, passes beyond the dedup number at most
    three per waiting job, and one that may still be under way.
   */
  lemma PassesSettleInTime(boot: State, before: seq<Event>, h: seq<Event>)
    requires Initial(boot) && Possible(boot, before) && After(boot, before).point.Idle?
    requires Possible(After(boot, before), h) && QuietHistory(h) && NothingRemembered(After(boot, before))
    ensures var s := After(boot, before);
            && Dedups(h) == Settlements(s, h) + One(BeyondDedup(After(s, h)))
            && Dedups(h) <= 3 * |AwaitingJobs(s)| + One(BeyondDedup(After(s, h)))
  {
    var s := After(boot, before);
    BaseInvAlong(boot, before);
    CountsBelowAlong(boot, before);
    NothingIsSkipped(s, h);
    EveryDedupSettles(s, h);
    EverythingSettlesInTime(boot, before, h);
  }

  /** While something waits there is work left. */
  lemma AwaitingIsWork(s: State, id: RunId)
    requires CountsBelow(s) && id in s.tables.runs && s.tables.runs[id].Awaiting()
    ensures Budget(s) > 0
  {
    var job := s.tables.runs[id].jobName;
    assert AwaitingIn(s, job, id);
    MostLeftCovers(s, job, id, MAX_DELIVERY_ATTEMPTS);
    SumTakeOut(AwaitingJobs(s), j => Left(s, j), job);
  }

  // -------------------------------------------------------------------- turns

  /** One pass of the loop body past the idle gate in which the database works. */
  datatype Turn = Turn(oldest: RunId, latest: RunId, now: Time, allowed: set<int>, delivered: bool)

  predicate CanTurn(s: State, t: Turn) {
    && s.point.Idle?
    && IsOldestAwaiting(s.tables.runs, t.oldest)
    && IsLatestAwaiting(s.tables.runs, s.tables.runs[t.oldest].jobName, t.latest)
  }

  /** The state once the turn has fetched, selected and superseded. */
  function Picked(s: State, t: Turn): State
    requires CanTurn(s, t)
  {
    s.(tables := s.tables.(runs := SupersedeOthers(s.tables.runs, s.tables.runs[t.oldest].jobName, t.latest, t.now)),
       point := Chosen(t.latest, s.tables.runs[t.latest].target))
  }

  /** The statements of the rest of the turn, from the chosen run on. */
  function SettleEvents(s: State, t: Turn): seq<Event>
    requires s.point.Chosen?
  {
    if s.point.id in s.deliveredInMemory then [Loop(SkipDelivered)]
    else if !ClassifyPendingTarget(s.point.target, t.allowed).Ready? then [Loop(Classify(t.allowed)), Loop(Mark(t.now, true, true))]
    else if t.delivered || Count(s.attemptCounts, s.point.id) + 1 >= MAX_DELIVERY_ATTEMPTS
    then [Loop(Classify(t.allowed)), Loop(Deliver(t.delivered)), Loop(Mark(t.now, true, true))]
    else [Loop(Classify(t.allowed)), Loop(Deliver(t.delivered))]
  }

  /** The state the rest of the turn leaves: the run settled, or one attempt poorer. */
  function Settle(s: State, t: Turn): State
    requires s.point.Chosen?
  {
    var id := s.point.id;
    if id in s.deliveredInMemory then s.(point := Idle)
    else
      match ClassifyPendingTarget(s.point.target, t.allowed)
      case NoTargetSet => Settled(s, id, NoTarget, t.now)
      case NotAllowed => Settled(s, id, Denied, t.now)
      case Ready(_, _) =>
        var tried := s.(log := s.log + [Attempt(id, s.point.target, t.delivered)]);
        if t.delivered then Settled(tried, id, Delivered, t.now)
        else if Count(s.attemptCounts, id) + 1 >= MAX_DELIVERY_ATTEMPTS
        then Settled(tried, id, GaveUp, t.now).(attemptCounts := s.attemptCounts - {id})
        else tried.(attemptCounts := s.attemptCounts[id := Count(s.attemptCounts, id) + 1], point := Idle)
  }

  function Settled(s: State, id: RunId, outcome: DeliveryStatus, now: Time): State {
    s.(tables := s.tables.(runs := MarkOutcome(s.tables.runs, id, outcome, now)), point := Idle)
  }

  /** The statements of a whole turn, and the state after it. */
  function TurnEvents(s: State, t: Turn): seq<Event>
    requires CanTurn(s, t)
  {
    [Loop(FetchPending(t.oldest)), Loop(SelectLatest(t.latest)), Loop(SupersedeOlder(t.now))] + SettleEvents(Picked(s, t), t)
  }

  function TurnResult(s: State, t: Turn): State
    requires CanTurn(s, t)
  {
    Settle(Picked(s, t), t)
  }

  /** A chosen run that is ready to be sent. */
  predicate ReadyTurn(s: State, t: Turn) {
    s.point.Chosen? && s.point.id !in s.deliveredInMemory && ClassifyPendingTarget(s.point.target, t.allowed).Ready?
  }

  lemma ReadyStep(s: State, t: Turn)
    requires ReadyTurn(s, t)
    ensures Leads(s, Loop(Classify(t.allowed)), s.(point := Delivering(s.point.id, s.point.target)))
  {
  }

  /** The state after a call. */
  function Called(s: State, ok: bool): State
    requires s.point.Delivering?
  {
    var id, n := s.point.id, Count(s.attemptCounts, s.point.id) + 1;
    s.(log := s.log + [Attempt(id, s.point.target, ok)],
       attemptCounts := if ok then s.attemptCounts else s.attemptCounts[id := n],
       point := if ok then Settling(id, Delivered) else if n >= MAX_DELIVERY_ATTEMPTS then Settling(id, GaveUp) else Idle)
  }

  lemma CallStep(s: State, ok: bool)
    requires s.point.Delivering?
    ensures Leads(s, Loop(Deliver(ok)), Called(s, ok))
  {
  }

  lemma MarkStep(s: State, now: Time)
    requires s.point.Settling?
    ensures Leads(s, Loop(Mark(now, true, true)),
                  Settled(s, s.point.id, s.point.outcome, now).(
                    attemptCounts := if s.point.outcome.GaveUp? then s.attemptCounts - {s.point.id} else s.attemptCounts))
  {
  }

  lemma LastCallIsAHistory(s: State, t: Turn)
    requires ReadyTurn(s, t) && (t.delivered || Count(s.attemptCounts, s.point.id) + 1 >= MAX_DELIVERY_ATTEMPTS)
    ensures Possible(s, SettleEvents(s, t)) && After(s, SettleEvents(s, t)) == Settle(s, t)
  {
    var id := s.point.id;
    var ready := s.(point := Delivering(id, s.point.target));
    var called := Called(ready, t.delivered);
    ReadyStep(s, t);
    CallStep(ready, t.delivered);
    MarkStep(called, t.now);
    assert s.attemptCounts[id := Count(s.attemptCounts, id) + 1] - {id} == s.attemptCounts - {id};
    ThreeLeads(s, Loop(Classify(t.allowed)), ready, Loop(Deliver(t.delivered)), called, Loop(Mark(t.now, true, true)), Settle(s, t));
  }

  lemma EarlyFailureIsAHistory(s: State, t: Turn)
    requires ReadyTurn(s, t) && !t.delivered && Count(s.attemptCounts, s.point.id) + 1 < MAX_DELIVERY_ATTEMPTS
    ensures Possible(s, SettleEvents(s, t)) && After(s, SettleEvents(s, t)) == Settle(s, t)
  {
    var ready := s.(point := Delivering(s.point.id, s.point.target));
    ReadyStep(s, t);
    CallStep(ready, false);
    TwoLeads(s, Loop(Classify(t.allowed)), ready, Loop(Deliver(false)), Called(ready, false));
  }

  lemma SettleIsAHistory(s: State, t: Turn)
    requires s.point.Chosen?
    ensures Possible(s, SettleEvents(s, t)) && After(s, SettleEvents(s, t)) == Settle(s, t)
  {
    if s.point.id in s.deliveredInMemory {
      OneEvent(s, Loop(SkipDelivered));
    } else if ClassifyPendingTarget(s.point.target, t.allowed).Ready? {
      if t.delivered || Count(s.attemptCounts, s.point.id) + 1 >= MAX_DELIVERY_ATTEMPTS {
        LastCallIsAHistory(s, t);
      } else {
        EarlyFailureIsAHistory(s, t);
      }
    } else {
      TwoEvents(s, Loop(Classify(t.allowed)), Loop(Mark(t.now, true, true)));
    }
  }

  /** A turn is a possible history of the protocol, ending where the loop is idle again. */
  lemma TurnIsAHistory(s: State, t: Turn)
    requires CanTurn(s, t)
    ensures Possible(s, TurnEvents(s, t)) && After(s, TurnEvents(s, t)) == TurnResult(s, t)
    ensures TurnResult(s, t).point.Idle?
  {
    ThreeEvents(s, Loop(FetchPending(t.oldest)), Loop(SelectLatest(t.latest)), Loop(SupersedeOlder(t.now)));
    SettleIsAHistory(Picked(s, t), t);
    AfterConcat(s, [Loop(FetchPending(t.oldest)), Loop(SelectLatest(t.latest)), Loop(SupersedeOlder(t.now))],
                SettleEvents(Picked(s, t), t));
  }

  /** An idle loop with something waiting can take a turn. */
  lemma IdleLoopCanTurn(s: State)
    requires s.point.Idle? && !NothingAwaiting(s.tables.runs)
    ensures exists t :: CanTurn(s, t)
  {
    var runs := s.tables.runs;
    var waiting := set id | id in runs && runs[id].Awaiting();
    var some :| some in runs && runs[some].Awaiting();
    assert some in waiting;
    var oldest := ExtremeExists(runs, waiting, false);
    var ofJob := set id | id in runs && runs[id].Awaiting() && runs[id].jobName == runs[oldest].jobName;
    assert oldest in ofJob;
    var latest := ExtremeExists(runs, ofJob, true);
    assert CanTurn(s, Turn(oldest, latest, 0, {}, true));
  }

  lemma {:induction false} NoClassification(h: seq<Event>)
    requires forall i :: 0 <= i < |h| ==> !(h[i].Loop? && h[i].step.Classify?)
    ensures Classifications(h) == 0
  {
    if h != [] {
      NoClassification(h[1..]);
    }
  }

  lemma OneClassification(s: State, t: Turn)
    requires s.point.Chosen? && s.point.id !in s.deliveredInMemory
    ensures Classifications(SettleEvents(s, t)) == 1
  {
    NoClassification(SettleEvents(s, t)[1..]);
  }

  lemma ClassificationsCons(e: Event, h: seq<Event>)
    ensures Classifications([e] + h) == One(e.Loop? && e.step.Classify?) + Classifications(h)
  {
    assert ([e] + h)[1..] == h;
  }

  lemma TurnIsQuiet(s: State, t: Turn)
    requires CanTurn(s, t) && t.latest !in s.deliveredInMemory
    ensures QuietHistory(TurnEvents(s, t)) && Classifications(TurnEvents(s, t)) == 1
  {
    var fetch, select, update, rest := Loop(FetchPending(t.oldest)), Loop(SelectLatest(t.latest)), Loop(SupersedeOlder(t.now)),
                                       SettleEvents(Picked(s, t), t);
    OneClassification(Picked(s, t), t);
    ClassificationsCons(update, rest);
    ClassificationsCons(select, [update] + rest);
    ClassificationsCons(fetch, [select] + ([update] + rest));
    assert TurnEvents(s, t) == [fetch] + ([select] + ([update] + rest));
  }

  /** A turn whose run was not delivered before is one settlement, and strictly reduces the work. */
  lemma TurnReducesWork(s: State, t: Turn)
    requires CanTurn(s, t) && BaseInv(s) && CountsBelow(s) && t.latest !in s.deliveredInMemory
    ensures Possible(s, TurnEvents(s, t)) && Settlements(s, TurnEvents(s, t)) == 1
    ensures Work(TurnResult(s, t)) < Work(s)
  {
    TurnIsAHistory(s, t);
    TurnIsQuiet(s, t);
    EveryPassSettles(s, TurnEvents(s, t));
    SettlementsArePaidFor(s, TurnEvents(s, t));
  }

  /** A turn makes progress exactly when the run it picks is not one whose outcome write failed before. */
  lemma TurnProgressesIff(s: State, t: Turn)
    requires CanTurn(s, t)
    requires forall id :: AwaitingIn(s, s.tables.runs[t.oldest].jobName, id) ==> id == t.latest
    ensures t.latest in s.deliveredInMemory <==> TurnResult(s, t) == s
  {
    var runs := s.tables.runs;
    var job := runs[t.oldest].jobName;
    assert SupersedeOthers(runs, job, t.latest, t.now) == runs by {
      assert forall id :: Supersedable(runs, job, t.latest, id) ==> AwaitingIn(s, job, id);
    }
    if t.latest !in s.deliveredInMemory {
      var s' := TurnResult(s, t);
      if !ClassifyPendingTarget(runs[t.latest].target, t.allowed).Ready? {
        assert s'.tables.runs[t.latest].Settled();
      } else {
        assert |s'.log| == |s.log| + 1;
      }
    }
  }
}
