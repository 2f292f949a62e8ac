/**
  The lease that keeps two bodies of one job apart: a lock file with the time of
  its writing and a time to live. The freshness check and the write are separate
  steps, as in the program; `Disciplined` names what the environment must grant
  for exclusion, and each clause is shown to be needed.
 */
module JobLocks {
  import opened Wrappers
  import opened LockTtl
  import Text
  import opened CronTables

  /** Seconds since some origin. */
  type Clock = int

  /** A lock file either carries a heartbeat or cannot be read as one. */
  datatype LockFile = Unreadable | Heartbeat(at: Clock)

  /** The time to live each job runs under. */
  type Ttls = JobName -> Duration

  ghost predicate Positive(ttl: Ttls) {
    forall job :: ttl(job) > 0
  }

  type Starter = nat

  /** A started execution: past its freshness check, or running its body since `since`. */
  datatype Phase = Checked(job: JobName) | InBody(job: JobName, since: Clock)

  datatype State = State(
    now: Clock,
    locks: map<JobName, LockFile>,
    executions: map<Starter, Phase>)

  predicate IsLockFresh(s: State, job: JobName, ttl: Ttls) {
    job in s.locks && s.locks[job].Heartbeat? && s.now - s.locks[job].at < ttl(job)
  }

  /** Scheduled, triggered and one-shot starts all go through the same two steps. */
  datatype Event =
    | Check(x: Starter, job: JobName)
    | WriteLock(x: Starter)
    | RefusedWrite(x: Starter, damaged: bool)
    | EndRun(x: Starter, removed: bool)
    | DeleteSpecLock(job: JobName)
    | Pass(seconds: nat)

  predicate Enabled(s: State, e: Event, ttl: Ttls) {
    match e
    case Check(x, job) => x !in s.executions && !IsLockFresh(s, job, ttl)
    case WriteLock(x) => x in s.executions && s.executions[x].Checked?
    case RefusedWrite(x, _) => x in s.executions && s.executions[x].Checked?
    case EndRun(x, _) => x in s.executions && s.executions[x].InBody?
    case DeleteSpecLock(_) => true
    case Pass(_) => true
  }

  /**
    A failing write may leave a file that cannot be read, in place of whatever was
    there. Ending a run removes the job's lock file, whoever wrote it; a failing
    removal goes unnoticed.
   */
  function Apply(s: State, e: Event, ttl: Ttls): State
    requires Enabled(s, e, ttl)
  {
    match e
    case Check(x, job) => s.(executions := s.executions[x := Checked(job)])
    case WriteLock(x) =>
      var job := s.executions[x].job;
      s.(locks := s.locks[job := Heartbeat(s.now)], executions := s.executions[x := InBody(job, s.now)])
    case RefusedWrite(x, damaged) =>
      s.(locks := if damaged then s.locks[s.executions[x].job := Unreadable] else s.locks, executions := s.executions - {x})
    case EndRun(x, removed) =>
      s.(locks := if removed then s.locks - {s.executions[x].job} else s.locks, executions := s.executions - {x})
    case DeleteSpecLock(job) => s.(locks := s.locks - {job})
    case Pass(d) => s.(now := s.now + d)
  }

  predicate Body(s: State, x: Starter, job: JobName) {
    x in s.executions && s.executions[x].InBody? && s.executions[x].job == job
  }

  ghost predicate Exclusive(s: State) {
    forall x, y, job :: Body(s, x, job) && Body(s, y, job) ==> x == y
  }

  // --------------------------------------------------------------- discipline

  /** What the environment must grant, clause by clause. */
  datatype Clause = WriteFollowsCheck | NoDeleteMidRun | RunsEndWithinTtl

  /**
    The check still holds when the lock is written, or the write damages the file:
    check and write act as one step. Deleting a spec does not remove the lock of a
    running body. Every body ends before its lock goes stale.
   */
  ghost predicate Grants(c: Clause, s: State, e: Event, ttl: Ttls) {
    match c
    case WriteFollowsCheck =>
      (e.WriteLock? || (e.RefusedWrite? && e.damaged)) && e.x in s.executions ==> !IsLockFresh(s, s.executions[e.x].job, ttl)
    case NoDeleteMidRun => e.DeleteSpecLock? ==> forall x :: !Body(s, x, e.job)
    case RunsEndWithinTtl =>
      e.Pass? ==> forall x, job :: Body(s, x, job) ==> s.now + e.seconds - s.executions[x].since < ttl(job)
  }

  ghost predicate Disciplined(s: State, e: Event, ttl: Ttls) {
    forall c :: Grants(c, s, e, ttl)
  }

  /** Every running body is covered by a fresh lock carrying its own start time. */
  ghost predicate LeaseInv(s: State, ttl: Ttls) {
    && Exclusive(s)
    && forall x, job :: Body(s, x, job) ==>
         IsLockFresh(s, job, ttl) && s.locks[job].at == s.executions[x].since
  }

  lemma LeaseStep(s: State, e: Event, ttl: Ttls)
    requires Positive(ttl) && LeaseInv(s, ttl) && Enabled(s, e, ttl) && Disciplined(s, e, ttl)
    ensures LeaseInv(Apply(s, e, ttl), ttl)
  {
    var s' := Apply(s, e, ttl);
    assert Grants(WriteFollowsCheck, s, e, ttl) && Grants(NoDeleteMidRun, s, e, ttl) && Grants(RunsEndWithinTtl, s, e, ttl);
    forall y, job | Body(s', y, job)
      ensures IsLockFresh(s', job, ttl) && s'.locks[job].at == s'.executions[y].since
    {
      if !(e.WriteLock? && e.x == y) {
        assert Body(s, y, job);
        assert e.EndRun? ==> Body(s, e.x, s.executions[e.x].job);
      }
    }
    forall y, z, job | Body(s', y, job) && Body(s', z, job)
      ensures y == z
    {
      if e.WriteLock? && s.executions[e.x].job == job {
        assert forall w :: !Body(s, w, job);
      } else {
        assert Body(s, y, job) && Body(s, z, job);
      }
    }
  }

  predicate Possible(s: State, h: seq<Event>, ttl: Ttls)
    decreases |h|
  {
    h == [] || (Enabled(s, h[0], ttl) && Possible(Apply(s, h[0], ttl), h[1..], ttl))
  }

  function After(s: State, h: seq<Event>, ttl: Ttls): State
    requires Possible(s, h, ttl)
    decreases |h|
  {
    if h == [] then s else After(Apply(s, h[0], ttl), h[1..], ttl)
  }

  /** One unrolling of a history. */
  lemma Step(s: State, e: Event, rest: seq<Event>, ttl: Ttls)
    requires Enabled(s, e, ttl) && Possible(Apply(s, e, ttl), rest, ttl)
    ensures Possible(s, [e] + rest, ttl) && After(s, [e] + rest, ttl) == After(Apply(s, e, ttl), rest, ttl)
  {
    assert ([e] + rest)[1..] == rest;
  }

  lemma {:induction false} Extend(s: State, h: seq<Event>, e: Event, ttl: Ttls)
    requires Possible(s, h, ttl) && Enabled(After(s, h, ttl), e, ttl)
    ensures Possible(s, h + [e], ttl) && After(s, h + [e], ttl) == Apply(After(s, h, ttl), e, ttl)
    decreases |h|
  {
    if h == [] {
      Step(s, e, [], ttl);
      assert h + [e] == [e] + [];
    } else {
      assert (h + [e])[1..] == h[1..] + [e];
      Extend(Apply(s, h[0], ttl), h[1..], e, ttl);
    }
  }

  /** The given clauses hold at every step. */
  ghost predicate GrantedAlong(clauses: set<Clause>, s: State, h: seq<Event>, ttl: Ttls)
    requires Possible(s, h, ttl)
    decreases |h|
  {
    h == [] || ((forall c :: c in clauses ==> Grants(c, s, h[0], ttl)) && GrantedAlong(clauses, Apply(s, h[0], ttl), h[1..], ttl))
  }

  const ALL: set<Clause> := {WriteFollowsCheck, NoDeleteMidRun, RunsEndWithinTtl}

  ghost predicate DisciplinedAlong(s: State, h: seq<Event>, ttl: Ttls)
    requires Possible(s, h, ttl)
  {
    GrantedAlong(ALL, s, h, ttl)
  }

  lemma {:induction false} LeaseInvAlong(s: State, h: seq<Event>, ttl: Ttls)
    requires Positive(ttl) && Possible(s, h, ttl) && DisciplinedAlong(s, h, ttl) && LeaseInv(s, ttl)
    ensures LeaseInv(After(s, h, ttl), ttl)
    decreases |h|
  {
    if h != [] {
      LeaseStep(s, h[0], ttl);
      LeaseInvAlong(Apply(s, h[0], ttl), h[1..], ttl);
    }
  }

  /** Lease safety: from any lock files and no executions, no disciplined history runs two bodies of a job at once. */
  lemma NoTwoBodiesOfAJob(now: Clock, locks: map<JobName, LockFile>, h: seq<Event>, ttl: Ttls)
    requires Positive(ttl)
    requires Possible(State(now, locks, map[]), h, ttl) && DisciplinedAlong(State(now, locks, map[]), h, ttl)
    ensures Exclusive(After(State(now, locks, map[]), h, ttl))
  {
    LeaseInvAlong(State(now, locks, map[]), h, ttl);
  }

  // ------------------------------------------------- what the events make of it

  /** Whether the starter is past its check and not done, by its own events alone. */
  function Under(h: seq<Event>, x: Starter, was: bool): bool {
    if h == [] then was
    else
      match h[0]
      case Check(y, _) => Under(h[1..], x, was || x == y)
      case RefusedWrite(y, _) => Under(h[1..], x, was && x != y)
      case EndRun(y, _) => Under(h[1..], x, was && x != y)
      case _ => Under(h[1..], x, was)
  }

  /** Whether it is in its body, by its own events alone. */
  function Writing(h: seq<Event>, x: Starter, was: bool): bool {
    if h == [] then was
    else
      match h[0]
      case WriteLock(y) => Writing(h[1..], x, was || x == y)
      case EndRun(y, _) => Writing(h[1..], x, was && x != y)
      case _ => Writing(h[1..], x, was)
  }

  /** Seconds passed. */
  function Elapsed(h: seq<Event>): nat {
    if h == [] then 0 else (if h[0].Pass? then h[0].seconds else 0) + Elapsed(h[1..])
  }

  /** Over every history an execution is where its own last event put it, and nobody else's event moves it. */
  lemma {:induction false} ExecutionsFollowTheirEvents(s: State, h: seq<Event>, x: Starter, ttl: Ttls)
    requires Possible(s, h, ttl)
    ensures var t, ex := After(s, h, ttl), s.executions;
            && (x in t.executions <==> Under(h, x, x in ex))
            && (x in t.executions && t.executions[x].InBody? <==> Writing(h, x, x in ex && ex[x].InBody?))
            && t.now == s.now + Elapsed(h)
    decreases |h|
  {
    if h != [] {
      ExecutionsFollowTheirEvents(Apply(s, h[0], ttl), h[1..], x, ttl);
    }
  }

  // -------------------------------------------------------- the check is exact

  /** No lock outlives its run: every fresh lock belongs to a running body. */
  ghost predicate LocksBelong(s: State, ttl: Ttls) {
    forall job :: IsLockFresh(s, job, ttl) ==> exists x :: Body(s, x, job)
  }

  /** The steps that keep it are all but one: a run that ends without its lock being removed. */
  lemma LocksBelongStepIff(s: State, e: Event, ttl: Ttls)
    requires LeaseInv(s, ttl) && LocksBelong(s, ttl) && Enabled(s, e, ttl)
    ensures LocksBelong(Apply(s, e, ttl), ttl) <==> !(e.EndRun? && !e.removed)
  {
    var s' := Apply(s, e, ttl);
    if e.EndRun? && !e.removed {
      var job := s.executions[e.x].job;
      assert Body(s, e.x, job);
      assert IsLockFresh(s', job, ttl);
      forall y ensures !Body(s', y, job) {
        assert Body(s', y, job) ==> Body(s, y, job);
      }
    } else {
      forall job | IsLockFresh(s', job, ttl)
        ensures exists x :: Body(s', x, job)
      {
        OwnerStays(s, e, ttl, job);
      }
    }
  }

  lemma OwnerStays(s: State, e: Event, ttl: Ttls, job: JobName)
    requires LeaseInv(s, ttl) && LocksBelong(s, ttl) && Enabled(s, e, ttl) && !(e.EndRun? && !e.removed)
    requires IsLockFresh(Apply(s, e, ttl), job, ttl)
    ensures exists x :: Body(Apply(s, e, ttl), x, job)
  {
    var s' := Apply(s, e, ttl);
    if e.WriteLock? && s.executions[e.x].job == job {
      assert Body(s', e.x, job);
    } else {
      assert IsLockFresh(s, job, ttl);
      var x :| Body(s, x, job);
      assert Body(s', x, job);
    }
  }

  /** Every run that ends removes its lock. */
  predicate RemovesLocks(h: seq<Event>) {
    forall i :: 0 <= i < |h| && h[i].EndRun? ==> h[i].removed
  }

  lemma {:induction false} LocksBelongAlong(s: State, h: seq<Event>, ttl: Ttls)
    requires Positive(ttl) && Possible(s, h, ttl) && DisciplinedAlong(s, h, ttl) && RemovesLocks(h)
    requires LeaseInv(s, ttl) && LocksBelong(s, ttl)
    ensures LeaseInv(After(s, h, ttl), ttl) && LocksBelong(After(s, h, ttl), ttl)
    decreases |h|
  {
    if h != [] {
      LeaseStep(s, h[0], ttl);
      LocksBelongStepIff(s, h[0], ttl);
      LocksBelongAlong(Apply(s, h[0], ttl), h[1..], ttl);
    }
  }

  /** Where locks belong to runs, the check of the lock file at the write is exact: neither too weak nor too strict. */
  lemma WriteIsSafeIff(s: State, x: Starter, ttl: Ttls)
    requires LeaseInv(s, ttl) && LocksBelong(s, ttl) && Enabled(s, WriteLock(x), ttl)
    ensures Exclusive(Apply(s, WriteLock(x), ttl)) <==> !IsLockFresh(s, s.executions[x].job, ttl)
  {
    var job := s.executions[x].job;
    var s' := Apply(s, WriteLock(x), ttl);
    assert Body(s', x, job);
    if IsLockFresh(s, job, ttl) {
      var y :| Body(s, y, job);
      assert Body(s', y, job) && y != x;
    } else {
      assert forall y, j :: Body(s', y, j) && y != x ==> Body(s, y, j) && j != job;
    }
  }

  /** So it is after every disciplined history in which runs remove their locks, from no fresh locks at the start. */
  lemma CheckIsExactAlong(now: Clock, locks: map<JobName, LockFile>, h: seq<Event>, ttl: Ttls, x: Starter)
    requires Positive(ttl) && RemovesLocks(h)
    requires forall job :: !IsLockFresh(State(now, locks, map[]), job, ttl)
    requires Possible(State(now, locks, map[]), h, ttl) && DisciplinedAlong(State(now, locks, map[]), h, ttl)
    requires Enabled(After(State(now, locks, map[]), h, ttl), WriteLock(x), ttl)
    ensures var s := After(State(now, locks, map[]), h, ttl);
            Exclusive(Apply(s, WriteLock(x), ttl)) <==> !IsLockFresh(s, s.executions[x].job, ttl)
  {
    LocksBelongAlong(State(now, locks, map[]), h, ttl);
    WriteIsSafeIff(After(State(now, locks, map[]), h, ttl), x, ttl);
  }

  // ----------------------------------------------------- the discipline is exact

  ghost predicate Uncovered(s: State, ttl: Ttls) {
    exists y, job :: Body(s, y, job) && !IsLockFresh(s, job, ttl)
  }

  /** A step outside the discipline leaves some body without its cover, or two bodies. */
  lemma UndisciplinedStepUncovers(s: State, e: Event, ttl: Ttls)
    requires LeaseInv(s, ttl) && LocksBelong(s, ttl) && Enabled(s, e, ttl) && !Disciplined(s, e, ttl)
    ensures !Exclusive(Apply(s, e, ttl)) || Uncovered(Apply(s, e, ttl), ttl)
  {
    var s' := Apply(s, e, ttl);
    var c :| !Grants(c, s, e, ttl);
    match c
    case WriteFollowsCheck =>
      var job := s.executions[e.x].job;
      var y :| Body(s, y, job);
      assert Body(s', y, job) && y != e.x;
      assert e.WriteLock? ==> Body(s', e.x, job);
    case NoDeleteMidRun =>
      var y :| Body(s, y, e.job);
      assert Body(s', y, e.job);
    case RunsEndWithinTtl =>
      var y, job :| Body(s, y, job) && !(s.now + e.seconds - s.executions[y].since < ttl(job));
      assert Body(s', y, job);
  }

  /** The discipline, all clauses together, is exactly what keeps every body covered and alone. */
  lemma LeaseStepIff(s: State, e: Event, ttl: Ttls)
    requires Positive(ttl) && LeaseInv(s, ttl) && LocksBelong(s, ttl) && Enabled(s, e, ttl)
    ensures LeaseInv(Apply(s, e, ttl), ttl) <==> Disciplined(s, e, ttl)
  {
    if Disciplined(s, e, ttl) {
      LeaseStep(s, e, ttl);
    } else {
      UndisciplinedStepUncovers(s, e, ttl);
    }
  }

  /** What a lost cover means: a newcomer that checks and writes, granted everything, is a second body. */
  lemma LostCoverAdmitsTwo(s: State, ttl: Ttls, y: Starter, job: JobName, x: Starter)
    requires Body(s, y, job) && !IsLockFresh(s, job, ttl) && x !in s.executions
    ensures Breaks(ALL, s, [Check(x, job), WriteLock(x)], ttl)
  {
    var s1 := Apply(s, Check(x, job), ttl);
    var s2 := Apply(s1, WriteLock(x), ttl);
    assert Body(s2, x, job) && Body(s2, y, job) && x != y;
    assert Breaks(ALL, s2, [], ttl);
    BreaksStep(ALL, s1, WriteLock(x), [], ttl);
    BreaksStep(ALL, s, Check(x, job), [WriteLock(x)] + [], ttl);
    assert [Check(x, job)] + ([WriteLock(x)] + []) == [Check(x, job), WriteLock(x)];
  }

  /** Two bodies now, or after one more check and write that are granted everything. */
  ghost predicate CanBreak(s: State, x: Starter, ttl: Ttls) {
    !Exclusive(s) || exists job :: Breaks(ALL, s, [Check(x, job), WriteLock(x)], ttl)
  }

  /**
    From a state in which locks and bodies go together, a step is disciplined exactly if
    it leads neither to two bodies nor to a state in which one newcomer, himself granted
    everything, makes them two.
   */
  lemma DisciplineIsExact(s: State, e: Event, ttl: Ttls, x: Starter)
    requires Positive(ttl) && LeaseInv(s, ttl) && LocksBelong(s, ttl) && Enabled(s, e, ttl)
    requires x !in Apply(s, e, ttl).executions
    ensures Disciplined(s, e, ttl) <==> !CanBreak(Apply(s, e, ttl), x, ttl)
  {
    var s' := Apply(s, e, ttl);
    if Disciplined(s, e, ttl) {
      LeaseStep(s, e, ttl);
      forall job ensures !Breaks(ALL, s', [Check(x, job), WriteLock(x)], ttl) {
        if Possible(s', [Check(x, job), WriteLock(x)], ttl) && GrantedAlong(ALL, s', [Check(x, job), WriteLock(x)], ttl) {
          LeaseInvAlong(s', [Check(x, job), WriteLock(x)], ttl);
        }
      }
    } else {
      UndisciplinedStepUncovers(s, e, ttl);
      if Exclusive(s') {
        var y, job :| Body(s', y, job) && !IsLockFresh(s', job, ttl);
        LostCoverAdmitsTwo(s', ttl, y, job, x);
      }
    }
  }

  /** A lock left behind keeps everyone out until it is stale, though nobody runs. */
  lemma LeftLockBlocks(job: JobName, x: Starter)
    ensures var h := [Check(1, job), WriteLock(1), EndRun(1, false)];
            && Possible(EMPTY, h, _ => 60) && DisciplinedAlong(EMPTY, h, _ => 60)
            && After(EMPTY, h, _ => 60).executions == map[]
            && !Enabled(After(EMPTY, h, _ => 60), Check(x, job), _ => 60)
  {
    var ttl: Ttls := _ => 60;
    var s1 := Apply(EMPTY, Check(1, job), ttl);
    var s2 := Apply(s1, WriteLock(1), ttl);
    var s3 := Apply(s2, EndRun(1, false), ttl);
    Step(s2, EndRun(1, false), [], ttl);
    Step(s1, WriteLock(1), [EndRun(1, false)], ttl);
    Step(EMPTY, Check(1, job), [WriteLock(1), EndRun(1, false)], ttl);
    GrantedStep(ALL, s2, EndRun(1, false), [], ttl);
    GrantedStep(ALL, s1, WriteLock(1), [EndRun(1, false)], ttl);
    GrantedStep(ALL, EMPTY, Check(1, job), [WriteLock(1), EndRun(1, false)], ttl);
    assert [Check(1, job)] + ([WriteLock(1)] + ([EndRun(1, false)] + [])) == [Check(1, job), WriteLock(1), EndRun(1, false)];
  }

  // ------------------------------------------- every clause of the discipline

  lemma GrantedStep(clauses: set<Clause>, s: State, e: Event, rest: seq<Event>, ttl: Ttls)
    requires Enabled(s, e, ttl) && Possible(Apply(s, e, ttl), rest, ttl)
    requires (forall c :: c in clauses ==> Grants(c, s, e, ttl)) && GrantedAlong(clauses, Apply(s, e, ttl), rest, ttl)
    ensures Possible(s, [e] + rest, ttl) && GrantedAlong(clauses, s, [e] + rest, ttl)
  {
    Step(s, e, rest, ttl);
    assert ([e] + rest)[1..] == rest;
  }

  /** The history breaks exclusion although it is granted the given clauses. */
  ghost predicate Breaks(clauses: set<Clause>, s: State, h: seq<Event>, ttl: Ttls) {
    Possible(s, h, ttl) && GrantedAlong(clauses, s, h, ttl) && !Exclusive(After(s, h, ttl))
  }

  lemma BreaksStep(clauses: set<Clause>, s: State, e: Event, rest: seq<Event>, ttl: Ttls)
    requires Enabled(s, e, ttl) && (forall c :: c in clauses ==> Grants(c, s, e, ttl))
    requires Breaks(clauses, Apply(s, e, ttl), rest, ttl)
    ensures Breaks(clauses, s, [e] + rest, ttl)
  {
    Step(s, e, rest, ttl);
    GrantedStep(clauses, s, e, rest, ttl);
  }

  /** Four steps that end with two bodies of the job. */
  lemma FourSteps(clauses: set<Clause>, s: State, a: Event, b: Event, c: Event, d: Event, ttl: Ttls, job: JobName)
    requires Enabled(s, a, ttl) && (forall l :: l in clauses ==> Grants(l, s, a, ttl))
    requires var s1 := Apply(s, a, ttl);
             && Enabled(s1, b, ttl) && (forall l :: l in clauses ==> Grants(l, s1, b, ttl))
             && var s2 := Apply(s1, b, ttl);
             && Enabled(s2, c, ttl) && (forall l :: l in clauses ==> Grants(l, s2, c, ttl))
             && var s3 := Apply(s2, c, ttl);
             && Enabled(s3, d, ttl) && (forall l :: l in clauses ==> Grants(l, s3, d, ttl))
             && Body(Apply(s3, d, ttl), 1, job) && Body(Apply(s3, d, ttl), 2, job)
    ensures Breaks(clauses, s, [a, b, c, d], ttl)
  {
    var s1 := Apply(s, a, ttl);
    var s2 := Apply(s1, b, ttl);
    var s3 := Apply(s2, c, ttl);
    assert Breaks(clauses, Apply(s3, d, ttl), [], ttl);
    BreaksStep(clauses, s3, d, [], ttl);
    BreaksStep(clauses, s2, c, [d] + [], ttl);
    BreaksStep(clauses, s1, b, [c] + ([d] + []), ttl);
    BreaksStep(clauses, s, a, [b] + ([c] + ([d] + [])), ttl);
    assert [a] + ([b] + ([c] + ([d] + []))) == [a, b, c, d];
  }

  const EMPTY: State := State(0, map[], map[])

  /** Two starters pass the check before either writes; the other clauses are granted. */
  lemma SplitCheckAdmitsTwo(job: JobName)
    ensures Breaks({NoDeleteMidRun, RunsEndWithinTtl}, EMPTY, [Check(1, job), Check(2, job), WriteLock(1), WriteLock(2)], _ => 60)
  {
    FourSteps({NoDeleteMidRun, RunsEndWithinTtl}, EMPTY, Check(1, job), Check(2, job), WriteLock(1), WriteLock(2), _ => 60, job);
  }

  /** Deleting the spec while body 1 runs removes its lock, so starter 2 gets in; the other clauses are granted. */
  lemma DeleteMidRunAdmitsTwo(job: JobName)
    ensures Breaks({WriteFollowsCheck, RunsEndWithinTtl}, EMPTY,
                   [Check(1, job), WriteLock(1), DeleteSpecLock(job), Check(2, job), WriteLock(2)], _ => 60)
  {
    var ttl: Ttls, clauses := _ => 60, {WriteFollowsCheck, RunsEndWithinTtl};
    FourSteps(clauses, Apply(EMPTY, Check(1, job), ttl), WriteLock(1), DeleteSpecLock(job), Check(2, job), WriteLock(2), ttl, job);
    BreaksStep(clauses, EMPTY, Check(1, job), [WriteLock(1), DeleteSpecLock(job), Check(2, job), WriteLock(2)], ttl);
    assert [Check(1, job)] + [WriteLock(1), DeleteSpecLock(job), Check(2, job), WriteLock(2)]
        == [Check(1, job), WriteLock(1), DeleteSpecLock(job), Check(2, job), WriteLock(2)];
  }

  /** A body that outlasts its lease does not keep others out; the other clauses are granted. */
  lemma OverrunAdmitsTwo(job: JobName)
    ensures Breaks({WriteFollowsCheck, NoDeleteMidRun}, EMPTY,
                   [Check(1, job), WriteLock(1), Pass(60), Check(2, job), WriteLock(2)], _ => 60)
  {
    var ttl: Ttls, clauses := _ => 60, {WriteFollowsCheck, NoDeleteMidRun};
    FourSteps(clauses, Apply(EMPTY, Check(1, job), ttl), WriteLock(1), Pass(60), Check(2, job), WriteLock(2), ttl, job);
    BreaksStep(clauses, EMPTY, Check(1, job), [WriteLock(1), Pass(60), Check(2, job), WriteLock(2)], ttl);
    assert [Check(1, job)] + [WriteLock(1), Pass(60), Check(2, job), WriteLock(2)]
        == [Check(1, job), WriteLock(1), Pass(60), Check(2, job), WriteLock(2)];
  }

  /** A lease of length zero or less is never fresh: with such a TTL exclusion fails although every clause is granted. */
  lemma NonPositiveTtlAdmitsTwo(job: JobName, ttl: Ttls)
    requires ttl(job) <= 0
    ensures Breaks(ALL, EMPTY, [Check(1, job), WriteLock(1), Check(2, job), WriteLock(2)], ttl)
  {
    FourSteps(ALL, EMPTY, Check(1, job), WriteLock(1), Check(2, job), WriteLock(2), ttl, job);
  }

  /** Such a TTL passes the validator. */
  lemma ValidatorAdmitsZeroTtl()
    ensures ValidateLockTtl("0m") && EffectiveTtl(Some("0m")) == Some(0)
  {
    assert "0m"[..1] == "0";
    assert Text.AllDigits("0") && Text.Digits("0") == 0 by { assert "0"[..0] == ""; }
    ValidatedTtlIsApplied("0m");
  }
}
