/**
  How often a one-shot job runs. The reconciler starts it on every tick while its row is
  there and its lock is not fresh; the row goes only after the whole execution, while
  the lock goes when the body ends. So even under the lease discipline the body may
  run again. This module has one job's row, its lease and its executions as a
  transition system, and says exactly when the body runs at most once.
 */
module OneShots {
  import L = JobLocks
  import opened CronTables

  /** The job and the TTLs its lease is under. */
  datatype Job = Job(name: JobName, ttl: L.Ttls)

  /**
    `ticked` are started executions not yet at their lock check, `closing` those that
    came back from the execution and have yet to delete the spec. `ended` and `bodies`
    count the bodies that ended and that began.
   */
  datatype State = State(
    lease: L.State,
    row: bool,
    ticked: set<L.Starter>,
    closing: set<L.Starter>,
    ended: nat,
    bodies: nat)

  /** How an attempt to delete the spec ended: it fails for a row that is gone, and the lock file may stay. */
  datatype Deletion = NothingDeleted | RowOnly | RowAndLock

  datatype Event =
    | Tick(x: L.Starter)
    | Check(x: L.Starter)
    | Write(x: L.Starter)
    | Refused(x: L.Starter, damaged: bool)
    | End(x: L.Starter, removed: bool)
    | Delete(x: L.Starter, did: Deletion)
    | Pass(seconds: nat)

  predicate Fresh(s: State, j: Job) {
    L.IsLockFresh(s.lease, j.name, j.ttl)
  }

  predicate Unused(s: State, x: L.Starter) {
    x !in s.ticked && x !in s.closing && x !in s.lease.executions
  }

  predicate HasChecked(s: State, x: L.Starter) {
    x in s.lease.executions && s.lease.executions[x].Checked?
  }

  predicate Enabled(s: State, e: Event, j: Job) {
    match e
    case Tick(x) => s.row && !Fresh(s, j) && Unused(s, x)
    case Check(x) => x in s.ticked && x !in s.lease.executions
    case Write(x) => HasChecked(s, x)
    case Refused(x, _) => HasChecked(s, x)
    case End(x, _) => x in s.lease.executions && s.lease.executions[x].InBody?
    case Delete(x, did) => x in s.closing && (did != NothingDeleted ==> s.row)
    case Pass(_) => true
  }

  /** An execution that finds the lock fresh does nothing more, but its spec is deleted all the same. */
  function Apply(s: State, e: Event, j: Job): State
    requires Enabled(s, e, j)
  {
    match e
    case Tick(x) => s.(ticked := s.ticked + {x})
    case Check(x) =>
      if Fresh(s, j) then s.(ticked := s.ticked - {x}, closing := s.closing + {x})
      else s.(ticked := s.ticked - {x}, lease := L.Apply(s.lease, L.Check(x, j.name), j.ttl))
    case Write(x) => s.(lease := L.Apply(s.lease, L.WriteLock(x), j.ttl), bodies := s.bodies + 1)
    case Refused(x, damaged) =>
      s.(lease := L.Apply(s.lease, L.RefusedWrite(x, damaged), j.ttl), closing := s.closing + {x})
    case End(x, removed) =>
      s.(lease := L.Apply(s.lease, L.EndRun(x, removed), j.ttl), closing := s.closing + {x}, ended := s.ended + 1)
    case Delete(x, did) =>
      (match did
       case NothingDeleted => s.(closing := s.closing - {x})
       case RowOnly => s.(closing := s.closing - {x}, row := false)
       case RowAndLock => s.(closing := s.closing - {x}, row := false, lease := L.Apply(s.lease, L.DeleteSpecLock(j.name), j.ttl)))
    case Pass(d) => s.(lease := L.Apply(s.lease, L.Pass(d), j.ttl))
  }

  /** The step is within the lease discipline, all its clauses. */
  ghost predicate Granted(s: State, e: Event, j: Job) {
    match e
    case Tick(_) => true
    case Check(_) => true
    case Write(x) => L.Disciplined(s.lease, L.WriteLock(x), j.ttl)
    case Refused(x, damaged) => L.Disciplined(s.lease, L.RefusedWrite(x, damaged), j.ttl)
    case End(_, _) => true
    case Delete(_, did) => did.RowAndLock? ==> L.Disciplined(s.lease, L.DeleteSpecLock(j.name), j.ttl)
    case Pass(d) => L.Disciplined(s.lease, L.Pass(d), j.ttl)
  }

  /** Every event is enabled and within the discipline where it occurs. */
  ghost predicate Possible(s: State, h: seq<Event>, j: Job)
    decreases |h|
  {
    h == [] || (Enabled(s, h[0], j) && Granted(s, h[0], j) && Possible(Apply(s, h[0], j), h[1..], j))
  }

  ghost function After(s: State, h: seq<Event>, j: Job): State
    requires Possible(s, h, j)
    decreases |h|
  {
    if h == [] then s else After(Apply(s, h[0], j), h[1..], j)
  }

  function One(b: bool): nat {
    if b then 1 else 0
  }

  ghost predicate Running(s: State, j: Job) {
    exists x :: L.Body(s.lease, x, j.name)
  }

  ghost predicate Sound(s: State, j: Job) {
    && L.Positive(j.ttl) && L.LeaseInv(s.lease, j.ttl)
    && (forall x :: x in s.lease.executions ==> s.lease.executions[x].job == j.name)
    && (forall x :: x in s.ticked ==> x !in s.lease.executions)
    && s.bodies == s.ended + One(Running(s, j))
  }

  lemma LeaseKept(s: State, e: L.Event, j: Job)
    requires L.Positive(j.ttl) && L.LeaseInv(s.lease, j.ttl) && L.Enabled(s.lease, e, j.ttl)
    requires e.Check? || e.EndRun? || L.Disciplined(s.lease, e, j.ttl)
    ensures L.LeaseInv(L.Apply(s.lease, e, j.ttl), j.ttl)
  {
    if e.Check? || e.EndRun? {
      forall c ensures L.Grants(c, s.lease, e, j.ttl) {
      }
    }
    L.LeaseStep(s.lease, e, j.ttl);
  }

  lemma WriteIsSound(s: State, x: L.Starter, j: Job)
    requires Sound(s, j) && Enabled(s, Write(x), j) && Granted(s, Write(x), j)
    ensures Sound(Apply(s, Write(x), j), j) && !Running(s, j)
  {
    LeaseKept(s, L.WriteLock(x), j);
    assert L.Grants(L.WriteFollowsCheck, s.lease, L.WriteLock(x), j.ttl);
    assert L.Body(Apply(s, Write(x), j).lease, x, j.name);
  }

  lemma EndIsSound(s: State, x: L.Starter, removed: bool, j: Job)
    requires Sound(s, j) && Enabled(s, End(x, removed), j)
    ensures Sound(Apply(s, End(x, removed), j), j) && !Running(Apply(s, End(x, removed), j), j)
  {
    var s' := Apply(s, End(x, removed), j);
    LeaseKept(s, L.EndRun(x, removed), j);
    assert L.Body(s.lease, x, j.name);
    forall y ensures !L.Body(s'.lease, y, j.name) {
      assert L.Body(s'.lease, y, j.name) ==> L.Body(s.lease, y, j.name) && y != x;
    }
  }

  /** Steps that begin and end no body. */
  lemma OtherIsSound(s: State, e: Event, j: Job)
    requires Sound(s, j) && Enabled(s, e, j) && Granted(s, e, j) && !e.Write? && !e.End?
    ensures Sound(Apply(s, e, j), j)
  {
    var s' := Apply(s, e, j);
    match e {
      case Tick(_) =>
      case Check(x) =>
        if !Fresh(s, j) {
          LeaseKept(s, L.Check(x, j.name), j);
        }
      case Refused(x, damaged) => LeaseKept(s, L.RefusedWrite(x, damaged), j);
      case Delete(_, did) =>
        if did.RowAndLock? {
          LeaseKept(s, L.DeleteSpecLock(j.name), j);
        }
      case Pass(d) => LeaseKept(s, L.Pass(d), j);
    }
    assert forall x :: L.Body(s'.lease, x, j.name) <==> L.Body(s.lease, x, j.name);
  }

  lemma SoundStep(s: State, e: Event, j: Job)
    requires Sound(s, j) && Enabled(s, e, j) && Granted(s, e, j)
    ensures Sound(Apply(s, e, j), j)
  {
    match e
    case Write(x) => WriteIsSound(s, x, j);
    case End(x, removed) => EndIsSound(s, x, removed, j);
    case _ => OtherIsSound(s, e, j);
  }

  /** Over every disciplined history from the moment the spec is stored. */
  lemma {:induction false} SoundAlong(s: State, h: seq<Event>, j: Job)
    requires Sound(s, j) && Possible(s, h, j)
    ensures Sound(After(s, h, j), j)
    decreases |h|
  {
    if h != [] {
      SoundStep(s, h[0], j);
      SoundAlong(Apply(s, h[0], j), h[1..], j);
    }
  }

  // --------------------------------------------------------- one history, exactly

  lemma {:induction false} BodiesGrow(s: State, h: seq<Event>, j: Job)
    requires Possible(s, h, j)
    ensures After(s, h, j).bodies >= s.bodies
    decreases |h|
  {
    if h != [] {
      BodiesGrow(Apply(s, h[0], j), h[1..], j);
    }
  }

  /** Somebody writes the lock although a body has already ended. */
  ghost predicate LateWrite(s: State, h: seq<Event>, j: Job)
    requires Possible(s, h, j)
    decreases |h|
  {
    h != [] && ((h[0].Write? && s.ended > 0) || LateWrite(Apply(s, h[0], j), h[1..], j))
  }

  lemma {:induction false} OnceAlongIff(s: State, h: seq<Event>, j: Job)
    requires Sound(s, j) && s.bodies <= 1 && Possible(s, h, j)
    ensures After(s, h, j).bodies <= 1 <==> !LateWrite(s, h, j)
    decreases |h|
  {
    if h != [] {
      var s' := Apply(s, h[0], j);
      SoundStep(s, h[0], j);
      if h[0].Write? {
        WriteIsSound(s, h[0].x, j);
      }
      if s'.bodies <= 1 {
        OnceAlongIff(s', h[1..], j);
      } else {
        BodiesGrow(s', h[1..], j);
      }
    }
  }

  /** The spec has just been stored: nothing runs, whatever lock files there are. */
  function Stored(now: L.Clock, locks: map<JobName, L.LockFile>): State {
    State(L.State(now, locks, map[]), true, {}, {}, 0, 0)
  }

  /** Over every disciplined history the body runs at most once exactly if nobody writes the lock after a body ended. */
  lemma RunsOnceIff(now: L.Clock, locks: map<JobName, L.LockFile>, h: seq<Event>, j: Job)
    requires L.Positive(j.ttl) && Possible(Stored(now, locks), h, j)
    ensures After(Stored(now, locks), h, j).bodies <= 1 <==> !LateWrite(Stored(now, locks), h, j)
  {
    OnceAlongIff(Stored(now, locks), h, j);
  }

  // ------------------------------------------------- from a moment on, exactly

  /** Started, and not yet at its lock write. */
  ghost predicate Pending(s: State) {
    s.ticked != {} || exists x :: HasChecked(s, x)
  }

  /** The history begins a second body. */
  ghost predicate RunsAgain(s: State, h: seq<Event>, j: Job) {
    Possible(s, h, j) && After(s, h, j).bodies >= 2
  }

  lemma RunsAgainStep(s: State, e: Event, rest: seq<Event>, j: Job)
    requires Enabled(s, e, j) && Granted(s, e, j) && RunsAgain(Apply(s, e, j), rest, j)
    ensures RunsAgain(s, [e] + rest, j)
  {
    assert ([e] + rest)[1..] == rest;
  }

  lemma NotFreshWriteIsGranted(s: State, x: L.Starter, j: Job)
    requires !Fresh(s, j) && HasChecked(s, x) && s.lease.executions[x].job == j.name
    ensures Granted(s, Write(x), j)
  {
    forall c ensures L.Grants(c, s.lease, L.WriteLock(x), j.ttl) {
    }
  }

  /** With the lock not fresh, whoever has checked can write. */
  lemma CheckedRunsAgain(s: State, x: L.Starter, j: Job)
    requires Sound(s, j) && s.bodies >= 1 && !Fresh(s, j) && HasChecked(s, x)
    ensures RunsAgain(s, [Write(x)], j)
  {
    NotFreshWriteIsGranted(s, x, j);
    assert RunsAgain(Apply(s, Write(x), j), [], j);
    RunsAgainStep(s, Write(x), [], j);
    assert [Write(x)] + [] == [Write(x)];
  }

  lemma TickedRunsAgain(s: State, x: L.Starter, j: Job)
    requires Sound(s, j) && s.bodies >= 1 && !Fresh(s, j) && x in s.ticked
    ensures RunsAgain(s, [Check(x), Write(x)], j)
  {
    SoundStep(s, Check(x), j);
    CheckedRunsAgain(Apply(s, Check(x), j), x, j);
    RunsAgainStep(s, Check(x), [Write(x)], j);
    assert [Check(x)] + [Write(x)] == [Check(x), Write(x)];
  }

  lemma RowRunsAgain(s: State, x: L.Starter, j: Job)
    requires Sound(s, j) && s.bodies >= 1 && !Fresh(s, j) && s.row && Unused(s, x)
    ensures RunsAgain(s, [Tick(x), Check(x), Write(x)], j)
  {
    SoundStep(s, Tick(x), j);
    TickedRunsAgain(Apply(s, Tick(x), j), x, j);
    RunsAgainStep(s, Tick(x), [Check(x), Write(x)], j);
    assert [Tick(x)] + [Check(x), Write(x)] == [Tick(x), Check(x), Write(x)];
  }

  /** How long until the lock is stale. */
  function Wait(s: State, j: Job): nat {
    if Fresh(s, j) then s.lease.locks[j.name].at + j.ttl(j.name) - s.lease.now else 0
  }

  lemma WaitingIsGranted(s: State, j: Job)
    requires Sound(s, j) && !Running(s, j)
    ensures Granted(s, Pass(Wait(s, j)), j) && !Fresh(Apply(s, Pass(Wait(s, j)), j), j)
    ensures Sound(Apply(s, Pass(Wait(s, j)), j), j)
  {
    forall x, job ensures !L.Body(s.lease, x, job) {
      assert L.Body(s.lease, x, job) ==> L.Body(s.lease, x, j.name);
    }
    forall c ensures L.Grants(c, s.lease, L.Pass(Wait(s, j)), j.ttl) {
    }
    SoundStep(s, Pass(Wait(s, j)), j);
  }

  /** With the row gone and nobody on the way, nothing can start any more. */
  lemma {:induction false} NothingStarts(s: State, h: seq<Event>, j: Job)
    requires !s.row && !Pending(s) && Possible(s, h, j)
    ensures After(s, h, j).bodies == s.bodies
    decreases |h|
  {
    if h != [] {
      assert forall x :: !HasChecked(s, x);
      var s' := Apply(s, h[0], j);
      forall x ensures HasChecked(s', x) ==> HasChecked(s, x) {
      }
      NothingStarts(s', h[1..], j);
    }
  }

  lemma StillRunsAgain(s: State, j: Job, x: L.Starter) returns (h: seq<Event>)
    requires Sound(s, j) && !Running(s, j) && s.bodies >= 1 && Unused(s, x) && (s.row || Pending(s))
    ensures RunsAgain(s, h, j)
  {
    var wait := Pass(Wait(s, j));
    WaitingIsGranted(s, j);
    var s' := Apply(s, wait, j);
    if s.row {
      h := [Tick(x), Check(x), Write(x)];
      RowRunsAgain(s', x, j);
    } else if y :| y in s.ticked {
      h := [Check(y), Write(y)];
      TickedRunsAgain(s', y, j);
    } else {
      var y :| HasChecked(s, y);
      h := [Write(y)];
      CheckedRunsAgain(s', y, j);
    }
    RunsAgainStep(s, wait, h, j);
    h := [wait] + h;
  }

  /**
    When, after any disciplined history, the only body so far has ended, a second one can
    still begin exactly if the row is still there or some started execution is ahead of
    its lock write.
   */
  lemma OnceFromHereIff(now: L.Clock, locks: map<JobName, L.LockFile>, before: seq<Event>, j: Job, x: L.Starter)
    requires L.Positive(j.ttl) && Possible(Stored(now, locks), before, j)
    requires var s := After(Stored(now, locks), before, j);
             s.ended == 1 && s.bodies == 1 && Unused(s, x)
    ensures var s := After(Stored(now, locks), before, j);
            (exists h :: RunsAgain(s, h, j)) <==> s.row || Pending(s)
  {
    SoundAlong(Stored(now, locks), before, j);
    var s := After(Stored(now, locks), before, j);
    if s.row || Pending(s) {
      var h := StillRunsAgain(s, j, x);
    } else {
      forall h ensures !RunsAgain(s, h, j) {
        if Possible(s, h, j) {
          NothingStarts(s, h, j);
        }
      }
    }
  }

  // ------------------------------------------------------------ keeping the gap

  /** No tick falls between the end of a body and the row's deletion, and no body ends with another execution on its way. */
  ghost predicate GapKept(s: State, e: Event, j: Job)
    requires Enabled(s, e, j)
  {
    && (e.Tick? ==> s.ended == 0)
    && (e.End? ==> !Pending(s))
  }

  ghost predicate GapKeptAlong(s: State, h: seq<Event>, j: Job)
    requires Possible(s, h, j)
    decreases |h|
  {
    h == [] || (GapKept(s, h[0], j) && GapKeptAlong(Apply(s, h[0], j), h[1..], j))
  }

  lemma {:induction false} KeptGapMeansOnce(s: State, h: seq<Event>, j: Job)
    requires Possible(s, h, j) && GapKeptAlong(s, h, j) && (s.ended > 0 ==> !Pending(s))
    ensures !LateWrite(s, h, j)
    decreases |h|
  {
    if h != [] {
      var s' := Apply(s, h[0], j);
      if h[0].Write? {
        assert HasChecked(s, h[0].x);
      }
      forall x ensures HasChecked(s', x) ==> HasChecked(s, x) || x in s.ticked {
      }
      KeptGapMeansOnce(s', h[1..], j);
    }
  }

  /** So a one-shot whose gap is kept runs at most once. */
  lemma KeptGapRunsOnce(now: L.Clock, locks: map<JobName, L.LockFile>, h: seq<Event>, j: Job)
    requires L.Positive(j.ttl) && Possible(Stored(now, locks), h, j) && GapKeptAlong(Stored(now, locks), h, j)
    ensures After(Stored(now, locks), h, j).bodies <= 1
  {
    KeptGapMeansOnce(Stored(now, locks), h, j);
    RunsOnceIff(now, locks, h, j);
  }

  /** The program does not keep it: the lock goes, the next tick comes, and the row is still there. */
  lemma TickInTheGapRunsTwice(j: Job)
    requires L.Positive(j.ttl)
    ensures RunsAgain(Stored(0, map[]), [Tick(1), Check(1), Write(1), End(1, true), Tick(2), Check(2), Write(2)], j)
  {
    var s0 := Stored(0, map[]);
    var s1 := Apply(s0, Tick(1), j);
    var s2 := Apply(s1, Check(1), j);
    NotFreshWriteIsGranted(s2, 1, j);
    var s3 := Apply(s2, Write(1), j);
    var s4 := Apply(s3, End(1, true), j);
    SoundStep(s0, Tick(1), j);
    SoundStep(s1, Check(1), j);
    SoundStep(s2, Write(1), j);
    SoundStep(s3, End(1, true), j);
    RowRunsAgain(s4, 2, j);
    var tail := [Tick(2), Check(2), Write(2)];
    RunsAgainStep(s3, End(1, true), tail, j);
    RunsAgainStep(s2, Write(1), [End(1, true)] + tail, j);
    RunsAgainStep(s1, Check(1), [Write(1)] + ([End(1, true)] + tail), j);
    RunsAgainStep(s0, Tick(1), [Check(1)] + ([Write(1)] + ([End(1, true)] + tail)), j);
    assert [Tick(1)] + ([Check(1)] + ([Write(1)] + ([End(1, true)] + tail)))
        == [Tick(1), Check(1), Write(1), End(1, true), Tick(2), Check(2), Write(2)];
  }

  /** Nor does deleting the row in time help against an execution already on its way. */
  lemma StragglerGetsIn(s: State, x: L.Starter, y: L.Starter, j: Job)
    requires Sound(s, j) && s.row && HasChecked(s, x) && y in s.ticked && !Fresh(s, j)
    ensures RunsAgain(s, [Write(x), End(x, true), Delete(x, RowAndLock), Check(y), Write(y)], j)
  {
    NotFreshWriteIsGranted(s, x, j);
    WriteIsSound(s, x, j);
    var s1 := Apply(s, Write(x), j);
    EndIsSound(s1, x, true, j);
    var s2 := Apply(s1, End(x, true), j);
    forall c ensures L.Grants(c, s2.lease, L.DeleteSpecLock(j.name), j.ttl) {
    }
    SoundStep(s2, Delete(x, RowAndLock), j);
    TickedRunsAgain(Apply(s2, Delete(x, RowAndLock), j), y, j);
    RunsAgainStep(s2, Delete(x, RowAndLock), [Check(y), Write(y)], j);
    RunsAgainStep(s1, End(x, true), [Delete(x, RowAndLock)] + [Check(y), Write(y)], j);
    RunsAgainStep(s, Write(x), [End(x, true)] + ([Delete(x, RowAndLock)] + [Check(y), Write(y)]), j);
    assert [Write(x)] + ([End(x, true)] + ([Delete(x, RowAndLock)] + [Check(y), Write(y)]))
        == [Write(x), End(x, true), Delete(x, RowAndLock), Check(y), Write(y)];
  }

  lemma StragglerRunsTwice(j: Job)
    requires L.Positive(j.ttl)
    ensures RunsAgain(Stored(0, map[]),
                      [Tick(1), Tick(2), Check(1)] + [Write(1), End(1, true), Delete(1, RowAndLock), Check(2), Write(2)], j)
  {
    var s0 := Stored(0, map[]);
    var s1 := Apply(s0, Tick(1), j);
    var s2 := Apply(s1, Tick(2), j);
    SoundStep(s0, Tick(1), j);
    SoundStep(s1, Tick(2), j);
    SoundStep(s2, Check(1), j);
    var rest := [Write(1), End(1, true), Delete(1, RowAndLock), Check(2), Write(2)];
    StragglerGetsIn(Apply(s2, Check(1), j), 1, 2, j);
    RunsAgainStep(s2, Check(1), rest, j);
    RunsAgainStep(s1, Tick(2), [Check(1)] + rest, j);
    RunsAgainStep(s0, Tick(1), [Tick(2)] + ([Check(1)] + rest), j);
    assert [Tick(1)] + ([Tick(2)] + ([Check(1)] + rest)) == [Tick(1), Tick(2), Check(1)] + rest;
  }

  // ------------------------------------------------- what the events make of it

  /** Started and not through with the deletion of its spec, by its own events alone. */
  function Alive(h: seq<Event>, x: L.Starter, was: bool): bool {
    if h == [] then was
    else
      match h[0]
      case Tick(y) => Alive(h[1..], x, was || x == y)
      case Delete(y, _) => Alive(h[1..], x, was && x != y)
      case _ => Alive(h[1..], x, was)
  }

  predicate InOnePlace(s: State, x: L.Starter) {
    !(x in s.ticked && x in s.lease.executions) && !(x in s.ticked && x in s.closing) && !(x in s.lease.executions && x in s.closing)
  }

  /** Over every history an execution that was started is on its way, under the lock or about to delete its spec, in just one of these, until it has tried to. */
  lemma {:induction false} EveryExecutionCloses(s: State, h: seq<Event>, x: L.Starter, j: Job)
    requires Possible(s, h, j) && InOnePlace(s, x)
    ensures InOnePlace(After(s, h, j), x)
    ensures Unused(After(s, h, j), x) <==> !Alive(h, x, !Unused(s, x))
    decreases |h|
  {
    if h != [] {
      EveryExecutionCloses(Apply(s, h[0], j), h[1..], x, j);
    }
  }

  /** Whether the row is there, and whether a lock file is, by the last event that concerns it. */
  function RowBy(h: seq<Event>, was: bool): bool {
    if h == [] then was else RowBy(h[1..], was && !(h[0].Delete? && h[0].did != NothingDeleted))
  }

  function LockBy(h: seq<Event>, was: bool): bool {
    if h == [] then was
    else
      match h[0]
      case Write(_) => LockBy(h[1..], true)
      case Refused(_, damaged) => LockBy(h[1..], was || damaged)
      case End(_, removed) => LockBy(h[1..], was && !removed)
      case Delete(_, did) => LockBy(h[1..], was && !did.RowAndLock?)
      case _ => LockBy(h[1..], was)
  }

  /** The row is there until some execution deletes it; with it goes the lock file, unless its removal fails. */
  lemma {:induction false} DeletionTakesRowAndLock(s: State, h: seq<Event>, j: Job)
    requires Possible(s, h, j) && forall x :: x in s.lease.executions ==> s.lease.executions[x].job == j.name
    ensures After(s, h, j).row <==> RowBy(h, s.row)
    ensures j.name in After(s, h, j).lease.locks <==> LockBy(h, j.name in s.lease.locks)
    decreases |h|
  {
    if h != [] {
      DeletionTakesRowAndLock(Apply(s, h[0], j), h[1..], j);
    }
  }
}
