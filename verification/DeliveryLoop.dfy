/**
  The delivery loop itself: one object, updated statement by statement, over the
  shared connection. Tools and executors write to the same tables at every moment
  the loop leaves them.
 */
module DeliveryLoop {
  import opened Wrappers
  import opened CronTables
  import opened CronDb
  import opened DeliveryProtocol
  import opened DeliveryAttempts
  import opened DeliveryProgress

  predicate OthersEvents(h: seq<Event>) {
    forall i :: 0 <= i < |h| ==> h[i].Tool? || h[i].Executor?
  }

  /** Tools and executors neither see nor touch the loop's own state. */
  lemma OthersIgnoreTheLoop(s: State, t: State, e: Event)
    requires e.Tool? || e.Executor?
    requires s.tables == t.tables && s.executors == t.executors && s.lastTarget == t.lastTarget
    ensures Enabled(s, e) <==> Enabled(t, e)
    ensures Enabled(s, e) ==>
              Apply(s, e) == s.(tables := Apply(t, e).tables, executors := Apply(t, e).executors, lastTarget := Apply(t, e).lastTarget)
  {
  }

  /** Everyone but the loop who writes to the tables. */
  class Others {
    const db: Connection
    var executors: map<RunId, ExecutorPoint>
    var lastTarget: map<JobName, Target>

    constructor (db: Connection)
      ensures this.db == db && executors == map[] && lastTarget == map[]
    {
      this.db := db;
      executors, lastTarget := map[], map[];
    }

    /** Any number of statements of tools and executors. */
    method Act(ghost s: State) returns (ghost h: seq<Event>)
      requires s.tables == Tables(db.specs, db.runs) && s.executors == executors && s.lastTarget == lastTarget
      modifies this, db
      ensures OthersEvents(h) && Possible(s, h)
      ensures After(s, h) == s.(tables := Tables(db.specs, db.runs), executors := executors, lastTarget := lastTarget)
    {
      h := [];
      var rounds: nat :| true;
      for n := 0 to rounds
        invariant OthersEvents(h) && Possible(s, h)
        invariant After(s, h) == s.(tables := Tables(db.specs, db.runs), executors := executors, lastTarget := lastTarget)
      {
        var e: Event := *;
        var here := State(Tables(db.specs, db.runs), executors, Idle, {}, map[], [], lastTarget);
        if (e.Tool? || e.Executor?) && Enabled(here, e) {
          OthersIgnoreTheLoop(After(s, h), here, e);
          Extend(s, h, e);
          h := h + [e];
          var next := Apply(here, e);
          db.specs, db.runs, executors, lastTarget := next.tables.specs, next.tables.runs, next.executors, next.lastTarget;
        }
      }
    }
  }

  /** What a poll finds when it wakes up. */
  datatype Poll = Poll(idle: bool, allowed: set<int>, now: Time)

  /** How a pass ended; `RunHandled` is one that got beyond the dedup, with every outcome written or not. */
  datatype PassEnd = NothingPending | ChatNotIdle | NothingChosen | AlreadyDelivered(id: RunId) | RunHandled(written: bool)

  /** Every outcome write of the history was reported to have gone through. */
  predicate Reported(h: seq<Event>) {
    forall i :: 0 <= i < |h| && h[i].Loop? && h[i].step.Mark? ==> h[i].step.reported
  }

  /** What a pass is judged by: its classifications, and whether its writes went through. */
  lemma {:induction false} ClassificationsConcat(h: seq<Event>, k: seq<Event>)
    ensures Classifications(h + k) == Classifications(h) + Classifications(k)
  {
    if h == [] {
      assert h + k == k;
    } else {
      assert (h + k)[1..] == h[1..] + k;
      ClassificationsConcat(h[1..], k);
    }
  }

  /** The run's row, while there is one, carries this outcome and time. */
  predicate WrittenAs(runs: Runs, id: RunId, outcome: DeliveryStatus, now: Time) {
    id in runs ==> runs[id].deliveryStatus == outcome && runs[id].deliveredAt == Some(now)
  }

  /** `log` is `was` and one more call, of this run and to this target. */
  predicate OneCall(was: seq<Attempt>, log: seq<Attempt>, id: RunId, target: Target) {
    |log| == |was| + 1 && log[..|was|] == was && log[|was|].id == id && log[|was|].target == target
  }

  /** At most one call was added, to an allowed chat. */
  predicate CallsWithin(was: seq<Attempt>, log: seq<Attempt>, allowed: set<int>) {
    log == was
    || (|log| == |was| + 1 && log[..|was|] == was && log[|was|].target.chat.Some? && log[|was|].target.chat.value in allowed)
  }

  lemma Did(s: State, h: seq<Event>, e: LoopEvent)
    requires Possible(s, h) && Restart !in h && LoopEnabled(After(s, h), e)
    ensures Possible(s, h + [Loop(e)]) && Restart !in h + [Loop(e)]
    ensures After(s, h + [Loop(e)]) == ApplyLoop(After(s, h), e)
    ensures Classifications(h + [Loop(e)]) == Classifications(h) + One(e.Classify?)
    ensures Reported(h) && (e.Mark? ==> e.reported) ==> Reported(h + [Loop(e)])
  {
    Extend(s, h, Loop(e));
    ClassificationsConcat(h, [Loop(e)]);
    ClassificationsCons(Loop(e), []);
    assert [Loop(e)] + [] == [Loop(e)];
  }

  /** What a delivery call does to the loop's own state. */
  lemma DeliverIs(s: State, ok: bool)
    requires s.point.Delivering?
    ensures var id, tries := s.point.id, Count(s.attemptCounts, s.point.id) + 1;
            ApplyLoop(s, Deliver(ok)) ==
            s.(log := s.log + [Attempt(id, s.point.target, ok)],
               attemptCounts := if ok then s.attemptCounts else s.attemptCounts[id := tries],
               point := if ok then Settling(id, Delivered)
                        else if tries >= MAX_DELIVERY_ATTEMPTS then Settling(id, GaveUp)
                        else Idle)
  {
  }

  class Courier {
    const others: Others
    const db: Connection
    var deliveredInMemory: set<RunId>
    var attemptCounts: map<RunId, nat>
    ghost var log: seq<Attempt>

    ghost predicate Valid()
    {
      db == others.db
    }

    /** A fresh process. */
    constructor (others: Others)
      ensures Valid() && this.others == others
      ensures deliveredInMemory == {} && attemptCounts == map[] && log == []
    {
      this.others, this.db := others, others.db;
      deliveredInMemory, attemptCounts, log := {}, map[], [];
    }

    /** The protocol state this object stands for with the loop at the given point. */
    ghost function View(point: LoopPoint): State
      reads this, others, db
    {
      State(Tables(db.specs, db.runs), others.executors, point, deliveredInMemory, attemptCounts, log, others.lastTarget)
    }

    /** `h` leads from `s` to the present, with the loop at `point`. */
    ghost predicate Trail(s: State, h: seq<Event>, point: LoopPoint)
      reads this, others, db
    {
      Possible(s, h) && Restart !in h && After(s, h) == View(point)
    }

    /** Lets everyone else act. */
    method Await(ghost s: State, ghost h: seq<Event>, ghost point: LoopPoint) returns (ghost h': seq<Event>)
      requires Valid() && Trail(s, h, point)
      modifies others, db
      ensures Trail(s, h', point)
      ensures Classifications(h') == Classifications(h) && (Reported(h) ==> Reported(h'))
    {
      ghost var k := others.Act(View(point));
      AfterConcat(s, h, k);
      NoClassification(k);
      ClassificationsConcat(h, k);
      h' := h + k;
    }

    /**
      One pass of the loop body. Whatever fails and whoever writes meanwhile, the
      statements form a history of the protocol; a pass beyond the dedup with a run
      not delivered before settles it or uses up one of its attempts, and any other
      pass settles nothing.
     */
    method Step(poll: Poll) returns (end: PassEnd, ghost h: seq<Event>)
      requires Valid()
      modifies this, others, db
      ensures Trail(old(View(Idle)), h, Idle)
      ensures Settlements(old(View(Idle)), h) == One(end.RunHandled?)
      ensures end.RunHandled? ==> poll.idle && (end.written ==> Reported(h))
      ensures !end.RunHandled? ==> Reported(h)
      ensures end.AlreadyDelivered? ==> end.id in old(deliveredInMemory)
      ensures CallsWithin(old(log), log, poll.allowed)
    {
      ghost var s := View(Idle);
      h := Await(s, [], Idle);
      end, h := Pass(poll, s, h);
      EveryPassSettles(s, h);
    }

    method Pass(poll: Poll, ghost s: State, ghost h0: seq<Event>) returns (end: PassEnd, ghost h: seq<Event>)
      requires Valid() && Trail(s, h0, Idle) && Classifications(h0) == 0 && Reported(h0)
      modifies this, others, db
      ensures Trail(s, h, Idle) && Classifications(h) == One(end.RunHandled?)
      ensures end.RunHandled? ==> poll.idle && (end.written ==> Reported(h))
      ensures !end.RunHandled? ==> Reported(h)
      ensures end.AlreadyDelivered? ==> end.id in old(deliveredInMemory)
      ensures CallsWithin(old(log), log, poll.allowed)
    {
      h := h0;
      var fetched, pending := db.FetchPending();
      if !fetched || pending.None? {
        end := if fetched then NothingPending else NothingChosen;
        return;
      }
      var job := pending.value.jobName;
      Did(s, h, FetchPending(pending.value.id));
      h := Await(s, h + [Loop(FetchPending(pending.value.id))], Fetched(job));
      if !poll.idle {
        Did(s, h, GateClosed);
        end, h := ChatNotIdle, h + [Loop(GateClosed)];
        return;
      }
      var result;
      result, h := Deduplicate(job, poll.now, s, h);
      if result.None? {
        end := NothingChosen;
        return;
      }
      end, h := HandleChosen(poll, result.value, s, h);
    }

    /** The SELECT and the UPDATE, with everyone else free to write between them. */
    method Deduplicate(job: JobName, now: Time, ghost s: State, ghost h0: seq<Event>)
      returns (result: Option<PendingCronResult>, ghost h: seq<Event>)
      requires Valid() && Trail(s, h0, Fetched(job))
      modifies others, db
      ensures Trail(s, h, if result.Some? then Chosen(result.value.id, result.value.target) else Idle)
      ensures Classifications(h) == Classifications(h0) && (Reported(h0) ==> Reported(h))
    {
      h := h0;
      var ok, latest := db.SelectLatest(job);
      if !ok || latest.None? {
        Did(s, h, DatabaseError);
        result, h := None, h + [Loop(DatabaseError)];
        return;
      }
      var id := latest.value.id;
      Did(s, h, SelectLatest(id));
      h := Await(s, h + [Loop(SelectLatest(id))], Selected(job, id, latest.value.target));
      var updated, _ := db.SupersedeOlder(job, id, now);
      if updated {
        Did(s, h, SupersedeOlder(now));
        result := latest;
        h := Await(s, h + [Loop(SupersedeOlder(now))], Chosen(id, latest.value.target));
      } else {
        Did(s, h, DatabaseError);
        result, h := None, h + [Loop(DatabaseError)];
      }
    }

    /** From the deduplicated run on: skip it, settle it unsent, or send it and settle or count the failure. */
    method HandleChosen(poll: Poll, result: PendingCronResult, ghost s: State, ghost h0: seq<Event>)
      returns (end: PassEnd, ghost h: seq<Event>)
      requires Valid() && Trail(s, h0, Chosen(result.id, result.target))
      modifies this, others, db
      ensures Trail(s, h, Idle)
      ensures Classifications(h) == Classifications(h0) + One(end.RunHandled?)
      ensures Reported(h0) && (end.RunHandled? ==> end.written) ==> Reported(h)
      ensures if result.id in old(deliveredInMemory) then end == AlreadyDelivered(result.id) else end.RunHandled?
      ensures if end.RunHandled? && result.target.chat.Some? && result.target.chat.value in poll.allowed
              then OneCall(old(log), log, result.id, result.target) else log == old(log)
      ensures end == RunHandled(true) && result.target.chat.None? ==> WrittenAs(db.runs, result.id, NoTarget, poll.now)
      ensures end == RunHandled(true) && result.target.chat.Some? && result.target.chat.value !in poll.allowed ==>
                WrittenAs(db.runs, result.id, Denied, poll.now)
      ensures end == RunHandled(true) && |log| > |old(log)| && log[|old(log)|].ok ==> WrittenAs(db.runs, result.id, Delivered, poll.now)
      ensures end == RunHandled(true) && |log| > |old(log)| && !log[|old(log)|].ok && Count(old(attemptCounts), result.id) >= 2 ==>
                WrittenAs(db.runs, result.id, GaveUp, poll.now)
    {
      h := h0;
      if result.id in deliveredInMemory {
        Did(s, h, SkipDelivered);
        end, h := AlreadyDelivered(result.id), h + [Loop(SkipDelivered)];
        return;
      }
      ghost var classify := Classify(poll.allowed);
      Did(s, h, classify);
      h := h + [Loop(classify)];
      var written;
      match ClassifyPendingTarget(result.target, poll.allowed) {
        case NoTargetSet => written, h := Record(poll.now, result.id, NoTarget, s, h);
        case NotAllowed => written, h := Record(poll.now, result.id, Denied, s, h);
        case Ready(_, _) => written, h := SendChosen(poll.now, result, s, h);
      }
      end := RunHandled(written);
    }

    /** The delivery call and what follows from its result. */
    method SendChosen(now: Time, result: PendingCronResult, ghost s: State, ghost h0: seq<Event>)
      returns (written: bool, ghost h: seq<Event>)
      requires Valid() && Trail(s, h0, Delivering(result.id, result.target))
      modifies this, others, db
      ensures Trail(s, h, Idle) && Classifications(h) == Classifications(h0)
      ensures Reported(h0) && written ==> Reported(h)
      ensures OneCall(old(log), log, result.id, result.target)
      ensures written && log[|old(log)|].ok ==> WrittenAs(db.runs, result.id, Delivered, now)
      ensures written && !log[|old(log)|].ok && Count(old(attemptCounts), result.id) + 1 >= MAX_DELIVERY_ATTEMPTS ==>
                WrittenAs(db.runs, result.id, GaveUp, now)
    {
      var delivered;
      delivered, h := DeliverThroughSession(result, s, h0);
      if delivered {
        written, h := Record(now, result.id, Delivered, s, h);
      } else if attemptCounts[result.id] >= MAX_DELIVERY_ATTEMPTS {
        written, h := Record(now, result.id, GaveUp, s, h);
      } else {
        written := true;
      }
    }

    /**
      Hands a result to the chat session, a long wait in which everyone else acts;
      any outcome is possible. A failure uses up an attempt.
     */
    method DeliverThroughSession(result: PendingCronResult, ghost s: State, ghost h0: seq<Event>)
      returns (delivered: bool, ghost h: seq<Event>)
      requires Valid() && Trail(s, h0, Delivering(result.id, result.target))
      modifies this`log, this`attemptCounts, others, db
      ensures log == old(log) + [Attempt(result.id, result.target, delivered)]
      ensures delivered ==> attemptCounts == old(attemptCounts)
      ensures !delivered ==> attemptCounts == old(attemptCounts)[result.id := Count(old(attemptCounts), result.id) + 1]
      ensures Trail(s, h, if delivered then Settling(result.id, Delivered)
                          else if attemptCounts[result.id] >= MAX_DELIVERY_ATTEMPTS then Settling(result.id, GaveUp)
                          else Idle)
      ensures Classifications(h) == Classifications(h0) && (Reported(h0) ==> Reported(h))
    {
      h := Await(s, h0, Delivering(result.id, result.target));
      delivered := *;
      Did(s, h, Deliver(delivered));
      DeliverIs(View(Delivering(result.id, result.target)), delivered);
      h := h + [Loop(Deliver(delivered))];
      log := log + [Attempt(result.id, result.target, delivered)];
      if !delivered {
        var attempts := (if result.id in attemptCounts then attemptCounts[result.id] else 0) + 1;
        attemptCounts := attemptCounts[result.id := attempts];
      }
    }

    /**
      Writes the outcome; if the write reports an error, remembers the run so it is
      not sent again. A run given up loses its counter either way.
     */
    method Record(now: Time, id: RunId, outcome: DeliveryStatus, ghost s: State, ghost h0: seq<Event>)
      returns (reported: bool, ghost h: seq<Event>)
      requires Valid() && Trail(s, h0, Settling(id, outcome))
      modifies this`deliveredInMemory, this`attemptCounts, others, db
      ensures Trail(s, h, Idle) && Classifications(h) == Classifications(h0)
      ensures Reported(h0) && reported ==> Reported(h)
      ensures deliveredInMemory == if reported then old(deliveredInMemory) else old(deliveredInMemory) + {id}
      ensures attemptCounts == if outcome.GaveUp? then old(attemptCounts) - {id} else old(attemptCounts)
      ensures reported ==> WrittenAs(db.runs, id, outcome, now)
    {
      h := Await(s, h0, Settling(id, outcome));
      ghost var applied;
      reported, applied := db.MarkDeliveryOutcome(id, outcome, now);
      Did(s, h, Mark(now, applied, reported));
      h := h + [Loop(Mark(now, applied, reported))];
      if !reported {
        deliveredInMemory := deliveredInMemory + {id};
      }
      if outcome.GaveUp? {
        attemptCounts := attemptCounts - {id};
      }
    }

    /**
      The loop over its polls, with everyone else writing all the while. From any
      state a history can reach, no run is sent more than MAX_DELIVERY_ATTEMPTS
      times and none is sent again after a success.
     */
    method Run(polls: seq<Poll>) returns (ghost h: seq<Event>)
      requires Valid() && AttemptInv(View(Idle))
      modifies this, others, db
      ensures Trail(old(View(Idle)), h, Idle) && AttemptInv(View(Idle))
      ensures forall id :: Tries(log, id) <= MAX_DELIVERY_ATTEMPTS
      ensures NothingAfterSuccess(log)
    {
      ghost var boot := View(Idle);
      h := [];
      for i := 0 to |polls|
        invariant Trail(boot, h, Idle) && AttemptInv(View(Idle))
      {
        ghost var s := View(Idle);
        var _, k := Step(polls[i]);
        AttemptInvAlong(s, k);
        AfterConcat(boot, h, k);
        h := h + k;
      }
    }
  }

  /** Whatever the processes before it did, a process that boots starts where the bound holds. */
  lemma BootIsBounded(s: State, h: seq<Event>)
    requires Initial(s) && Possible(s, h)
    ensures var boot := Apply(After(s, h), Restart);
            boot.point.Idle? && boot.log == [] && AttemptInv(boot) && CountsBelow(boot)
  {
    AttemptInvAlong(s, h);
    AttemptStep(After(s, h), Restart);
  }
}
