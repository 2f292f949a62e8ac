/**
  Run rows carry a snapshot of their spec's target. The simple design would
  re-read the spec when it delivers; this module shows the snapshot agrees with
  it, and exactly when it would stop to.
 */
module DeliveryTargets {
  import opened Wrappers
  import opened CronTables
  import opened DeliveryProtocol
  import opened DeliverySafety
  import opened DeliveryAttempts

  /** What the simple design would use: the spec's target, or its last one once the spec is gone. */
  function SimpleTarget(s: State, job: JobName): Target
    requires job in s.lastTarget
  {
    if job in s.tables.specs then s.tables.specs[job].target else s.lastTarget[job]
  }

  /** A row that may still be chosen for delivery: an executor owns it, or it is awaiting. */
  predicate MayDeliver(s: State, id: RunId) {
    id in s.tables.runs && (id in s.executors || s.tables.runs[id].Awaiting())
  }

  ghost predicate SnapshotsAgree(s: State) {
    && (forall job :: job in s.tables.specs ==> job in s.lastTarget && s.lastTarget[job] == s.tables.specs[job].target)
    && (forall id :: MayDeliver(s, id) ==>
          s.tables.runs[id].jobName in s.lastTarget
          && s.tables.runs[id].target == s.lastTarget[s.tables.runs[id].jobName])
  }

  /**
    What a step must observe: a run is inserted with the current (or last) target
    of its job, and a spec is not created under a name that still has runs to
    deliver elsewhere.
   */
  ghost predicate KeepsTargets(s: State, e: Event) {
    match e
    case Executor(InsertRun(_, job, target)) => job in s.lastTarget && target == s.lastTarget[job]
    case Tool(CreateSpecRow(job, row)) =>
      forall id :: MayDeliver(s, id) && s.tables.runs[id].jobName == job ==> s.tables.runs[id].target == row.target
    case _ => true
  }

  /** A redirect reaches every row that may still be delivered. */
  lemma PatchKeepsSnapshots(s: State, job: JobName, p: SpecPatch)
    requires BaseInv(s) && SnapshotsAgree(s) && ToolEnabled(s, PatchSpecRow(job, p))
    ensures SnapshotsAgree(ApplyTool(s, PatchSpecRow(job, p)))
  {
  }

  /** Nothing gets due that was not, and no target moves. */
  ghost predicate MakesNothingDue(s: State, s': State) {
    && s'.tables.specs == s.tables.specs && s'.lastTarget == s.lastTarget && s'.executors == s.executors
    && s'.tables.runs.Keys == s.tables.runs.Keys
    && forall id :: id in s.tables.runs ==>
         && s'.tables.runs[id].target == s.tables.runs[id].target
         && s'.tables.runs[id].jobName == s.tables.runs[id].jobName
         && (s'.tables.runs[id].Awaiting() ==> s.tables.runs[id].Awaiting())
  }

  lemma LoopMakesNothingDue(s: State, e: LoopEvent)
    requires LoopEnabled(s, e)
    ensures MakesNothingDue(s, ApplyLoop(s, e))
  {
    if !e.SupersedeOlder? && !e.Mark? {
      assert ApplyLoop(s, e).tables == s.tables;
    }
  }

  lemma SnapshotsStay(s: State, s': State)
    requires SnapshotsAgree(s) && MakesNothingDue(s, s')
    ensures SnapshotsAgree(s')
  {
    forall id | MayDeliver(s', id) ensures MayDeliver(s, id) {
    }
  }

  /** A delivery step hands out no new snapshots. */
  lemma LoopKeepsSnapshots(s: State, e: LoopEvent)
    requires SnapshotsAgree(s) && LoopEnabled(s, e)
    ensures SnapshotsAgree(ApplyLoop(s, e))
  {
    LoopMakesNothingDue(s, e);
    SnapshotsStay(s, ApplyLoop(s, e));
  }

  lemma ExecutorKeepsSnapshotsIff(s: State, e: ExecutorEvent)
    requires BaseInv(s) && SnapshotsAgree(s) && ExecutorEnabled(s, e)
    ensures SnapshotsAgree(ApplyExecutor(s, e)) <==> KeepsTargets(s, Executor(e))
  {
    var s' := ApplyExecutor(s, e);
    if e.InsertRun? {
      assert MayDeliver(s', e.id);
      assert forall id :: id != e.id && MayDeliver(s', id) ==> MayDeliver(s, id);
    } else {
      assert MayDeliver(s, e.id);
      assert s'.lastTarget == s.lastTarget;
      forall id | MayDeliver(s', id)
        ensures MayDeliver(s, id) && s'.tables.runs[id].target == s.tables.runs[id].target
                && s'.tables.runs[id].jobName == s.tables.runs[id].jobName
      {
      }
    }
  }

  /** The exact condition for one step to keep every snapshot in agreement. */
  lemma SnapshotStepIff(s: State, e: Event)
    requires BaseInv(s) && SnapshotsAgree(s) && Enabled(s, e)
    ensures SnapshotsAgree(Apply(s, e)) <==> KeepsTargets(s, e)
  {
    match e
    case Tool(CreateSpecRow(job, row)) =>
      var s' := Apply(s, e);
      assert forall id :: MayDeliver(s', id) <==> MayDeliver(s, id);
    case Tool(PatchSpecRow(job, p)) => PatchKeepsSnapshots(s, job, p);
    case Tool(DropSpecRow(job)) =>
      var s' := Apply(s, e);
      assert forall id :: MayDeliver(s', id) <==> MayDeliver(s, id);
    case Executor(x) => ExecutorKeepsSnapshotsIff(s, x);
    case Loop(l) => LoopKeepsSnapshots(s, l);
    case Restart =>
      assert forall id :: MayDeliver(Apply(s, e), id) ==> MayDeliver(s, id);
  }

  ghost predicate KeepsTargetsAlong(s: State, h: seq<Event>)
    requires Possible(s, h)
    decreases |h|
  {
    h == [] || (KeepsTargets(s, h[0]) && KeepsTargetsAlong(Apply(s, h[0]), h[1..]))
  }

  lemma {:induction false} SnapshotsAgreeAlong(s: State, h: seq<Event>)
    requires Possible(s, h) && KeepsTargetsAlong(s, h) && BaseInv(s) && SnapshotsAgree(s)
    ensures BaseInv(After(s, h)) && SnapshotsAgree(After(s, h))
    decreases |h|
  {
    if h != [] {
      BaseStep(s, h[0]);
      SnapshotStepIff(s, h[0]);
      SnapshotsAgreeAlong(Apply(s, h[0]), h[1..]);
    }
  }

  /** The target the dedup SELECT hands to delivery is the one the simple design would read at that moment. */
  lemma SnapshotRefinesReread(s: State, h: seq<Event>, id: RunId)
    requires Initial(s) && Possible(s, h) && KeepsTargetsAlong(s, h)
    requires LoopEnabled(After(s, h), SelectLatest(id))
    ensures var t := After(s, h);
            t.point.job in t.lastTarget
            && ApplyLoop(t, SelectLatest(id)).point == Selected(t.point.job, id, SimpleTarget(t, t.point.job))
  {
    SnapshotsAgreeAlong(s, h);
    assert MayDeliver(After(s, h), id);
  }

  // ----------------------------------------------- runs from an older spec

  /** After the first `m` events of the history the job's current or last target was `t`. */
  ghost predicate HadTarget(s: State, h: seq<Event>, m: nat, job: JobName, t: Target) {
    && m <= |h| && Possible(s, h[..m])
    && job in After(s, h[..m]).lastTarget && After(s, h[..m]).lastTarget[job] == t
  }

  /**
    What the program does guarantee: a run is inserted with a target its spec had
    when it was loaded, `load[id]` events into the history and possibly long before.
   */
  ghost predicate InsertsWereLoaded(s: State, h: seq<Event>, load: map<RunId, nat>) {
    forall k :: 0 <= k < |h| && h[k].Executor? && h[k].exec.InsertRun? ==>
      && h[k].exec.id in load && load[h[k].exec.id] <= k
      && HadTarget(s, h, load[h[k].exec.id], h[k].exec.job, h[k].exec.target)
  }

  /** A row's target comes from its insert, from a change of its spec, or from before. */
  lemma TargetsCome(s: State, e: Event, id: RunId)
    requires Enabled(s, e) && id in Apply(s, e).tables.runs
    ensures var s' := Apply(s, e);
            var row := s'.tables.runs[id];
            || (id in s.tables.runs && row.jobName == s.tables.runs[id].jobName && row.target == s.tables.runs[id].target)
            || e == Executor(InsertRun(id, row.jobName, row.target))
            || (id in s.tables.runs && row.jobName == s.tables.runs[id].jobName
                && row.jobName in s'.lastTarget && row.target == s'.lastTarget[row.jobName])
  {
    match e
    case Tool(t) => assert id in s.tables.runs;
    case Executor(x) => ExecutorKeepsTarget(s, x, id);
    case Loop(l) => LoopKeepsTarget(s, l, id);
    case Restart =>
  }

  lemma ExecutorKeepsTarget(s: State, e: ExecutorEvent, id: RunId)
    requires ExecutorEnabled(s, e) && id in ApplyExecutor(s, e).tables.runs
    ensures var row := ApplyExecutor(s, e).tables.runs[id];
            || (id in s.tables.runs && row.jobName == s.tables.runs[id].jobName && row.target == s.tables.runs[id].target)
            || e == InsertRun(id, row.jobName, row.target)
  {
  }

  lemma LoopKeepsTarget(s: State, e: LoopEvent, id: RunId)
    requires LoopEnabled(s, e) && id in ApplyLoop(s, e).tables.runs
    ensures id in s.tables.runs
    ensures ApplyLoop(s, e).tables.runs[id].jobName == s.tables.runs[id].jobName
    ensures ApplyLoop(s, e).tables.runs[id].target == s.tables.runs[id].target
  {
    if !e.SupersedeOlder? && !e.Mark? {
      assert ApplyLoop(s, e).tables == s.tables;
    }
  }

  /** Over every history every run's target is one its spec had at the run's load or later. */
  lemma {:induction false} TargetHadSinceLoad(s: State, h: seq<Event>, load: map<RunId, nat>, id: RunId)
    requires s.tables.runs == map[] && Possible(s, h) && InsertsWereLoaded(s, h, load)
    requires id in After(s, h).tables.runs
    ensures id in load
    ensures exists m :: load[id] <= m <= |h|
                        && HadTarget(s, h, m, After(s, h).tables.runs[id].jobName, After(s, h).tables.runs[id].target)
    decreases |h|
  {
    if h != [] {
      var k := |h| - 1;
      var before, row := h[..k], After(s, h).tables.runs[id];
      CutLast(s, h);
      assert h[..|h|] == h;
      forall m: nat | m <= k ensures before[..m] == h[..m] {
      }
      TargetsCome(After(s, before), h[k], id);
      if h[k] == Executor(InsertRun(id, row.jobName, row.target)) {
        assert HadTarget(s, h, load[id], row.jobName, row.target);
      } else {
        TargetHadSinceLoad(s, before, load, id);
        var was := After(s, before).tables.runs[id];
        var m :| load[id] <= m <= k && HadTarget(s, before, m, was.jobName, was.target);
        if row.target == was.target {
          assert HadTarget(s, h, m, row.jobName, row.target);
        } else {
          assert HadTarget(s, h, |h|, row.jobName, row.target);
        }
      }
    }
  }

  /** So the target the dedup SELECT hands to delivery may be old, but no older than the spec the run was started from. */
  lemma ChosenTargetIsNoOlderThanLoad(s: State, h: seq<Event>, load: map<RunId, nat>, id: RunId)
    requires Initial(s) && Possible(s, h) && InsertsWereLoaded(s, h, load)
    requires LoopEnabled(After(s, h), SelectLatest(id))
    ensures id in load
    ensures var t := After(s, h);
            exists m :: load[id] <= m <= |h|
                        && HadTarget(s, h, m, t.point.job, ApplyLoop(t, SelectLatest(id)).point.target)
  {
    var t := After(s, h);
    TargetHadSinceLoad(s, h, load, id);
    var m :| load[id] <= m <= |h| && HadTarget(s, h, m, t.tables.runs[id].jobName, t.tables.runs[id].target);
    assert HadTarget(s, h, m, t.point.job, ApplyLoop(t, SelectLatest(id)).point.target);
  }

  const NO_CHANGE: SpecPatch := SpecPatch(None, None, None, None, None, None, None, None)

  function CreateThenRedirect(row: SpecRow): seq<Event> {
    [Tool(CreateSpecRow("j", row)), Tool(PatchSpecRow("j", NO_CHANGE.(chat := Some(2))))]
  }

  lemma RedirectedSpec(s: State, row: SpecRow)
    requires Initial(s) && row.target == Target(Some(1), None)
    ensures var h := CreateThenRedirect(row);
            && Possible(s, h) && After(s, h).tables.runs == map[] && After(s, h).executors == map[] && After(s, h).point.Idle?
            && "j" in After(s, h).lastTarget && "j" in After(s, h).tables.specs
            && SimpleTarget(After(s, h), "j") == Target(Some(2), None)
            && HadTarget(s, h, 1, "j", row.target)
  {
    var h := CreateThenRedirect(row);
    TwoEvents(s, h[0], h[1]);
    OneEvent(s, h[0]);
    assert h[..1] == [h[0]];
  }

  /** A pass that finds one finished run picks it. */
  lemma OnlyRunIsPicked(s: State, at: Time, news: string, target: Target)
    requires s.point.Idle? && s.tables.runs == map["a" := SucceededRow(at, news, target)]
    ensures var pick := [Loop(FetchPending("a")), Loop(SelectLatest("a"))];
            Possible(s, pick) && After(s, pick) == s.(point := Selected("j", "a", target))
  {
    var fetched := Apply(s, Loop(FetchPending("a")));
    assert fetched == s.(point := Fetched("j"));
    TwoEvents(s, Loop(FetchPending("a")), Loop(SelectLatest("a")));
  }

  /**
    And it can be old: the spec is loaded, redirected from chat 1 to chat 2, and only
    then the run inserted, still for chat 1.
   */
  lemma StaleSpecMissesRedirect(s: State, row: SpecRow)
    requires Initial(s) && row.target == Target(Some(1), None)
    ensures var h := CreateThenRedirect(row) + SuccessfulRun("a", 1, "news", row.target)
                     + [Loop(FetchPending("a")), Loop(SelectLatest("a"))];
            && Possible(s, h) && InsertsWereLoaded(s, h, map["a" := 1])
            && After(s, h).point == Selected("j", "a", Target(Some(1), None))
            && "j" in After(s, h).lastTarget && SimpleTarget(After(s, h), "j") == Target(Some(2), None)
  {
    var tools, run, pick := CreateThenRedirect(row), SuccessfulRun("a", 1, "news", row.target),
                            [Loop(FetchPending("a")), Loop(SelectLatest("a"))];
    RedirectedSpec(s, row);
    RunSucceeds(After(s, tools), "a", 1, "news", row.target);
    AfterConcat(s, tools, run);
    OnlyRunIsPicked(After(s, tools + run), 1, "news", row.target);
    AfterConcat(s, tools + run, pick);
    LoadedBeforeRedirect(s, row);
  }

  lemma LoadedBeforeRedirect(s: State, row: SpecRow)
    requires Initial(s) && row.target == Target(Some(1), None)
    ensures InsertsWereLoaded(s, CreateThenRedirect(row) + SuccessfulRun("a", 1, "news", row.target)
                                 + [Loop(FetchPending("a")), Loop(SelectLatest("a"))], map["a" := 1])
  {
    RedirectedSpec(s, row);
    var h := CreateThenRedirect(row) + SuccessfulRun("a", 1, "news", row.target)
             + [Loop(FetchPending("a")), Loop(SelectLatest("a"))];
    assert h[..1] == CreateThenRedirect(row)[..1];
    assert HadTarget(s, h, 1, "j", row.target);
    assert forall k :: 0 <= k < |h| && h[k].Executor? && h[k].exec.InsertRun? ==> k == 2;
  }

  // -------------------------------------------------------------- which specs

  /** Whether the job has a spec, by the creations and deletions alone. */
  function Standing(h: seq<Event>, job: JobName, was: bool): bool {
    if h == [] then was
    else
      match h[0]
      case Tool(CreateSpecRow(j, _)) => Standing(h[1..], job, was || j == job)
      case Tool(DropSpecRow(j)) => Standing(h[1..], job, was && j != job)
      case _ => Standing(h[1..], job, was)
  }

  /** Over every history a job has a spec exactly if the last creation or deletion of its name was a creation. */
  lemma {:induction false} SpecsFollowTools(s: State, h: seq<Event>, job: JobName)
    requires Possible(s, h)
    ensures job in After(s, h).tables.specs <==> Standing(h, job, job in s.tables.specs)
    decreases |h|
  {
    if h != [] {
      SpecsFollowTools(Apply(s, h[0]), h[1..], job);
      match h[0]
      case Tool(_) =>
      case Executor(_) =>
      case Loop(_) =>
      case Restart =>
    }
  }

  // -------------------------------------------------------------- which chats

  /** A chosen run is handed to delivery exactly if it has a chat and the chat is allowed; what becomes of it otherwise. */
  lemma ClassifyIffAllowed(s: State, allowed: set<int>)
    requires LoopEnabled(s, Classify(allowed))
    ensures var id, t, next := s.point.id, s.point.target, ApplyLoop(s, Classify(allowed)).point;
            && (next == Delivering(id, t) <==> t.chat.Some? && t.chat.value in allowed)
            && (next == Settling(id, NoTarget) <==> t.chat.None?)
            && (next == Settling(id, Denied) <==> t.chat.Some? && t.chat.value !in allowed)
  {
  }

  /** The allowlist of the last classification. */
  function LastAllowed(h: seq<Event>): Option<set<int>> {
    if h == [] then None
    else
      match h[|h| - 1]
      case Loop(Classify(allowed)) => Some(allowed)
      case _ => LastAllowed(h[..|h| - 1])
  }

  predicate ChatIn(t: Target, allowed: Option<set<int>>) {
    allowed.Some? && t.chat.Some? && t.chat.value in allowed.value
  }

  lemma {:induction false} PointIsAllowed(s: State, h: seq<Event>)
    requires Possible(s, h) && !s.point.Delivering?
    ensures After(s, h).point.Delivering? ==> ChatIn(After(s, h).point.target, LastAllowed(h))
    decreases |h|
  {
    if h != [] {
      var before, e := h[..|h| - 1], h[|h| - 1];
      CutLast(s, h);
      PointIsAllowed(s, before);
      PointStaysOrClassified(After(s, before), e);
      if e.Loop? && e.step.Classify? {
        ClassifyIffAllowed(After(s, before), e.step.allowed);
      }
    }
  }

  lemma PointStaysOrClassified(s: State, e: Event)
    requires Enabled(s, e)
    ensures Apply(s, e).point.Delivering? ==> (e.Loop? && e.step.Classify?) || (!e.Loop? && Apply(s, e).point == s.point)
  {
    match e
    case Tool(_) =>
    case Executor(_) =>
    case Loop(_) =>
    case Restart =>
  }

  /** Over every history each logged call was made, as the `k`-th event, to a chat on the allowlist of the classification before it. */
  lemma {:induction false} CallsGoToAllowedChats(s: State, h: seq<Event>, i: nat)
    requires Possible(s, h) && !s.point.Delivering? && s.log == [] && i < |After(s, h).log|
    ensures exists k :: 0 <= k < |h| && h[k] == Loop(Deliver(After(s, h).log[i].ok))
                        && ChatIn(After(s, h).log[i].target, LastAllowed(h[..k]))
    decreases |h|
  {
    if h != [] {
      var m := |h| - 1;
      var before, e := h[..m], h[m];
      CutLast(s, h);
      var u := After(s, before);
      LogGrowsByCalls(u, e);
      if e.Loop? && e.step.Deliver? && i == |u.log| {
        PointIsAllowed(s, before);
        assert h[m] == Loop(Deliver(After(s, h).log[i].ok)) && ChatIn(After(s, h).log[i].target, LastAllowed(h[..m]));
      } else {
        CallsGoToAllowedChats(s, before, i);
        var k :| 0 <= k < |before| && before[k] == Loop(Deliver(u.log[i].ok)) && ChatIn(u.log[i].target, LastAllowed(before[..k]));
        assert before[..k] == h[..k] && h[k] == before[k];
      }
    }
  }

  lemma LogGrowsByCalls(s: State, e: Event)
    requires Enabled(s, e)
    ensures var log := Apply(s, e).log;
            if e.Loop? && e.step.Deliver? then log == s.log + [Attempt(s.point.id, s.point.target, e.step.ok)]
            else log == s.log || log == []
  {
    match e
    case Tool(_) =>
    case Executor(_) =>
    case Loop(_) =>
    case Restart =>
  }

  // ------------------------------------------------------------- settled runs

  lemma {:induction false} SettledStaysAlong(s: State, h: seq<Event>, id: RunId)
    requires Possible(s, h) && BaseInv(s)
    requires id in s.tables.runs && s.tables.runs[id].Settled()
    ensures Frozen(s.tables.runs, After(s, h).tables.runs, id)
    decreases |h|
  {
    if h != [] {
      BaseStep(s, h[0]);
      SettledStays(s, h[0], id);
      SettledStaysAlong(Apply(s, h[0]), h[1..], id);
    }
  }

  /** Once a run is settled, at any point `k` of any history, it keeps its settlement, its job and its target for good. */
  lemma SettledRunsAreFrozen(s: State, h: seq<Event>, k: nat, id: RunId)
    requires Initial(s) && Possible(s, h) && k <= |h| && Possible(s, h[..k])
    requires id in After(s, h[..k]).tables.runs && After(s, h[..k]).tables.runs[id].Settled()
    ensures Frozen(After(s, h[..k]).tables.runs, After(s, h).tables.runs, id)
  {
    Cut(s, h, k);
    BaseInvAlong(s, h[..k]);
    SettledStaysAlong(After(s, h[..k]), h[k..], id);
  }

  // ------------------------------------------------------- interrupted runs

  /** A run without an executor that awaits no delivery: the rest of the world can change its target at most. */
  lemma LoopLeavesLostRun(s: State, e: LoopEvent, id: RunId)
    requires PointInv(s) && LoopEnabled(s, e) && id in s.tables.runs && !s.tables.runs[id].Awaiting()
    ensures var t := ApplyLoop(s, e);
            t.executors == s.executors && id in t.tables.runs && t.tables.runs[id] == s.tables.runs[id]
  {
    if !e.SupersedeOlder? && !e.Mark? {
      assert ApplyLoop(s, e).tables == s.tables;
    }
  }

  lemma ExecutorsLeaveLostRun(s: State, e: ExecutorEvent, id: RunId)
    requires ExecutorEnabled(s, e) && id in s.tables.runs && id !in s.executors
    ensures var t := ApplyExecutor(s, e);
            id !in t.executors && id in t.tables.runs && t.tables.runs[id] == s.tables.runs[id]
  {
  }

  lemma LostRunStep(s: State, e: Event, id: RunId)
    requires BaseInv(s) && Enabled(s, e)
    requires id in s.tables.runs && id !in s.executors && !s.tables.runs[id].Awaiting()
    ensures var t := Apply(s, e);
            && id in t.tables.runs && id !in t.executors
            && t.tables.runs[id] == s.tables.runs[id].(target := t.tables.runs[id].target)
  {
    match e
    case Tool(_) =>
    case Executor(x) => ExecutorsLeaveLostRun(s, x, id);
    case Loop(l) => LoopLeavesLostRun(s, l, id);
    case Restart =>
  }

  lemma {:induction false} LostRunsStay(s: State, h: seq<Event>, id: RunId)
    requires BaseInv(s) && Possible(s, h)
    requires id in s.tables.runs && id !in s.executors && !s.tables.runs[id].Awaiting()
    ensures var t := After(s, h);
            && id in t.tables.runs && id !in t.executors
            && t.tables.runs[id] == s.tables.runs[id].(target := t.tables.runs[id].target)
    decreases |h|
  {
    if h != [] {
      LostRunStep(s, h[0], id);
      BaseStep(s, h[0]);
      LostRunsStay(Apply(s, h[0]), h[1..], id);
    }
  }

  /**
    A run that awaits no delivery when the process stops never will: whatever
    happens afterwards, nothing of its row changes but the target. A run stopped
    in its body stays running, one stopped before its output was stored stays silent.
   */
  lemma RestartLosesRuns(s: State, h: seq<Event>, later: seq<Event>, id: RunId)
    requires Initial(s) && Possible(s, h)
    requires Possible(Apply(After(s, h), Restart), later)
    requires id in After(s, h).tables.runs && !After(s, h).tables.runs[id].Awaiting()
    ensures var row, t := After(s, h).tables.runs[id], After(Apply(After(s, h), Restart), later);
            id in t.tables.runs && t.tables.runs[id] == row.(target := t.tables.runs[id].target)
  {
    BaseInvAlong(s, h);
    BaseStep(After(s, h), Restart);
    LostRunsStay(Apply(After(s, h), Restart), later, id);
  }
}
