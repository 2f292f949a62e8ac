/** What every interleaving of the delivery protocol keeps. */
module DeliverySafety {
  import opened Wrappers
  import opened CronTables
  import opened DeliveryProtocol

  // ------------------------------------------------------ point and executor

  /** The row the loop is working on is awaiting delivery until the loop itself settles it. */
  ghost predicate PointInv(s: State) {
    var runs := s.tables.runs;
    match s.point
    case Idle => true
    case Fetched(_) => true
    case Selected(job, id, _) => id in runs && runs[id].Awaiting() && runs[id].jobName == job
    case Chosen(id, _) => id in runs && runs[id].Awaiting()
    case Delivering(id, _) => id in runs && runs[id].Awaiting()
    case Settling(id, outcome) => id in runs && runs[id].Awaiting() && outcome in {NoTarget, Denied, Delivered, GaveUp}
  }

  /** A row an executor still owns carries no news yet. */
  ghost predicate ExecutorInv(s: State) {
    forall id :: id in s.executors ==>
      && id in s.tables.runs
      && s.tables.runs[id].notify.None? && !s.tables.runs[id].Settled()
      && (s.executors[id].Started? ==> s.tables.runs[id].status.Running?)
  }

  ghost predicate RowInv(runs: Runs) {
    forall id :: id in runs && runs[id].deliveryStatus.Superseded? ==> runs[id].Settled() && runs[id].IsNews()
  }

  ghost predicate BaseInv(s: State) {
    PointInv(s) && ExecutorInv(s) && RowInv(s.tables.runs)
  }

  lemma BaseToolStep(s: State, e: ToolEvent)
    requires BaseInv(s) && ToolEnabled(s, e)
    ensures BaseInv(ApplyTool(s, e))
  {
    var s' := ApplyTool(s, e);
    assert s'.point == s.point && s'.executors == s.executors;
    assert forall id :: id in s.tables.runs ==>
      id in s'.tables.runs && s'.tables.runs[id] == s.tables.runs[id].(target := s'.tables.runs[id].target);
  }

  lemma BaseExecutorStep(s: State, e: ExecutorEvent)
    requires BaseInv(s) && ExecutorEnabled(s, e)
    ensures BaseInv(ApplyExecutor(s, e))
  {
  }

  lemma BaseSupersede(s: State, now: Time)
    requires BaseInv(s) && LoopEnabled(s, SupersedeOlder(now))
    ensures BaseInv(ApplyLoop(s, SupersedeOlder(now)))
  {
    assert ApplyLoop(s, SupersedeOlder(now)).tables.runs.Keys == s.tables.runs.Keys;
  }

  lemma BaseMark(s: State, now: Time, applied: bool, reported: bool)
    requires BaseInv(s) && LoopEnabled(s, Mark(now, applied, reported))
    ensures BaseInv(ApplyLoop(s, Mark(now, applied, reported)))
  {
    assert ApplyLoop(s, Mark(now, applied, reported)).tables.runs.Keys == s.tables.runs.Keys;
  }

  lemma BaseLoopStep(s: State, e: LoopEvent)
    requires BaseInv(s) && LoopEnabled(s, e)
    ensures BaseInv(ApplyLoop(s, e))
  {
    match e {
      case SupersedeOlder(now) => BaseSupersede(s, now);
      case Mark(now, applied, reported) => BaseMark(s, now, applied, reported);
      case _ =>
        assert ApplyLoop(s, e).tables == s.tables && ApplyLoop(s, e).executors == s.executors;
    }
  }

  lemma BaseStep(s: State, e: Event)
    requires BaseInv(s) && Enabled(s, e)
    ensures BaseInv(Apply(s, e))
  {
    match e
    case Tool(t) => BaseToolStep(s, t);
    case Executor(x) => BaseExecutorStep(s, x);
    case Loop(l) => BaseLoopStep(s, l);
    case Restart =>
  }

  lemma {:induction false} BaseInvAlong(s: State, h: seq<Event>)
    requires Possible(s, h) && BaseInv(s)
    ensures BaseInv(After(s, h))
    decreases |h|
  {
    if h != [] {
      BaseStep(s, h[0]);
      BaseInvAlong(Apply(s, h[0]), h[1..]);
    }
  }

  // ------------------------------------------------------------ deduplication

  /** `w` shows that superseding `id` lost nothing: same job, finished no earlier, itself not superseded. */
  ghost predicate Outlives(runs: Runs, id: RunId, w: RunId)
    requires id in runs
  {
    && w in runs && runs[w].jobName == runs[id].jobName
    && runs[w].IsNews() && !runs[w].deliveryStatus.Superseded?
    && runs[id].FinishKey() <= runs[w].FinishKey()
  }

  ghost predicate NewsSurvives(runs: Runs) {
    forall id :: id in runs && runs[id].deliveryStatus.Superseded? ==> exists w :: Outlives(runs, id, w)
  }

  /** No row becomes superseded, and rows that carry surviving news keep doing so unchanged in job and order. */
  ghost predicate Calm(runs: Runs, runs': Runs) {
    && (forall id :: id in runs' && runs'[id].deliveryStatus.Superseded? ==>
          id in runs && runs[id].deliveryStatus.Superseded?
          && runs'[id].jobName == runs[id].jobName && runs'[id].FinishKey() == runs[id].FinishKey())
    && (forall id :: id in runs && runs[id].IsNews() && !runs[id].deliveryStatus.Superseded? ==>
          id in runs' && runs'[id].IsNews() && !runs'[id].deliveryStatus.Superseded?
          && runs'[id].jobName == runs[id].jobName && runs'[id].FinishKey() == runs[id].FinishKey())
  }

  lemma CalmKeepsNews(runs: Runs, runs': Runs)
    requires NewsSurvives(runs) && Calm(runs, runs')
    ensures NewsSurvives(runs')
  {
    forall id | id in runs' && runs'[id].deliveryStatus.Superseded?
      ensures exists w :: Outlives(runs', id, w)
    {
      var w :| Outlives(runs, id, w);
      assert Outlives(runs', id, w);
    }
  }

  /**
    When the UPDATE runs, every row it is about to supersede is no newer than the
    kept row or than some settled row of the job. With one atomic statement the
    kept row is the latest and this always holds.
   */
  ghost predicate NothingNewerIsLost(runs: Runs, job: JobName, keep: RunId) {
    forall p :: Supersedable(runs, job, keep, p) ==>
      exists w :: Outlives(runs, p, w) && (w == keep || runs[w].Settled())
  }

  lemma LatestLosesNothing(runs: Runs, job: JobName, keep: RunId)
    requires IsLatestAwaiting(runs, job, keep) && RowInv(runs)
    ensures NothingNewerIsLost(runs, job, keep)
  {
  }

  /** The exact condition under which the dedup UPDATE, wherever it lands, keeps every job's news. */
  lemma SupersedeKeepsNewsIff(runs: Runs, job: JobName, keep: RunId, now: Time)
    requires NewsSurvives(runs) && RowInv(runs)
    requires keep in runs && runs[keep].Awaiting() && runs[keep].jobName == job
    ensures NewsSurvives(SupersedeOthers(runs, job, keep, now)) <==> NothingNewerIsLost(runs, job, keep)
  {
    var runs' := SupersedeOthers(runs, job, keep, now);
    if NewsSurvives(runs') {
      forall p | Supersedable(runs, job, keep, p)
        ensures exists w :: Outlives(runs, p, w) && (w == keep || runs[w].Settled())
      {
        assert p in runs' && runs'[p].deliveryStatus.Superseded?;
        var w :| Outlives(runs', p, w);
        assert Outlives(runs, p, w);
      }
    }
    if NothingNewerIsLost(runs, job, keep) {
      forall id | id in runs' && runs'[id].deliveryStatus.Superseded?
        ensures exists w :: Outlives(runs', id, w)
      {
        SurvivorAfterSupersede(runs, job, keep, now, id);
      }
    }
  }

  lemma SurvivorAfterSupersede(runs: Runs, job: JobName, keep: RunId, now: Time, id: RunId)
    requires NewsSurvives(runs) && RowInv(runs) && NothingNewerIsLost(runs, job, keep)
    requires keep in runs && runs[keep].Awaiting() && runs[keep].jobName == job
    requires id in runs && SupersedeOthers(runs, job, keep, now)[id].deliveryStatus.Superseded?
    ensures exists w :: Outlives(SupersedeOthers(runs, job, keep, now), id, w)
  {
    var runs' := SupersedeOthers(runs, job, keep, now);
    var first: RunId;
    if Supersedable(runs, job, keep, id) {
      first := id;
    } else {
      first :| Outlives(runs, id, first);
    }
    // `first` is a row of the same job, no older than `id`; if the UPDATE hits it, its own witness takes over.
    if Supersedable(runs, job, keep, first) {
      var w :| Outlives(runs, first, w) && (w == keep || runs[w].Settled());
      assert Outlives(runs', id, w);
    } else {
      assert Outlives(runs', id, first);
    }
  }

  /** The discipline a history needs: the dedup UPDATE finds its selected row still the latest. */
  predicate AtomicDedup(s: State, e: Event) {
    e.Loop? && e.step.SupersedeOlder? && s.point.Selected? ==> IsLatestAwaiting(s.tables.runs, s.point.job, s.point.id)
  }

  ghost predicate NewsInv(s: State) {
    BaseInv(s) && NewsSurvives(s.tables.runs)
  }

  /** Writing one row is calm unless it supersedes the row or takes its news away. */
  lemma CalmRow(runs: Runs, id: RunId, row: Run)
    requires !row.deliveryStatus.Superseded?
    requires id in runs && runs[id].IsNews() && !runs[id].deliveryStatus.Superseded? ==>
               row.IsNews() && row.jobName == runs[id].jobName && row.FinishKey() == runs[id].FinishKey()
    ensures Calm(runs, runs[id := row])
  {
  }

  lemma CalmLoopStep(s: State, e: LoopEvent)
    requires BaseInv(s) && LoopEnabled(s, e) && !e.SupersedeOlder?
    ensures Calm(s.tables.runs, ApplyLoop(s, e).tables.runs)
  {
    var runs := s.tables.runs;
    if e.Mark? && e.applied {
      var id := s.point.id;
      CalmRow(runs, id, runs[id].(deliveryStatus := s.point.outcome, deliveredAt := Some(e.now)));
    } else {
      assert ApplyLoop(s, e).tables == s.tables;
    }
  }

  lemma CalmExecutorStep(s: State, e: ExecutorEvent)
    requires BaseInv(s) && ExecutorEnabled(s, e)
    ensures Calm(s.tables.runs, ApplyExecutor(s, e).tables.runs)
  {
    var runs := s.tables.runs;
    match e
    case InsertRun(id, job, target) => CalmRow(runs, id, InsertRunning(runs, id, job, target)[id]);
    case FinishRun(id, status, now) => CalmRow(runs, id, UpdateRunRecord(runs, id, now, status)[id]);
    case PersistRun(id, notify, mark) => CalmRow(runs, id, PersistOutput(runs, id, notify, mark)[id]);
    case AbandonRun(id) =>
  }

  lemma CalmToolStep(s: State, t: ToolEvent)
    requires ToolEnabled(s, t)
    ensures Calm(s.tables.runs, ApplyTool(s, t).tables.runs)
  {
    var runs, runs' := s.tables.runs, ApplyTool(s, t).tables.runs;
    assert runs'.Keys == runs.Keys;
    assert forall id :: id in runs ==> runs'[id] == runs[id].(target := runs'[id].target);
  }

  /** Every step but the dedup UPDATE leaves the surviving news in place. */
  lemma CalmStep(s: State, e: Event)
    requires BaseInv(s) && Enabled(s, e) && !(e.Loop? && e.step.SupersedeOlder?)
    ensures Calm(s.tables.runs, Apply(s, e).tables.runs)
  {
    match e
    case Tool(t) => CalmToolStep(s, t);
    case Executor(x) => CalmExecutorStep(s, x);
    case Loop(l) => CalmLoopStep(s, l);
    case Restart =>
  }

  lemma NewsStep(s: State, e: Event)
    requires NewsInv(s) && Enabled(s, e) && AtomicDedup(s, e)
    ensures NewsInv(Apply(s, e))
  {
    BaseStep(s, e);
    var runs, runs' := s.tables.runs, Apply(s, e).tables.runs;
    if e.Loop? && e.step.SupersedeOlder? {
      LatestLosesNothing(runs, s.point.job, s.point.id);
      SupersedeKeepsNewsIff(runs, s.point.job, s.point.id, e.step.now);
    } else {
      CalmStep(s, e);
      CalmKeepsNews(runs, runs');
    }
  }

  ghost predicate DedupsAtomically(s: State, h: seq<Event>)
    requires Possible(s, h)
    decreases |h|
  {
    h == [] || (AtomicDedup(s, h[0]) && DedupsAtomically(Apply(s, h[0]), h[1..]))
  }

  lemma {:induction false} NewsInvAlong(s: State, h: seq<Event>)
    requires Possible(s, h) && DedupsAtomically(s, h) && NewsInv(s)
    ensures NewsInv(After(s, h))
    decreases |h|
  {
    if h != [] {
      NewsStep(s, h[0]);
      NewsInvAlong(Apply(s, h[0]), h[1..]);
    }
  }

  /** The newest news of a job among `runs`. */
  ghost predicate IsNewestNews(runs: Runs, job: JobName, id: RunId) {
    && id in runs && runs[id].IsNews() && runs[id].jobName == job
    && forall o :: o in runs && runs[o].IsNews() && runs[o].jobName == job ==> runs[o].FinishKey() <= runs[id].FinishKey()
  }

  /**
    Over any history with atomic dedup: every superseded run has a run of the
    same job that finished no earlier and is not superseded, so among a job's
    newest news one is always awaiting delivery or was settled on its own.
   */
  lemma NewestNewsIsNeverSuperseded(s: State, h: seq<Event>, job: JobName, newest: RunId)
    requires Initial(s) && Possible(s, h) && DedupsAtomically(s, h)
    requires IsNewestNews(After(s, h).tables.runs, job, newest)
    ensures NewsSurvives(After(s, h).tables.runs)
    ensures exists w :: IsNewestNews(After(s, h).tables.runs, job, w)
                        && !After(s, h).tables.runs[w].deliveryStatus.Superseded?
  {
    NewsInvAlong(s, h);
    var runs := After(s, h).tables.runs;
    if runs[newest].deliveryStatus.Superseded? {
      var w :| Outlives(runs, newest, w);
      assert IsNewestNews(runs, job, w);
    }
  }

  /** A run of job "j" that succeeds at `at` with something to tell. */
  function SuccessfulRun(id: RunId, at: Time, news: string, target: Target): seq<Event> {
    [Executor(InsertRun(id, "j", target)),
     Executor(FinishRun(id, Success, at)),
     Executor(PersistRun(id, Some(news), Pending))]
  }

  const NOWHERE: Target := Target(None, None)

  function SucceededRow(at: Time, news: string, target: Target): Run {
    Run("j", Success, Some(at), Some(news), None, Pending, target)
  }

  lemma RunSucceeds(s: State, id: RunId, at: Time, news: string, target: Target)
    requires id !in s.tables.runs && id !in s.executors
    ensures var h := SuccessfulRun(id, at, news, target);
            && Possible(s, h)
            && After(s, h) == s.(tables := s.tables.(runs := s.tables.runs[id := SucceededRow(at, news, target)]))
  {
    var h := SuccessfulRun(id, at, news, target);
    ThreeEvents(s, h[0], h[1], h[2]);
    var runs := s.tables.runs;
    assert s.executors[id := Started][id := RowFinished] - {id} == s.executors;
    assert PersistOutput(UpdateRunRecord(InsertRunning(runs, id, "j", target), id, at, Success), id, Some(news), Pending)
        == runs[id := SucceededRow(at, news, target)];
  }

  /** The rows a and b when the UPDATE that keeps a has run. */
  lemma LostRow(runs: Runs)
    requires runs == map["a" := SucceededRow(1, "old", NOWHERE), "b" := SucceededRow(2, "new", NOWHERE)]
    ensures var final := SupersedeOthers(runs, "j", "a", 3);
            && !IsLatestAwaiting(runs, "j", "a")
            && IsNewestNews(final, "j", "b") && !IsNewestNews(final, "j", "a")
            && final["b"].deliveryStatus.Superseded? && !NewsSurvives(final)
  {
    var final := SupersedeOthers(runs, "j", "a", 3);
    forall w ensures !Outlives(final, "b", w) {
    }
    assert final["b"].deliveryStatus.Superseded?;
    assert final["b"].FinishKey() == 2 && final["a"].FinishKey() == 1;
  }

  lemma {:induction false} AtomicTail(s: State, h: seq<Event>, e: Event)
    requires Possible(s, h + [e]) && DedupsAtomically(s, h + [e])
    ensures Possible(s, h) && AtomicDedup(After(s, h), e)
    decreases |h|
  {
    if h == [] {
      assert h + [e] == [e];
    } else {
      assert (h + [e])[1..] == h[1..] + [e];
      AtomicTail(Apply(s, h[0]), h[1..], e);
    }
  }

  /**
    Without atomicity the claim fails, over a history of the protocol from the
    first boot: run b finishes between the SELECT that picked a and the UPDATE.
   */
  lemma SplitDedupCanLoseNews(s: State)
    requires Initial(s)
    ensures var h := SuccessfulRun("a", 1, "old", NOWHERE) + [Loop(FetchPending("a")), Loop(SelectLatest("a"))]
                     + SuccessfulRun("b", 2, "new", NOWHERE) + [Loop(SupersedeOlder(3))];
            && Possible(s, h) && !DedupsAtomically(s, h)
            && IsNewestNews(After(s, h).tables.runs, "j", "b") && !IsNewestNews(After(s, h).tables.runs, "j", "a")
            && After(s, h).tables.runs["b"].deliveryStatus.Superseded? && !NewsSurvives(After(s, h).tables.runs)
  {
    var a, pick, b, e := SuccessfulRun("a", 1, "old", NOWHERE), [Loop(FetchPending("a")), Loop(SelectLatest("a"))],
                         SuccessfulRun("b", 2, "new", NOWHERE), Loop(SupersedeOlder(3));
    RunSucceeds(s, "a", 1, "old", NOWHERE);
    TwoEvents(After(s, a), pick[0], pick[1]);
    AfterConcat(s, a, pick);
    RunSucceeds(After(s, a + pick), "b", 2, "new", NOWHERE);
    AfterConcat(s, a + pick, b);
    Extend(s, a + pick + b, e);
    var t := After(s, a + pick + b);
    LostRow(t.tables.runs);
    if DedupsAtomically(s, a + pick + b + [e]) {
      AtomicTail(s, a + pick + b, e);
    }
  }
}
