/**
  The run and delivery lifecycle as a transition system. One delivery loop, the
  job executors and the spec tools take steps in any interleaving; every SQL
  statement is one step, and any statement of the loop may fail. The SELECT and
  the UPDATE of the deduplication are separate steps, as in the program.
 */
module DeliveryProtocol {
  import opened Wrappers
  import opened CronTables

  const MAX_DELIVERY_ATTEMPTS: nat := 3

  datatype TargetClassification = NoTargetSet | NotAllowed | Ready(chat: int, thread: Option<int>)

  function ClassifyPendingTarget(t: Target, allowed: set<int>): TargetClassification {
    if t.chat.None? then NoTargetSet
    else if t.chat.value !in allowed then NotAllowed
    else Ready(t.chat.value, t.thread)
  }

  /** Where the delivery loop stands between two of its statements. */
  datatype LoopPoint =
    | Idle
    | Fetched(job: JobName)
    | Selected(job: JobName, id: RunId, target: Target)
    | Chosen(id: RunId, target: Target)
    | Delivering(id: RunId, target: Target)
    | Settling(id: RunId, outcome: DeliveryStatus)

  /** One call of the delivery function and how it ended. */
  datatype Attempt = Attempt(id: RunId, target: Target, ok: bool)

  /** How far the executor of a run has come with its row. */
  datatype ExecutorPoint = Started | RowFinished

  datatype State = State(
    tables: Tables,
    executors: map<RunId, ExecutorPoint>,
    point: LoopPoint,
    deliveredInMemory: set<RunId>,
    attemptCounts: map<RunId, nat>,
    // history variables: the delivery calls of this process, and each job's current or last target
    log: seq<Attempt>,
    lastTarget: map<JobName, Target>)

  /** The spec tools. */
  datatype ToolEvent =
    | CreateSpecRow(job: JobName, row: SpecRow)
    | PatchSpecRow(job: JobName, patch: SpecPatch)
    | DropSpecRow(job: JobName)

  /** The job executors. */
  datatype ExecutorEvent =
    | InsertRun(id: RunId, job: JobName, target: Target)
    | FinishRun(id: RunId, status: RunStatus, now: Time)
    | PersistRun(id: RunId, notify: Option<string>, mark: DeliveryStatus)
    | AbandonRun(id: RunId)

  /** The delivery loop, statement by statement. */
  datatype LoopEvent =
    | FetchPending(id: RunId)
    | GateClosed
    | SelectLatest(id: RunId)
    | SupersedeOlder(now: Time)
    | DatabaseError
    | SkipDelivered
    | Classify(allowed: set<int>)
    | Deliver(ok: bool)
    | Mark(now: Time, applied: bool, reported: bool)

  datatype Event = Tool(tool: ToolEvent) | Executor(exec: ExecutorEvent) | Loop(step: LoopEvent) | Restart

  predicate ToolEnabled(s: State, e: ToolEvent) {
    match e
    case CreateSpecRow(job, _) => job !in s.tables.specs
    case PatchSpecRow(job, _) => job in s.tables.specs
    case DropSpecRow(job) => job in s.tables.specs
  }

  function ApplyTool(s: State, e: ToolEvent): State
    requires ToolEnabled(s, e)
  {
    var t := s.tables;
    match e
    case CreateSpecRow(job, row) =>
      s.(tables := t.(specs := t.specs[job := row]), lastTarget := s.lastTarget[job := row.target])
    case PatchSpecRow(job, patch) =>
      var row := patch.PatchRow(t.specs[job]);
      s.(tables := Tables(t.specs[job := row], if patch.ChangesTarget() then Redirect(t.runs, job, row.target) else t.runs),
         lastTarget := s.lastTarget[job := row.target])
    case DropSpecRow(job) => s.(tables := t.(specs := DeleteSpec(t.specs, job)))
  }

  /** A run id is fresh; each executor finishes and persists its own row at most once. */
  predicate ExecutorEnabled(s: State, e: ExecutorEvent) {
    var runs := s.tables.runs;
    match e
    case InsertRun(id, _, _) => id !in runs && id !in s.executors
    case FinishRun(id, status, _) => id in s.executors && s.executors[id].Started? && id in runs && status != Running
    case PersistRun(id, notify, mark) =>
      id in s.executors && id in runs && mark in {Pending, Silent} && (notify.Some? ==> mark == Pending)
    case AbandonRun(id) => id in s.executors
  }

  function ApplyExecutor(s: State, e: ExecutorEvent): State
    requires ExecutorEnabled(s, e)
  {
    var t := s.tables;
    match e
    case InsertRun(id, job, target) =>
      s.(tables := t.(runs := InsertRunning(t.runs, id, job, target)), executors := s.executors[id := Started])
    case FinishRun(id, status, now) =>
      s.(tables := t.(runs := UpdateRunRecord(t.runs, id, now, status)), executors := s.executors[id := RowFinished])
    case PersistRun(id, notify, mark) =>
      s.(tables := t.(runs := PersistOutput(t.runs, id, notify, mark)), executors := s.executors - {id})
    case AbandonRun(id) => s.(executors := s.executors - {id})
  }

  predicate LoopEnabled(s: State, e: LoopEvent) {
    var runs := s.tables.runs;
    match e
    case FetchPending(id) => s.point.Idle? && IsOldestAwaiting(runs, id)
    case GateClosed => s.point.Fetched?
    case SelectLatest(id) => s.point.Fetched? && IsLatestAwaiting(runs, s.point.job, id)
    case SupersedeOlder(_) => s.point.Selected?
    case DatabaseError => s.point.Fetched? || s.point.Selected?
    case SkipDelivered => s.point.Chosen? && s.point.id in s.deliveredInMemory
    case Classify(_) => s.point.Chosen? && s.point.id !in s.deliveredInMemory
    case Deliver(_) => s.point.Delivering?
    case Mark(_, applied, reported) => s.point.Settling? && (reported ==> applied)
  }

  function Count(attemptCounts: map<RunId, nat>, id: RunId): nat {
    if id in attemptCounts then attemptCounts[id] else 0
  }

  function ApplyLoop(s: State, e: LoopEvent): State
    requires LoopEnabled(s, e)
  {
    var t := s.tables;
    match e
    case FetchPending(id) => s.(point := Fetched(t.runs[id].jobName))
    case GateClosed => s.(point := Idle)
    case SelectLatest(id) => s.(point := Selected(s.point.job, id, t.runs[id].target))
    case SupersedeOlder(now) =>
      s.(tables := t.(runs := SupersedeOthers(t.runs, s.point.job, s.point.id, now)),
         point := Chosen(s.point.id, s.point.target))
    case DatabaseError => s.(point := Idle)
    case SkipDelivered => s.(point := Idle)
    case Classify(allowed) =>
      (match ClassifyPendingTarget(s.point.target, allowed)
       case NoTargetSet => s.(point := Settling(s.point.id, NoTarget))
       case NotAllowed => s.(point := Settling(s.point.id, Denied))
       case Ready(_, _) => s.(point := Delivering(s.point.id, s.point.target)))
    case Deliver(ok) =>
      var id := s.point.id;
      var s' := s.(log := s.log + [Attempt(id, s.point.target, ok)]);
      if ok then s'.(point := Settling(id, Delivered))
      else
        var n := Count(s.attemptCounts, id) + 1;
        s'.(attemptCounts := s.attemptCounts[id := n],
            point := if n >= MAX_DELIVERY_ATTEMPTS then Settling(id, GaveUp) else Idle)
    case Mark(now, applied, reported) =>
      var id := s.point.id;
      s.(tables := if applied then t.(runs := MarkOutcome(t.runs, id, s.point.outcome, now)) else t,
         deliveredInMemory := if reported then s.deliveredInMemory else s.deliveredInMemory + {id},
         attemptCounts := if s.point.outcome.GaveUp? then s.attemptCounts - {id} else s.attemptCounts,
         point := Idle)
  }

  predicate Enabled(s: State, e: Event) {
    match e
    case Tool(t) => ToolEnabled(s, t)
    case Executor(x) => ExecutorEnabled(s, x)
    case Loop(l) => LoopEnabled(s, l)
    case Restart => true
  }

  /** A restart forgets everything but the tables. */
  function Apply(s: State, e: Event): State
    requires Enabled(s, e)
  {
    match e
    case Tool(t) => ApplyTool(s, t)
    case Executor(x) => ApplyExecutor(s, x)
    case Loop(l) => ApplyLoop(s, l)
    case Restart => s.(executors := map[], point := Idle, deliveredInMemory := {}, attemptCounts := map[], log := [])
  }

  /** The first boot, on empty tables. */
  predicate Initial(s: State) {
    s == State(Tables(map[], map[]), map[], Idle, {}, map[], [], map[])
  }

  /** Every event of the history is enabled where it occurs. */
  predicate Possible(s: State, h: seq<Event>)
    decreases |h|
  {
    h == [] || (Enabled(s, h[0]) && Possible(Apply(s, h[0]), h[1..]))
  }

  function After(s: State, h: seq<Event>): State
    requires Possible(s, h)
    decreases |h|
  {
    if h == [] then s else After(Apply(s, h[0]), h[1..])
  }

  // ---------------------------------------------------------------- histories

  lemma {:induction false} AfterConcat(s: State, h: seq<Event>, k: seq<Event>)
    requires Possible(s, h) && Possible(After(s, h), k)
    ensures Possible(s, h + k) && After(s, h + k) == After(After(s, h), k)
    decreases |h|
  {
    if h == [] {
      assert h + k == k;
    } else {
      assert (h + k)[0] == h[0] && (h + k)[1..] == h[1..] + k;
      AfterConcat(Apply(s, h[0]), h[1..], k);
    }
  }

  lemma OneEvent(s: State, e: Event)
    requires Enabled(s, e)
    ensures Possible(s, [e]) && After(s, [e]) == Apply(s, e)
  {
  }

  /** Appending an enabled event to a history. */
  lemma Extend(s: State, h: seq<Event>, e: Event)
    requires Possible(s, h) && Enabled(After(s, h), e)
    ensures Possible(s, h + [e]) && After(s, h + [e]) == Apply(After(s, h), e)
  {
    OneEvent(After(s, h), e);
    AfterConcat(s, h, [e]);
  }

  /** Two and three enabled events in a row. */
  lemma TwoEvents(s: State, e: Event, f: Event)
    requires Enabled(s, e) && Enabled(Apply(s, e), f)
    ensures Possible(s, [e, f]) && After(s, [e, f]) == Apply(Apply(s, e), f)
  {
    OneEvent(s, e);
    Extend(s, [e], f);
    assert [e] + [f] == [e, f];
  }

  predicate Leads(s: State, e: Event, s': State) {
    Enabled(s, e) && Apply(s, e) == s'
  }

  lemma TwoLeads(s: State, e: Event, s1: State, f: Event, s2: State)
    requires Leads(s, e, s1) && Leads(s1, f, s2)
    ensures Possible(s, [e, f]) && After(s, [e, f]) == s2
  {
    TwoEvents(s, e, f);
  }

  lemma ThreeLeads(s: State, e: Event, s1: State, f: Event, s2: State, g: Event, s3: State)
    requires Leads(s, e, s1) && Leads(s1, f, s2) && Leads(s2, g, s3)
    ensures Possible(s, [e, f, g]) && After(s, [e, f, g]) == s3
  {
    ThreeEvents(s, e, f, g);
  }

  lemma ThreeEvents(s: State, e: Event, f: Event, g: Event)
    requires Enabled(s, e) && Enabled(Apply(s, e), f) && Enabled(Apply(Apply(s, e), f), g)
    ensures Possible(s, [e, f, g]) && After(s, [e, f, g]) == Apply(Apply(Apply(s, e), f), g)
  {
    TwoEvents(s, e, f);
    Extend(s, [e, f], g);
    assert [e, f] + [g] == [e, f, g];
  }

  /** A history can be cut anywhere. */
  lemma {:induction false} Cut(s: State, h: seq<Event>, k: nat)
    requires Possible(s, h) && k <= |h|
    ensures Possible(s, h[..k]) && Possible(After(s, h[..k]), h[k..])
    ensures After(After(s, h[..k]), h[k..]) == After(s, h)
    decreases |h|
  {
    if k > 0 {
      Cut(Apply(s, h[0]), h[1..], k - 1);
      assert h[..k][1..] == h[1..][..k - 1] && h[1..][k - 1..] == h[k..];
    } else {
      assert h[k..] == h;
    }
  }

  /** The last event of a history is enabled where the rest leads. */
  lemma CutLast(s: State, h: seq<Event>)
    requires Possible(s, h) && h != []
    ensures var m := |h| - 1;
            && Possible(s, h[..m]) && Enabled(After(s, h[..m]), h[m])
            && After(s, h) == Apply(After(s, h[..m]), h[m])
  {
    var m := |h| - 1;
    Cut(s, h, m);
    assert h[m..] == [h[m]];
    OneEvent(After(s, h[..m]), h[m]);
  }
}
