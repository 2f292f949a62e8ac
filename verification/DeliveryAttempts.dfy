/** How often a run is handed to delivery within one process lifetime, whatever fails. */
module DeliveryAttempts {
  import opened CronTables
  import opened DeliveryProtocol
  import opened DeliverySafety

  function Tries(log: seq<Attempt>, id: RunId): nat {
    if log == [] then 0 else Tries(log[..|log| - 1], id) + (if log[|log| - 1].id == id then 1 else 0)
  }

  predicate Succeeded(log: seq<Attempt>, id: RunId) {
    exists i :: 0 <= i < |log| && log[i].id == id && log[i].ok
  }

  /** A success is the last call for its run. */
  predicate NothingAfterSuccess(log: seq<Attempt>) {
    forall i, j :: 0 <= i < j < |log| && log[i].id == log[j].id ==> !log[i].ok
  }

  /** The loop will not hand `id` to delivery again, or is about to make sure of it. */
  predicate Closed(s: State, id: RunId) {
    || id in s.deliveredInMemory
    || (id in s.tables.runs && s.tables.runs[id].Settled())
    || (s.point.Settling? && s.point.id == id)
  }

  /** The in-memory counters account for every run that can still be handed over. */
  ghost predicate AttemptInv(s: State) {
    && BaseInv(s)
    && NothingAfterSuccess(s.log)
    && (s.point.Delivering? ==> s.point.id !in s.deliveredInMemory)
    && (forall id :: Tries(s.log, id) <= MAX_DELIVERY_ATTEMPTS)
    && (forall id :: !Closed(s, id) ==> Tries(s.log, id) == Count(s.attemptCounts, id) < MAX_DELIVERY_ATTEMPTS)
    && (forall id :: !Closed(s, id) ==> !Succeeded(s.log, id))
  }

  /** `id` is settled in `runs` and `runs'` alike, for the same job and target. */
  predicate Frozen(runs: Runs, runs': Runs, id: RunId) {
    && id in runs && runs[id].Settled() && id in runs' && runs'[id].Settled()
    && runs'[id].target == runs[id].target && runs'[id].jobName == runs[id].jobName
  }

  lemma SettledStaysInLoop(s: State, e: LoopEvent, id: RunId)
    requires BaseInv(s) && LoopEnabled(s, e)
    requires id in s.tables.runs && s.tables.runs[id].Settled()
    ensures Frozen(s.tables.runs, ApplyLoop(s, e).tables.runs, id)
  {
    if !e.SupersedeOlder? && !e.Mark? {
      assert ApplyLoop(s, e).tables == s.tables;
    }
  }

  /** Nothing ever clears a delivery time. */
  lemma SettledStays(s: State, e: Event, id: RunId)
    requires BaseInv(s) && Enabled(s, e)
    requires id in s.tables.runs && s.tables.runs[id].Settled()
    ensures Frozen(s.tables.runs, Apply(s, e).tables.runs, id)
  {
    match e
    case Tool(t) => assert id in ApplyTool(s, t).tables.runs;
    case Executor(x) => assert id !in s.executors;
    case Loop(l) => SettledStaysInLoop(s, l, id);
    case Restart =>
  }

  /** What a call adds to the log. */
  lemma LogGrows(log: seq<Attempt>, call: Attempt, id: RunId)
    ensures Tries(log + [call], id) == Tries(log, id) + (if id == call.id then 1 else 0)
    ensures Succeeded(log + [call], id) <==> Succeeded(log, id) || (id == call.id && call.ok)
  {
    var grown := log + [call];
    assert grown[..|log|] == log && grown[|log|] == call;
    if i :| 0 <= i < |log| && log[i].id == id && log[i].ok {
      assert grown[i] == log[i];
    }
  }

  /** The delivery call itself. */
  lemma DeliverKeepsAttempts(s: State, ok: bool)
    requires AttemptInv(s) && LoopEnabled(s, Deliver(ok))
    ensures AttemptInv(ApplyLoop(s, Deliver(ok)))
  {
    var s', it := ApplyLoop(s, Deliver(ok)), s.point.id;
    BaseLoopStep(s, Deliver(ok));
    assert !Closed(s, it);
    forall id
      ensures Tries(s'.log, id) == Tries(s.log, id) + (if id == it then 1 else 0)
      ensures Succeeded(s'.log, id) <==> Succeeded(s.log, id) || (id == it && ok)
    {
      LogGrows(s.log, Attempt(it, s.point.target, ok), id);
    }
    assert forall i :: 0 <= i < |s.log| && s.log[i].id == it ==> !s.log[i].ok;
  }

  // Every other step leaves the call log alone and closes no fewer runs.

  lemma LogStays(s: State, e: Event)
    requires Enabled(s, e) && !e.Restart? && !(e.Loop? && e.step.Deliver?)
    ensures Apply(s, e).log == s.log
  {
    match e
    case Tool(t) =>
    case Executor(x) =>
    case Loop(l) =>
  }

  lemma ClosedStaysInLoop(s: State, e: LoopEvent, id: RunId)
    requires BaseInv(s) && LoopEnabled(s, e) && Closed(s, id)
    ensures Closed(ApplyLoop(s, e), id)
  {
    if id in s.tables.runs && s.tables.runs[id].Settled() {
      SettledStaysInLoop(s, e, id);
    }
  }

  lemma SettledMayStay(s: State, e: Event, id: RunId)
    requires BaseInv(s) && Enabled(s, e)
    ensures id in s.tables.runs && s.tables.runs[id].Settled() ==>
              id in Apply(s, e).tables.runs && Apply(s, e).tables.runs[id].Settled()
  {
    if id in s.tables.runs && s.tables.runs[id].Settled() {
      SettledStays(s, e, id);
    }
  }

  lemma ClosedStays(s: State, e: Event, id: RunId)
    requires BaseInv(s) && Enabled(s, e) && !e.Restart? && Closed(s, id)
    ensures Closed(Apply(s, e), id)
  {
    match e
    case Tool(_) => SettledMayStay(s, e, id);
    case Executor(_) => SettledMayStay(s, e, id);
    case Loop(l) => ClosedStaysInLoop(s, l, id);
  }

  lemma CountStaysInLoop(s: State, e: LoopEvent, id: RunId)
    requires LoopEnabled(s, e) && !e.Deliver? && !Closed(s, id)
    ensures Count(ApplyLoop(s, e).attemptCounts, id) == Count(s.attemptCounts, id)
  {
  }

  lemma CountStays(s: State, e: Event, id: RunId)
    requires Enabled(s, e) && !e.Restart? && !(e.Loop? && e.step.Deliver?) && !Closed(s, id)
    ensures Count(Apply(s, e).attemptCounts, id) == Count(s.attemptCounts, id)
  {
    match e
    case Tool(t) =>
    case Executor(x) =>
    case Loop(l) => CountStaysInLoop(s, l, id);
  }

  /** A call is only ever about to be made for a run not remembered as sent. */
  lemma PointStays(s: State, e: Event)
    requires Enabled(s, e) && !e.Restart? && (s.point.Delivering? ==> s.point.id !in s.deliveredInMemory)
    ensures Apply(s, e).point.Delivering? ==> Apply(s, e).point.id !in Apply(s, e).deliveredInMemory
  {
    match e
    case Tool(t) =>
    case Executor(x) =>
    case Loop(l) =>
  }

  lemma KeepsAttempts(s: State, s': State)
    requires AttemptInv(s) && BaseInv(s') && s'.log == s.log
    requires s'.point.Delivering? ==> s'.point.id !in s'.deliveredInMemory
    requires forall id :: Closed(s, id) ==> Closed(s', id)
    requires forall id :: !Closed(s, id) ==> Count(s'.attemptCounts, id) == Count(s.attemptCounts, id)
    ensures AttemptInv(s')
  {
  }

  lemma OtherStepKeepsAttempts(s: State, e: Event)
    requires AttemptInv(s) && Enabled(s, e) && !e.Restart? && !(e.Loop? && e.step.Deliver?)
    ensures AttemptInv(Apply(s, e))
  {
    BaseStep(s, e);
    LogStays(s, e);
    PointStays(s, e);
    forall id
      ensures Closed(s, id) ==> Closed(Apply(s, e), id)
      ensures !Closed(s, id) ==> Count(Apply(s, e).attemptCounts, id) == Count(s.attemptCounts, id)
    {
      if Closed(s, id) {
        ClosedStays(s, e, id);
      } else {
        CountStays(s, e, id);
      }
    }
    KeepsAttempts(s, Apply(s, e));
  }

  lemma AttemptStep(s: State, e: Event)
    requires AttemptInv(s) && Enabled(s, e)
    ensures AttemptInv(Apply(s, e))
  {
    match e
    case Loop(Deliver(ok)) => DeliverKeepsAttempts(s, ok);
    case Restart => BaseStep(s, e);
    case _ => OtherStepKeepsAttempts(s, e);
  }

  lemma {:induction false} AttemptInvAlong(s: State, h: seq<Event>)
    requires Possible(s, h) && AttemptInv(s)
    ensures AttemptInv(After(s, h))
    decreases |h|
  {
    if h != [] {
      AttemptStep(s, h[0]);
      AttemptInvAlong(Apply(s, h[0]), h[1..]);
    }
  }

  /**
    In one process lifetime each run is handed to delivery at most three times
    and never again after a success, over every
    history and every failure of the outcome writes. The log restarts with the process.
   */
  lemma DeliveryIsBoundedAndStopsAtSuccess(s: State, h: seq<Event>, id: RunId)
    requires Initial(s) && Possible(s, h)
    ensures Tries(After(s, h).log, id) <= 3
    ensures NothingAfterSuccess(After(s, h).log)
  {
    AttemptInvAlong(s, h);
  }

  /** The bound is reached: three failures in a row are possible, after which the run is settled as given up. */
  lemma ThreeFailuresGiveUp(s: State, id: RunId, target: Target, now: Time)
    requires s.point == Delivering(id, target) && Count(s.attemptCounts, id) == 2
    requires id in s.tables.runs
    ensures LoopEnabled(s, Deliver(false)) && LoopEnabled(ApplyLoop(s, Deliver(false)), Mark(now, true, true))
    ensures var s' := ApplyLoop(ApplyLoop(s, Deliver(false)), Mark(now, true, true));
            s'.tables.runs[id].Settled() && s'.tables.runs[id].deliveryStatus.GaveUp? && id !in s'.attemptCounts
  {
  }
}
