/**
  The table of per-session mutexes shared by chat workers and the delivery loop,
  and the sweeper that drops entries nobody else refers to. A task clones the
  entry's reference under the entry lock, waits, holds, and drops the clone.
 */
module SessionLocks {
  import opened Wrappers

  type SessionId = string
  type TaskId = nat
  type Mutex = nat

  datatype Client = Waiting(session: SessionId, mutex: Mutex) | Holding(session: SessionId, mutex: Mutex)

  /** `next` is the identity the next new mutex gets. */
  datatype State = State(locks: map<SessionId, Mutex>, next: Mutex, clients: map<TaskId, Client>)

  /** References to a mutex: one per table entry, one per client clone. */
  function StrongCount(s: State, m: Mutex): nat {
    |set k | k in s.locks && s.locks[k] == m| + |set t | t in s.clients && s.clients[t].mutex == m|
  }

  predicate Held(s: State, m: Mutex) {
    exists t :: t in s.clients && s.clients[t] == Holding(s.clients[t].session, m)
  }

  datatype Event =
    | Acquire(task: TaskId, session: SessionId)
    | Grant(task: TaskId)
    | Drop(task: TaskId)
    | SweepEntry(session: SessionId)

  /** A mutex is granted only while nobody holds it; a waiting client may also give up. */
  predicate Enabled(s: State, e: Event) {
    match e
    case Acquire(t, _) => t !in s.clients
    case Grant(t) => t in s.clients && s.clients[t].Waiting? && !Held(s, s.clients[t].mutex)
    case Drop(t) => t in s.clients
    case SweepEntry(k) => k in s.locks
  }

  /** Get-or-insert and clone are one step; so is the sweeper's decision on one entry. */
  function Apply(s: State, e: Event): State
    requires Enabled(s, e)
  {
    match e
    case Acquire(t, k) =>
      if k in s.locks then s.(clients := s.clients[t := Waiting(k, s.locks[k])])
      else State(s.locks[k := s.next], s.next + 1, s.clients[t := Waiting(k, s.next)])
    case Grant(t) => s.(clients := s.clients[t := Holding(s.clients[t].session, s.clients[t].mutex)])
    case Drop(t) => s.(clients := s.clients - {t})
    case SweepEntry(k) => if StrongCount(s, s.locks[k]) > 1 then s else s.(locks := s.locks - {k})
  }

  /** At most one task holds a session, whichever mutex it holds it through. */
  ghost predicate OneHolderPerSession(s: State) {
    forall t, u ::
      (t in s.clients && u in s.clients && s.clients[t].Holding? && s.clients[u].Holding?
       && s.clients[t].session == s.clients[u].session)
      ==> t == u
  }

  /** Every client's clone is the mutex its session's entry still has. */
  ghost predicate EntriesOutliveClients(s: State) {
    forall t :: t in s.clients ==> s.clients[t].session in s.locks && s.locks[s.clients[t].session] == s.clients[t].mutex
  }

  ghost predicate Inv(s: State) {
    && EntriesOutliveClients(s)
    && OneHolderPerSession(s)
    && (forall k, l :: k in s.locks && l in s.locks && s.locks[k] == s.locks[l] ==> k == l)
    && (forall k :: k in s.locks ==> s.locks[k] < s.next)
  }

  predicate Referenced(clients: map<TaskId, Client>, k: SessionId) {
    exists t :: t in clients && clients[t].session == k
  }

  /** An entry's count is one exactly when no client refers to it. */
  lemma CountMeansReferenced(s: State, k: SessionId)
    requires Inv(s) && k in s.locks
    ensures StrongCount(s, s.locks[k]) >= 1
    ensures StrongCount(s, s.locks[k]) > 1 <==> Referenced(s.clients, k)
  {
    var m := s.locks[k];
    var entries := set l | l in s.locks && s.locks[l] == m;
    var users := set t | t in s.clients && s.clients[t].mutex == m;
    assert entries == {k};
    if t :| t in s.clients && s.clients[t].session == k {
      assert t in users;
    }
    if users != {} {
      var t :| t in users;
      assert s.clients[t].session == k;
    }
  }

  lemma InvStep(s: State, e: Event)
    requires Inv(s) && Enabled(s, e)
    ensures Inv(Apply(s, e))
  {
    match e
    case Acquire(t, k) =>
    case Grant(t) =>
      forall u | u in s.clients && s.clients[u].Holding?
        ensures s.clients[u].session != s.clients[t].session
      {
        assert s.clients[u] == Holding(s.clients[u].session, s.clients[u].mutex);
      }
    case Drop(t) =>
    case SweepEntry(k) => CountMeansReferenced(s, k);
  }

  predicate Possible(s: State, h: seq<Event>)
    decreases |h|
  {
    h == [] || (Enabled(s, h[0]) && Possible(Apply(s, h[0]), h[1..]))
  }

  function After(s: State, h: seq<Event>): State
    requires Possible(s, h)
    decreases |h|
  {
    if h == [] then s else After(Apply(s, h[0]), h[1..])
  }

  lemma {:induction false} InvAlong(s: State, h: seq<Event>)
    requires Inv(s) && Possible(s, h)
    ensures Inv(After(s, h))
    decreases |h|
  {
    if h != [] {
      InvStep(s, h[0]);
      InvAlong(Apply(s, h[0]), h[1..]);
    }
  }

  const EMPTY: State := State(map[], 0, map[])

  /** In every interleaving of acquire, grant, drop and sweep, a session has at most one holder. */
  lemma AtMostOneHolder(h: seq<Event>)
    requires Possible(EMPTY, h)
    ensures OneHolderPerSession(After(EMPTY, h)) && EntriesOutliveClients(After(EMPTY, h))
  {
    InvAlong(EMPTY, h);
  }

  /** Dropping an entry is safe exactly when its count is one: no weaker test, such as "not held", would do. */
  lemma DropIsSafeIff(s: State, k: SessionId)
    requires Inv(s) && k in s.locks
    ensures EntriesOutliveClients(s.(locks := s.locks - {k})) <==> StrongCount(s, s.locks[k]) == 1
  {
    CountMeansReferenced(s, k);
  }

  /** An entry with only a waiter, dropped anyway: a newcomer gets a fresh mutex and both are granted. */
  lemma DroppingAWaitedForEntryAdmitsTwo(k: SessionId)
    ensures var waited := Apply(EMPTY, Acquire(1, k));
            var dropped := waited.(locks := waited.locks - {k});
            var second := Apply(dropped, Acquire(2, k));
            && Inv(waited) && !Held(waited, waited.locks[k])
            && Enabled(second, Grant(1)) && Enabled(Apply(second, Grant(1)), Grant(2))
            && !OneHolderPerSession(Apply(Apply(second, Grant(1)), Grant(2)))
  {
    var waited := Apply(EMPTY, Acquire(1, k));
    var dropped := waited.(locks := waited.locks - {k});
    var second := Apply(dropped, Acquire(2, k));
    var both := Apply(Apply(second, Grant(1)), Grant(2));
    assert both.clients[1].Holding? && both.clients[2].Holding?;
  }

  /** The shared table. Workers and the delivery loop acquire; the sweeper retains. */
  /** The sweeper drops an entry exactly if no client has a clone of it, and leaves the others alone. */
  lemma SweepIsExact(s: State, k: SessionId, other: SessionId)
    requires Inv(s) && k in s.locks
    ensures k in Apply(s, SweepEntry(k)).locks <==> Referenced(s.clients, k)
    ensures other != k ==> (other in Apply(s, SweepEntry(k)).locks <==> other in s.locks)
    ensures Apply(s, SweepEntry(k)).clients == s.clients
  {
    CountMeansReferenced(s, k);
  }

  /** What a task has, by its own events alone: nothing, a clone it waits on, or the session. */
  function Has(h: seq<Event>, t: TaskId, was: Option<(SessionId, bool)>): Option<(SessionId, bool)> {
    if h == [] then was
    else
      match h[0]
      case Acquire(u, k) => Has(h[1..], t, if u == t then Some((k, false)) else was)
      case Grant(u) => Has(h[1..], t, if u == t && was.Some? then Some((was.value.0, true)) else was)
      case Drop(u) => Has(h[1..], t, if u == t then None else was)
      case SweepEntry(_) => Has(h[1..], t, was)
  }

  function Now(s: State, t: TaskId): Option<(SessionId, bool)> {
    if t in s.clients then Some((s.clients[t].session, s.clients[t].Holding?)) else None
  }

  /** Over every history a task is where its own last event put it. */
  lemma {:induction false} ClientsFollowTheirEvents(s: State, h: seq<Event>, t: TaskId)
    requires Possible(s, h)
    ensures Now(After(s, h), t) == Has(h, t, Now(s, t))
    decreases |h|
  {
    if h != [] {
      ClientsFollowTheirEvents(Apply(s, h[0]), h[1..], t);
    }
  }

  class SessionTable {
    var locks: map<SessionId, Mutex>
    var next: Mutex
    var clients: map<TaskId, Client>

    function View(): State
      reads this
    {
      State(locks, next, clients)
    }

    constructor ()
      ensures View() == EMPTY
    {
      locks, next, clients := map[], 0, map[];
    }

    method GetOrInsert(task: TaskId, session: SessionId)
      requires Inv(View()) && task !in clients
      modifies this
      ensures Inv(View()) && View() == Apply(old(View()), Acquire(task, session))
    {
      ghost var s := View();
      if session !in locks {
        locks := locks[session := next];
        next := next + 1;
      }
      clients := clients[task := Waiting(session, locks[session])];
      InvStep(s, Acquire(task, session));
    }

    /** Keeps the entries that someone beside the table refers to, one entry at a time. */
    method Sweep()
      requires Inv(View())
      modifies this`locks
      ensures Inv(View())
      ensures forall k :: k in locks <==> k in old(locks) && Referenced(clients, k)
      ensures forall k :: k in locks ==> locks[k] == old(locks)[k]
    {
      var left := locks.Keys;
      ghost var was := locks;
      while left != {}
        invariant Inv(View()) && left <= locks.Keys <= was.Keys
        invariant clients == old(clients)
        invariant forall k :: k in was && k !in left ==> (k in locks <==> Referenced(clients, k))
        invariant forall k :: k in locks ==> locks[k] == was[k]
        decreases left
      {
        var k :| k in left;
        left := left - {k};
        CountMeansReferenced(View(), k);
        InvStep(View(), SweepEntry(k));
        if StrongCount(View(), locks[k]) <= 1 {
          locks := locks - {k};
        }
      }
    }
  }
}
