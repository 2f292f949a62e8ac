/**
  The schedule columns of a cron_specs row and the typed kind they encode.
  Cron expressions, RFC 3339 times and UUIDs are read by libraries outside the
  model; `Readers` carries those readers as parameters and `Sound` states the
  four facts about them that the results below need.
 */
module ScheduleCodec {
  import opened Wrappers
  import opened Text

  type Uuid = nat

  /** Instants, as readable by the RFC 3339 reader. */
  type Instant = int

  datatype Readers = Readers(
    cronParses: string -> bool,
    parseTime: string -> Option<Instant>,
    printTime: Instant -> string,
    parseUuid: string -> Option<Uuid>,
    printUuid: Uuid -> string)

  /** The 7-field text handed to the cron library for a 5-field expression. */
  function ToSevenField(expr: string): string {
    "0 " + Trim(expr) + " *"
  }

  /** What is assumed of the outside readers. */
  ghost predicate Sound(x: Readers) {
    && (forall s :: s != "" && s[0] == '@' ==> !x.cronParses("0 " + s + " *"))
    && (forall u: Uuid :: x.parseUuid(x.printUuid(u)) == Some(u))
    && (forall u: Uuid :: '\n' !in x.printUuid(u))
    && (forall t :: x.parseTime(x.printTime(t)) == Some(t))
  }

  predicate ValidSchedule(x: Readers, s: string) {
    Trim(s) != "" && x.cronParses(ToSevenField(s))
  }

  const IMMEDIATE_SENTINEL := "@immediate"
  const BG_SENTINEL_PREFIX := "@bg:"

  datatype ScheduleKind =
    | Recurring(expr: string)
    | OneShotCron(expr: string)
    | RunAt(at: Instant)
    | Immediate
    | BackgroundContinuation(forkFrom: Uuid)
  {
    /** The kinds that own a sleeping job loop. */
    predicate HasCronExpression() {
      Recurring? || OneShotCron?
    }

    /** Fired by every reconcile tick rather than by a loop. */
    predicate FiresOnTick() {
      Immediate? || BackgroundContinuation?
    }

    /** Never given a job loop by the reconciler. */
    predicate SkipsJobLoop() {
      RunAt? || FiresOnTick()
    }
  }

  /** The three columns a kind is stored in. `recurring` is an SQL integer. */
  datatype Columns = Columns(schedule: string, runAt: Option<string>, recurring: int)

  /** Reads a row back; `run_at` wins over the sentinels, which win over `recurring`. */
  function FromDbRow(x: Readers, c: Columns): Result<ScheduleKind> {
    if c.runAt.Some? then
      match x.parseTime(c.runAt.value)
      case Some(t) => Ok(RunAt(t))
      case None => Err("invalid run_at datetime")
    else if BG_SENTINEL_PREFIX <= c.schedule then
      match x.parseUuid(c.schedule[|BG_SENTINEL_PREFIX|..])
      case Some(u) => Ok(BackgroundContinuation(u))
      case None => Err("invalid bg fork_from UUID")
    else if c.schedule == IMMEDIATE_SENTINEL then Ok(Immediate)
    else if c.recurring == 0 then Ok(OneShotCron(c.schedule))
    else Ok(Recurring(c.schedule))
  }

  /** The text a kind displays as. */
  function Display(x: Readers, k: ScheduleKind): string {
    match k
    case Recurring(s) => s
    case OneShotCron(s) => s
    case RunAt(t) => x.printTime(t)
    case Immediate => IMMEDIATE_SENTINEL
    case BackgroundContinuation(u) => BG_SENTINEL_PREFIX + x.printUuid(u)
  }

  /** Where each kind's text is stored. */
  function StoredAs(x: Readers, k: ScheduleKind): Columns {
    if k.RunAt? then Columns("", Some(Display(x, k)), 0)
    else Columns(Display(x, k), None, if k.Recurring? then 1 else 0)
  }

  /** A kind the create path can produce: its expression passed validation. */
  predicate Storable(x: Readers, k: ScheduleKind) {
    k.HasCronExpression() ==> ValidSchedule(x, k.expr)
  }

  /** Valid cron text cannot be mistaken for a sentinel. */
  lemma ValidScheduleIsNoSentinel(x: Readers, s: string)
    requires Sound(x) && ValidSchedule(x, s)
    ensures s != "" && s[0] != '@'
  {
  }

  /** Neither sentinel reads as the other, and text without a leading '@' reads as neither. */
  lemma SentinelsAreDistinct(s: string)
    ensures !(BG_SENTINEL_PREFIX <= IMMEDIATE_SENTINEL)
    ensures s == "" || s[0] != '@' ==> !(BG_SENTINEL_PREFIX <= s) && s != IMMEDIATE_SENTINEL
  {
    assert IMMEDIATE_SENTINEL[1] == 'i' && BG_SENTINEL_PREFIX[1] == 'b';
    assert IMMEDIATE_SENTINEL[0] == '@' && BG_SENTINEL_PREFIX[0] == '@';
  }

  /** No more in the columns than the kind needs: the flag is set just for recurring kinds, and a run time stands alone. */
  predicate Tidy(k: ScheduleKind, c: Columns) {
    && c.recurring == (if k.Recurring? then 1 else 0)
    && (if k.RunAt? then c.runAt.Some? && c.schedule == "" else c.runAt.None?)
  }

  /** Columns written for any kind decode back to that kind. */
  lemma StoredKindDecodes(x: Readers, k: ScheduleKind)
    requires Sound(x) && Storable(x, k)
    ensures FromDbRow(x, StoredAs(x, k)) == Ok(k) && Tidy(k, StoredAs(x, k))
  {
    SentinelsAreDistinct(Display(x, k));
    if k.HasCronExpression() {
      ValidScheduleIsNoSentinel(x, k.expr);
    } else if k.BackgroundContinuation? {
      var text := Display(x, k);
      assert text[|BG_SENTINEL_PREFIX|..] == x.printUuid(k.forkFrom);
    }
  }

  /** Resolves the create request's schedule arguments into columns. */
  function ResolveScheduleFields(x: Readers, schedule: Option<string>, recurring: Option<bool>,
                                 runAt: Option<string>, immediate: bool): Result<Columns>
  {
    match (schedule, runAt, immediate)
    case (Some(s), None, false) =>
      if ValidSchedule(x, s) then Ok(Columns(s, None, if recurring.GetOr(true) then 1 else 0))
      else Err("invalid cron schedule")
    case (None, Some(t), false) =>
      if x.parseTime(t).Some? then Ok(Columns("", Some(t), 0))
      else Err("invalid run_at datetime")
    case (None, None, true) => Ok(Columns(IMMEDIATE_SENTINEL, None, 0))
    case (None, None, false) => Err("one of schedule, run_at, or immediate must be provided")
    case (_, _, _) => Err("schedule, run_at, and immediate are mutually exclusive")
  }

  /** The kind a caller means by a request, read without looking at columns. */
  function Meant(x: Readers, schedule: Option<string>, recurring: Option<bool>,
                 runAt: Option<string>, immediate: bool): Option<ScheduleKind>
  {
    var given := (if schedule.Some? then 1 else 0) + (if runAt.Some? then 1 else 0) + (if immediate then 1 else 0);
    if given != 1 then None
    else if immediate then Some(Immediate)
    else if runAt.Some? then
      (match x.parseTime(runAt.value) case Some(t) => Some(RunAt(t)) case None => None)
    else if !ValidSchedule(x, schedule.value) then None
    else if recurring == Some(false) then Some(OneShotCron(schedule.value))
    else Some(Recurring(schedule.value))
  }

  /** A request is accepted exactly when it means one kind, and its columns decode to that kind. */
  lemma ResolvedRequestDecodes(x: Readers, schedule: Option<string>, recurring: Option<bool>,
                               runAt: Option<string>, immediate: bool)
    requires Sound(x)
    ensures var r := ResolveScheduleFields(x, schedule, recurring, runAt, immediate);
            var m := Meant(x, schedule, recurring, runAt, immediate);
            && (r.Ok? <==> m.Some?)
            && (r.Ok? ==> FromDbRow(x, r.value) == Ok(m.value) && Tidy(m.value, r.value))
  {
    SentinelsAreDistinct(schedule.GetOr(""));
    if schedule.Some? && ValidSchedule(x, schedule.value) {
      ValidScheduleIsNoSentinel(x, schedule.value);
    }
  }

  /** Two storable kinds with the same columns are the same kind. */
  lemma StoredAsIsInjective(x: Readers, j: ScheduleKind, k: ScheduleKind)
    requires Sound(x) && Storable(x, j) && Storable(x, k)
    requires StoredAs(x, j) == StoredAs(x, k)
    ensures j == k
  {
    StoredKindDecodes(x, j);
    StoredKindDecodes(x, k);
  }
}
