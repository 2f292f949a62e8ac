/** The start-up rewrite of old background rows into the '@bg:' form. */
module LegacyMigration {
  import opened Wrappers
  import opened ScheduleCodec
  import opened CronTables
  import CronDb

  const LEGACY_FORK_HEADER := "X-FORK-FROM: "

  /** Splits at the first occurrence of `c`. */
  function SplitOnce(s: string, c: char): (r: Option<(string, string)>)
    ensures r.None? <==> c !in s
    ensures r.Some? ==> s == r.value.0 + [c] + r.value.1 && c !in r.value.0
  {
    if s == "" then None
    else if s[0] == c then Some(("", s[1..]))
    else
      match SplitOnce(s[1..], c)
      case None => None
      case Some((a, b)) =>
        assert s == [s[0]] + s[1..];
        Some(([s[0]] + a, b))
  }

  /** What follows the prefix, if the text has it. */
  function StripPrefix(prefix: string, s: string): Option<string> {
    if prefix <= s then Some(s[|prefix|..]) else None
  }

  /** The session text and the body of a legacy prompt. */
  function HeaderAndBody(prompt: string): Option<(string, string)> {
    match StripPrefix(LEGACY_FORK_HEADER, prompt)
    case None => None
    case Some(rest) => SplitOnce(rest, '\n')
  }

  /** The fork source and the body of a legacy prompt, if it is one. */
  function ReadLegacy(x: Readers, prompt: string): Option<(Uuid, string)> {
    match HeaderAndBody(prompt)
    case None => None
    case Some((session, body)) =>
      match x.parseUuid(session)
      case None => None
      case Some(u) => Some((u, body))
  }

  predicate Migratable(x: Readers, row: SpecRow) {
    row.columns.schedule == IMMEDIATE_SENTINEL && ReadLegacy(x, row.prompt).Some?
  }

  function MigrateRow(x: Readers, row: SpecRow): SpecRow {
    if !Migratable(x, row) then row
    else
      var (u, body) := ReadLegacy(x, row.prompt).value;
      row.(columns := row.columns.(schedule := Display(x, BackgroundContinuation(u))), prompt := body)
  }

  function Migrate(x: Readers, specs: Specs): Specs {
    map job | job in specs :: MigrateRow(x, specs[job])
  }

  function MigratableJobs(x: Readers, specs: Specs): set<JobName> {
    set job | job in specs && Migratable(x, specs[job])
  }

  /** Strips the header, splits off the session line and reads it; a row that does not fit is skipped. */
  method RewriteRow(x: Readers, row: SpecRow) returns (rewritten: Option<SpecRow>)
    requires row.columns.schedule == IMMEDIATE_SENTINEL
    ensures rewritten == if Migratable(x, row) then Some(MigrateRow(x, row)) else None
  {
    rewritten := None;
    match StripPrefix(LEGACY_FORK_HEADER, row.prompt)
    case None =>
    case Some(rest) =>
      match SplitOnce(rest, '\n')
      case None =>
      case Some((session, body)) =>
        match x.parseUuid(session)
        case None =>
        case Some(forkFrom) =>
          var schedule := Display(x, BackgroundContinuation(forkFrom));
          rewritten := Some(row.(columns := row.columns.(schedule := schedule), prompt := body));
  }

  /** The pass over the candidate rows, all in one transaction: a failing statement or commit undoes everything. */
  method MigrateLegacyBgContinuation(x: Readers, db: CronDb.Connection) returns (ok: bool, migrated: nat)
    modifies db`specs
    ensures ok ==> db.specs == Migrate(x, old(db.specs)) && migrated == |MigratableJobs(x, old(db.specs))|
    ensures !ok ==> db.specs == old(db.specs)
  {
    var before := db.specs;
    ok, migrated := *, 0;
    if !ok {
      return; // the candidate query
    }
    var left := set job | job in before && before[job].columns.schedule == IMMEDIATE_SENTINEL;
    if left == {} {
      assert forall job :: job in before && before[job].columns.schedule == IMMEDIATE_SENTINEL ==> job in left;
      NothingToMigrate(x, before);
      return;
    }
    var specs := before;
    ghost var done: set<JobName> := {};
    ghost var all := MigratableJobs(x, before);
    while left != {}
      invariant ok && db.specs == before
      invariant left <= before.Keys && specs.Keys == before.Keys
      invariant forall job :: job in left ==> before[job].columns.schedule == IMMEDIATE_SENTINEL
      invariant done == all - left && migrated == |done|
      invariant Rewritten(x, before, specs, done)
      decreases left
    {
      var job :| job in left;
      var rewritten := RewriteRow(x, before[job]);
      OneFewerLeft(all, left, job);
      if rewritten.Some? {
        ok := *;
        if !ok {
          return;
        }
        RewriteOneMore(x, before, specs, done, job);
        assert job in all;
        specs := specs[job := rewritten.value];
        migrated := migrated + 1;
        done := done + {job};
      }
      left := left - {job};
    }
    RewrittenAll(x, before, specs);
    ok := *;
    if ok {
      db.specs := specs; // the commit
    }
  }

  lemma NothingToMigrate(x: Readers, specs: Specs)
    requires forall job :: job in specs ==> specs[job].columns.schedule != IMMEDIATE_SENTINEL
    ensures Migrate(x, specs) == specs && MigratableJobs(x, specs) == {}
  {
  }

  lemma OneFewerLeft<T>(all: set<T>, left: set<T>, e: T)
    requires e in left
    ensures all - (left - {e}) == (all - left) + (if e in all then {e} else {})
  {
  }

  /** `specs` is `before` with exactly the rows of `done` rewritten. */
  ghost predicate Rewritten(x: Readers, before: Specs, specs: Specs, done: set<JobName>) {
    && specs.Keys == before.Keys
    && forall job :: job in before ==> specs[job] == if job in done then MigrateRow(x, before[job]) else before[job]
  }

  lemma RewriteOneMore(x: Readers, before: Specs, specs: Specs, done: set<JobName>, job: JobName)
    requires Rewritten(x, before, specs, done) && job in before
    ensures Rewritten(x, before, specs[job := MigrateRow(x, before[job])], done + {job})
  {
  }

  lemma RewrittenAll(x: Readers, before: Specs, specs: Specs)
    requires Rewritten(x, before, specs, MigratableJobs(x, before))
    ensures specs == Migrate(x, before)
  {
  }

  lemma RewrittenRowIsDone(x: Readers, row: SpecRow)
    ensures !Migratable(x, MigrateRow(x, row))
  {
    if Migratable(x, row) {
      assert MigrateRow(x, row).columns.schedule[1] == 'b' && IMMEDIATE_SENTINEL[1] == 'i';
    }
  }

  /** A rewritten row no longer holds the sentinel, so nothing is left for a second pass. */
  lemma MigrationIsIdempotent(x: Readers, specs: Specs)
    ensures MigratableJobs(x, Migrate(x, specs)) == {}
    ensures Migrate(x, Migrate(x, specs)) == Migrate(x, specs)
  {
    forall job | job in specs
      ensures !Migratable(x, Migrate(x, specs)[job])
    {
      RewrittenRowIsDone(x, specs[job]);
    }
  }

  /** The rewritten row decodes to the header's session, unless a run time overrides its schedule. */
  lemma MigratedRowDecodes(x: Readers, row: SpecRow)
    requires Sound(x) && Migratable(x, row)
    ensures var (u, body) := ReadLegacy(x, row.prompt).value;
            var row' := MigrateRow(x, row);
            && row'.prompt == body
            && (FromDbRow(x, row'.columns) == Result.Ok(BackgroundContinuation(u)) <==> row.columns.runAt.None?)
  {
  }

  lemma {:induction false} SplitAtFirst(a: string, c: char, b: string)
    requires c !in a
    ensures SplitOnce(a + [c] + b, c) == Some((a, b))
  {
    var s := a + [c] + b;
    if a == "" {
      assert s[1..] == b;
    } else {
      assert s[0] == a[0] && s[1..] == a[1..] + [c] + b;
      SplitAtFirst(a[1..], c, b);
      assert a == [a[0]] + a[1..];
    }
  }

  lemma StripWhatWasPut(prefix: string, rest: string)
    ensures StripPrefix(prefix, prefix + rest) == Some(rest)
  {
  }

  lemma HeaderAndBodyReadBack(session: string, body: string)
    requires '\n' !in session
    ensures HeaderAndBody(LEGACY_FORK_HEADER + (session + ['\n'] + body)) == Some((session, body))
  {
    StripWhatWasPut(LEGACY_FORK_HEADER, session + ['\n'] + body);
    SplitAtFirst(session, '\n', body);
  }

  /** Every row the old convention wrote, whatever its body, migrates to what the new convention writes for it. */
  lemma LegacyRowsMigrateToNewForm(x: Readers, row: SpecRow, forkFrom: Uuid, body: string)
    requires Sound(x)
    requires row.columns == Columns("@immediate", None, 0)
    requires row.prompt == "X-FORK-FROM: " + (x.printUuid(forkFrom) + ['\n'] + body)
    ensures MigrateRow(x, row) ==
            row.(columns := Columns("@bg:" + x.printUuid(forkFrom), None, 0), prompt := body)
  {
    HeaderAndBodyReadBack(x.printUuid(forkFrom), body);
    assert ReadLegacy(x, row.prompt) == Some((forkFrom, body));
  }
}
