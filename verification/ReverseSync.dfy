/**
  Copying the agent's notes back from the sandbox: the downloads finish in any
  order, changed files are written to the host, and files that failed to download
  are deleted there, but only once some download has succeeded.
 */
module ReverseSync {
  import opened Wrappers

  type FileName = string
  type Content = seq<int>

  /** How a download ended. A download can report success without leaving a file. */
  datatype Download = Failed | NothingLeft | Unreadable | Fetched(content: Content)

  type Host = map<FileName, Content>
  type Results = map<FileName, Download>

  /** Host files whose write or delete fails. */
  datatype Faults = Faults(write: set<FileName>, delete: set<FileName>)

  predicate AnyOk(results: Results) {
    exists f :: f in results && !results[f].Failed?
  }

  function At(host: Host, f: FileName): Option<Content> {
    if f in host then Some(host[f]) else None
  }

  /** What the host file should be after the whole sync, judged from its own download alone. */
  function Synced(host: Host, f: FileName, r: Download, anyOk: bool, faults: Faults): Option<Content> {
    match r
    case Failed => if anyOk && f !in faults.delete then None else At(host, f)
    case NothingLeft => At(host, f)
    case Unreadable => At(host, f)
    case Fetched(c) => if f in faults.write then At(host, f) else Some(c)
  }

  /** Whether that file contributes an error. */
  predicate Errs(host: Host, f: FileName, r: Download, anyOk: bool, faults: Faults) {
    match r
    case Failed => anyOk && f in host && f in faults.delete
    case NothingLeft => false
    case Unreadable => true
    case Fetched(c) => At(host, f) != Some(c) && f in faults.write
  }

  /** The whole host after a sync, file by file. */
  ghost predicate SyncedAll(host: Host, host': Host, results: Results, faults: Faults) {
    forall f :: At(host', f) ==
                if f in results then Synced(host, f, results[f], AnyOk(results), faults) else At(host, f)
  }

  function ErringFiles(host: Host, results: Results, faults: Faults): set<FileName> {
    set f | f in results && Errs(host, f, results[f], AnyOk(results), faults)
  }

  /** `order` lists each file of `results` once, in the order the downloads completed. */
  ghost predicate CompletionOrder(order: seq<FileName>, results: Results) {
    && (forall i, k :: 0 <= i < k < |order| ==> order[i] != order[k])
    && (forall f :: f in results <==> f in order)
  }

  lemma SameFiles(a: Host, b: Host)
    requires forall f :: At(a, f) == At(b, f)
    ensures a == b
  {
    forall f ensures (f in a <==> f in b) && (f in a ==> a[f] == b[f]) {
      assert At(a, f) == At(b, f);
    }
  }

  class HostDir {
    var files: Host

    constructor (files: Host)
      ensures this.files == files
    {
      this.files := files;
    }

    /**
      Handles completions one by one, deferring deletions to the end. The final
      files and the reported errors are functions of the results alone: every
      completion order gives the same.
     */
    method ReverseSyncMd(order: seq<FileName>, results: Results, faults: Faults) returns (ok: bool, errors: set<FileName>)
      requires CompletionOrder(order, results)
      modifies this
      ensures SyncedAll(old(files), files, results, faults)
      ensures errors == ErringFiles(old(files), results, faults) && (ok <==> errors == {})
    {
      var anyDownloadOk, pendingDeletes, errs := HandleCompletions(order, results, faults);
      errors := errs;
      if anyDownloadOk {
        errors := ApplyDeletes(pendingDeletes, faults, errs);
      }
      ErrorsAreAll(old(files), results, faults, errs, errors);
      ok := errors == {};
    }

    /** The first phase: no file is deleted yet. */
    method HandleCompletions(order: seq<FileName>, results: Results, faults: Faults)
      returns (anyDownloadOk: bool, pendingDeletes: seq<FileName>, errors: set<FileName>)
      requires CompletionOrder(order, results)
      modifies this
      ensures anyDownloadOk == AnyOk(results)
      ensures forall f :: f in pendingDeletes <==> f in results && results[f].Failed? && f in old(files)
      ensures forall f :: At(files, f) ==
                          if f in results && !results[f].Failed? then Synced(old(files), f, results[f], true, faults)
                          else At(old(files), f)
      ensures forall f :: f in errors <==> f in results && !results[f].Failed? && Errs(old(files), f, results[f], true, faults)
    {
      anyDownloadOk, pendingDeletes, errors := false, [], {};
      ghost var was := files;
      ghost var done: set<FileName> := {};
      for i := 0 to |order|
        invariant done <= results.Keys && (forall k :: 0 <= k < i ==> order[k] in done) && (forall k :: i <= k < |order| ==> order[k] !in done)
        invariant anyDownloadOk <==> exists k :: 0 <= k < i && !results[order[k]].Failed?
        invariant forall f :: f in pendingDeletes <==> f in done && results[f].Failed? && f in was
        invariant forall f :: At(files, f) == if f in done && !results[f].Failed? then Synced(was, f, results[f], true, faults) else At(was, f)
        invariant forall f :: f in errors <==> f in done && !results[f].Failed? && Errs(was, f, results[f], true, faults)
      {
        var f := order[i];
        assert f in order;
        done := done + {f};
        match results[f] {
          case Failed =>
            assert At(files, f) == At(was, f);
            if f in files {
              pendingDeletes := pendingDeletes + [f];
            }
          case NothingLeft =>
            anyDownloadOk := true;
          case Unreadable =>
            anyDownloadOk := true;
            errors := errors + {f};
          case Fetched(content) =>
            anyDownloadOk := true;
            var err := WriteBack(f, content, faults);
            if err {
              errors := errors + {f};
            }
        }
      }
      assert done == results.Keys;
      OkSeen(order, results);
    }

    /** Replaces the host file unless it already has this content. */
    method WriteBack(f: FileName, content: Content, faults: Faults) returns (err: bool)
      modifies this
      ensures forall g :: At(files, g) == if g == f then Synced(old(files), f, Fetched(content), true, faults) else At(old(files), g)
      ensures err == Errs(old(files), f, Fetched(content), true, faults)
    {
      err := false;
      if !(f in files && files[f] == content) {
        if f in faults.write {
          err := true;
        } else {
          files := files[f := content];
        }
      }
    }

    method ApplyDeletes(pendingDeletes: seq<FileName>, faults: Faults, before: set<FileName>) returns (errors: set<FileName>)
      modifies this
      ensures forall f :: At(files, f) == if f in pendingDeletes && f !in faults.delete then None else At(old(files), f)
      ensures errors == before + set f | f in pendingDeletes && f in faults.delete
    {
      errors := before;
      for i := 0 to |pendingDeletes|
        invariant forall f :: At(files, f) == if f in pendingDeletes[..i] && f !in faults.delete then None else At(old(files), f)
        invariant errors == before + set f | f in pendingDeletes[..i] && f in faults.delete
      {
        var f := pendingDeletes[i];
        assert pendingDeletes[..i + 1] == pendingDeletes[..i] + [f];
        if f in faults.delete {
          errors := errors + {f};
        } else {
          files := files - {f};
        }
      }
      assert pendingDeletes[..|pendingDeletes|] == pendingDeletes;
    }
  }

  lemma OkSeen(order: seq<FileName>, results: Results)
    requires CompletionOrder(order, results)
    ensures AnyOk(results) <==> exists k :: 0 <= k < |order| && !results[order[k]].Failed?
  {
  }

  /** The errors of the first phase and of the deletions are together the erring files. */
  lemma ErrorsAreAll(host: Host, results: Results, faults: Faults, early: set<FileName>, all: set<FileName>)
    requires forall f :: f in early <==> f in results && !results[f].Failed? && Errs(host, f, results[f], true, faults)
    requires forall f :: f in all <==>
               f in early || (AnyOk(results) && f in results && results[f].Failed? && f in host && f in faults.delete)
    ensures all == ErringFiles(host, results, faults)
  {
  }

  /** Without a success nothing happens. With one, each listed file ends as its download asks or, where the host refuses, as it was. */
  lemma SyncOutcome(host: Host, host': Host, results: Results, faults: Faults)
    requires SyncedAll(host, host', results, faults)
    ensures (forall f :: f in results ==> results[f].Failed?) ==> host' == host && ErringFiles(host, results, faults) == {}
    ensures (exists f :: f in results && !results[f].Failed?) ==>
              forall f :: f in results ==>
                match results[f]
                case Fetched(c) => if f in faults.write then At(host', f) == At(host, f) else f in host' && host'[f] == c
                case Failed => if f in faults.delete then At(host', f) == At(host, f) else f !in host'
                case _ => At(host', f) == At(host, f)
    ensures forall f :: f !in results ==> At(host', f) == At(host, f)
  {
    assert forall f :: At(host', f) == if f in results then Synced(host, f, results[f], AnyOk(results), faults) else At(host, f);
    if !AnyOk(results) {
      forall f ensures At(host', f) == At(host, f) {
        assert f in results ==> results[f].Failed?;
      }
      SameFiles(host', host);
    }
  }

  /** An error is reported exactly for the files that are not as their download asks afterwards, and the unreadable ones. */
  lemma ErrorsAreWhatIsAmiss(host: Host, host': Host, results: Results, faults: Faults, f: FileName)
    requires SyncedAll(host, host', results, faults) && f in results
    ensures f in ErringFiles(host, results, faults) <==>
            match results[f]
            case Fetched(c) => At(host', f) != Some(c)
            case Failed => f in host' && exists g :: g in results && !results[g].Failed?
            case Unreadable => true
            case NothingLeft => false
  {
    assert At(host', f) == Synced(host, f, results[f], AnyOk(results), faults);
  }

  /** The result is determined: two syncs of the same results leave the same files. */
  lemma SyncIsDetermined(host: Host, a: Host, b: Host, results: Results, faults: Faults)
    requires SyncedAll(host, a, results, faults) && SyncedAll(host, b, results, faults)
    ensures a == b
  {
    forall f ensures At(a, f) == At(b, f) {
    }
    SameFiles(a, b);
  }
}
