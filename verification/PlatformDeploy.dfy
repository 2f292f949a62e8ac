/**
  The deploy: content goes to its address, then the entry's link is switched to it;
  when every entry is in place, the store is swept.
 */
module PlatformDeploy {
  import opened Wrappers
  import opened SandboxFs
  import opened PlatformLayout
  import opened DeploySteps
  import Gc = PlatformGc

  /** Temporary link, removal of what is in the way, and a move into place; the removal may fail unnoticed. */
  method AtomicSymlink(sbox: Sandbox, target: Path, link: Path) returns (ok: bool)
    requires sbox.Valid() && link != [] && link[0] != "tmp" && !IsDir(sbox.fs, TmpFor(link))
    modifies sbox
    ensures sbox.Valid() && old(sbox.trace) <= sbox.trace
    ensures forall k :: old(sbox.Now()) <= k < |sbox.trace| ==> LinkStep(old(sbox.fs), sbox.trace[k], target, link)
    ensures ok ==> At(sbox.fs, link) == Some(Link(target))
  {
    ghost var a := sbox.fs;
    ok := sbox.Mkdir(Parent(link));
    forall k | old(sbox.Now()) <= k < |sbox.trace| ensures LinkStep(a, sbox.trace[k], target, link) {
      MkdirForLink(a, sbox.trace[k], link);
    }
    MkdirForLink(a, sbox.fs, link);
    if !ok {
      return;
    }
    ok := LinkTmp(sbox, a, target, link);
    if !ok {
      return;
    }
    ghost var linked := sbox.fs;
    ghost var n := sbox.Now();
    var exit := sbox.RmRf({link});
    forall k | n <= k < |sbox.trace|
      ensures LinkStep(a, sbox.trace[k], target, link) && At(sbox.trace[k], TmpFor(link)) == At(linked, TmpFor(link))
    {
      RmForLink(a, linked, sbox.trace[k], target, link);
    }
    if exit.Lost? {
      return false;
    }
    ok := MoveLink(sbox, a, target, link);
  }

  method LinkTmp(sbox: Sandbox, ghost a: Fs, target: Path, link: Path) returns (ok: bool)
    requires sbox.Valid() && link != [] && link[0] != "tmp" && !IsDir(sbox.fs, TmpFor(link))
    requires LinkFrame(a, sbox.fs, link) && SameBelow(a, sbox.fs, link)
    modifies sbox
    ensures sbox.Valid() && old(sbox.trace) <= sbox.trace
    ensures forall k :: old(sbox.Now()) <= k < |sbox.trace| ==> LinkStep(a, sbox.trace[k], target, link)
    ensures LinkFrame(a, sbox.fs, link) && SameBelow(a, sbox.fs, link)
    ensures ok ==> At(sbox.fs, TmpFor(link)) == Some(Link(target))
  {
    ghost var m := sbox.fs;
    ok := sbox.Ln(target, TmpFor(link));
    forall k | old(sbox.Now()) <= k < |sbox.trace|
      ensures LinkFrame(a, sbox.trace[k], link) && SameBelow(a, sbox.trace[k], link)
    {
      LnForLink(a, m, sbox.trace[k], target, link);
    }
  }

  method MoveLink(sbox: Sandbox, ghost a: Fs, target: Path, link: Path) returns (ok: bool)
    requires sbox.Valid() && link != [] && link[0] != "tmp" && At(sbox.fs, TmpFor(link)) == Some(Link(target))
    requires LinkStep(a, sbox.fs, target, link)
    modifies sbox
    ensures sbox.Valid() && old(sbox.trace) <= sbox.trace
    ensures forall k :: old(sbox.Now()) <= k < |sbox.trace| ==> LinkStep(a, sbox.trace[k], target, link)
    ensures ok ==> At(sbox.fs, link) == Some(Link(target))
  {
    ghost var m := sbox.fs;
    ok := sbox.Mv(TmpFor(link), link);
    forall k | old(sbox.Now()) <= k < |sbox.trace| ensures LinkStep(a, sbox.trace[k], target, link) {
      MvForLink(a, m, sbox.trace[k], target, link);
    }
  }

  /** What a deploy of one entry asks of the sandbox: nobody else's directory or link is in its way. */
  predicate Ready(fs: Fs, e: Entry)
    requires e.link != []
  {
    !IsDir(fs, TmpFor(e.link)) && !IsLink(fs, Target(e))
  }

  /** Gets a file's content to its address, unless something is there. */
  method StoreFile(sbox: Sandbox, e: Entry, ghost h: Hasher) returns (ok: bool)
    requires sbox.Valid() && WellFormed(e, h) && e.payload.OneFile? && Ready(sbox.fs, e)
    modifies sbox
    ensures sbox.Valid() && old(sbox.trace) <= sbox.trace
    ensures forall k :: old(sbox.Now()) <= k < |sbox.trace| ==> StoreFrame(old(sbox.fs), sbox.trace[k], e)
    ensures ok ==> Placed(old(sbox.fs), sbox.fs, e)
  {
    ghost var a := sbox.fs;
    var there := sbox.Test(Target(e), false);
    if there.None? || there.value {
      return there.Some?;
    }
    ok := sbox.Mkdir(StoreDir(e));
    forall k | old(sbox.Now()) <= k < |sbox.trace| ensures StoreFrame(a, sbox.trace[k], e) {
      MkdirForFile(a, sbox.trace[k], e);
    }
    if !ok {
      return;
    }
    ghost var m, n := sbox.fs, sbox.Now();
    ok := sbox.Upload(Scratch(e), e.payload.content);
    forall k | n <= k < |sbox.trace| ensures StoreFrame(a, sbox.trace[k], e) {
      UploadForFile(a, m, sbox.trace[k], e);
    }
    if !ok {
      return;
    }
    ScratchIsNotTarget(e, h);
    ghost var u, l := sbox.fs, sbox.Now();
    ok := sbox.Mv(Scratch(e), Target(e));
    forall k | l <= k < |sbox.trace| ensures StoreFrame(a, sbox.trace[k], e) {
      MvForFile(a, u, sbox.trace[k], e);
    }
  }

  lemma ScratchIsNotTarget(e: Entry, h: Hasher)
    requires WellFormed(e, h)
    ensures Scratch(e) != Target(e)
  {
    TargetIsSlot(e, h);
    assert Scratch(e)[|Scratch(e)| - 1] == e.name;
    assert Target(e)[|Target(e)| - 1] == PlatformPath(e.name, e.hash);
    assert |PlatformPath(e.name, e.hash)| == |e.name| + 9;
  }

  /** Gets a directory's content to its address, unless a directory is there. */
  method StoreDirectory(sbox: Sandbox, e: Entry, ghost h: Hasher) returns (ok: bool)
    requires sbox.Valid() && WellFormed(e, h) && e.payload.Directory? && Ready(sbox.fs, e)
    modifies sbox
    ensures sbox.Valid() && old(sbox.trace) <= sbox.trace
    ensures forall k :: old(sbox.Now()) <= k < |sbox.trace| ==> StoreFrame(old(sbox.fs), sbox.trace[k], e)
    ensures ok ==> Placed(old(sbox.fs), sbox.fs, e)
  {
    ghost var a := sbox.fs;
    var t := Target(e);
    var there := sbox.Test(t, true);
    if there.None? || there.value {
      return there.Some?;
    }
    ok := sbox.Mkdir(t);
    assert t + [] == t;
    if t !in a {
      NothingBelowMissing(a, t);
    }
    forall k | old(sbox.Now()) <= k < |sbox.trace|
      ensures StoreFrame(a, sbox.trace[k], e) && (t !in a ==> Bare(sbox.trace[k], t))
    {
      MkdirForDirectory(a, a, sbox.trace[k], e, []);
    }
    if !ok {
      return;
    }
    ok := MakeSubdirectories(sbox, a, e);
    if !ok {
      return;
    }
    ghost var m, n := sbox.fs, sbox.Now();
    ok := sbox.UploadAll(t, e.payload.tree);
    forall k | n <= k < |sbox.trace| ensures StoreFrame(a, sbox.trace[k], e) {
      UploadForDirectory(a, m, sbox.trace[k], e);
    }
    if ok {
      UploadedTree(m, sbox.fs, e);
    }
  }

  lemma NothingBelowMissing(fs: Fs, t: Path)
    requires Tree(fs) && t !in fs
    ensures Bare(fs, t)
  {
    forall q | t <= q && q in fs ensures false {
      AncestorsAreDirs(fs, t, q);
    }
  }

  /** The directories the files of the tree go to, in any order. */
  method MakeSubdirectories(sbox: Sandbox, ghost a: Fs, e: Entry) returns (ok: bool)
    requires sbox.Valid() && e.payload.Directory? && Target(e) !in a && [] !in e.payload.tree
    requires StoreFrame(a, sbox.fs, e) && IsDir(sbox.fs, Target(e)) && Bare(sbox.fs, Target(e))
    modifies sbox
    ensures sbox.Valid() && old(sbox.trace) <= sbox.trace
    ensures forall k :: old(sbox.Now()) <= k < |sbox.trace| ==> StoreFrame(a, sbox.trace[k], e)
    ensures IsDir(sbox.fs, Target(e)) && Bare(sbox.fs, Target(e))
  {
    var subdirs := set rel | rel in e.payload.tree && |rel| > 1 :: Parent(rel);
    while subdirs != {}
      invariant sbox.Valid() && old(sbox.trace) <= sbox.trace
      invariant forall k :: old(sbox.Now()) <= k < |sbox.trace| ==> StoreFrame(a, sbox.trace[k], e)
      invariant IsDir(sbox.fs, Target(e)) && Bare(sbox.fs, Target(e))
      decreases subdirs
    {
      var subdir :| subdir in subdirs;
      subdirs := subdirs - {subdir};
      ghost var m, n := sbox.fs, sbox.Now();
      ok := sbox.Mkdir(Target(e) + subdir);
      forall k | n <= k < |sbox.trace|
        ensures StoreFrame(a, sbox.trace[k], e) && Bare(sbox.trace[k], Target(e))
      {
        MkdirForDirectory(a, m, sbox.trace[k], e, subdir);
      }
      assert At(sbox.fs, Target(e)) == At(m, Target(e));
      if !ok {
        return;
      }
    }
    ok := true;
  }

  /** Stores an entry's content, then switches its link. */
  method DeployEntry(sbox: Sandbox, e: Entry, ghost h: Hasher) returns (ok: bool, target: Path)
    requires sbox.Valid() && WellFormed(e, h) && Ready(sbox.fs, e)
    modifies sbox
    ensures sbox.Valid() && old(sbox.trace) <= sbox.trace
    ensures forall k :: old(sbox.Now()) <= k < |sbox.trace| ==> Mid(old(sbox.fs), sbox.trace[k], e)
    ensures target == Target(e)
    ensures ok ==> At(sbox.fs, e.link) == Some(Link(target)) && Placed(old(sbox.fs), sbox.fs, e)
    ensures ok ==> (Resolved(sbox.fs, e, h) <==> CompleteBefore(old(sbox.fs), e, h))
  {
    ghost var a := sbox.fs;
    target := Target(e);
    if e.payload.Directory? {
      ok := StoreDirectory(sbox, e, h);
    } else {
      ok := StoreFile(sbox, e, h);
    }
    forall k | old(sbox.Now()) <= k < |sbox.trace| ensures Mid(a, sbox.trace[k], e) {
      StoreFrameIsMid(a, sbox.trace[k], e, h);
    }
    if !ok {
      return;
    }
    ghost var s, n := sbox.fs, sbox.Now();
    StoreLeavesLinks(a, s, e, h);
    ok := AtomicSymlink(sbox, target, e.link);
    forall k | n <= k < |sbox.trace| ensures Mid(a, sbox.trace[k], e) && Placed(a, sbox.trace[k], e) {
      HalvesCompose(a, s, sbox.trace[k], e, h);
    }
    PlacedResolvesIff(a, sbox.fs, e, h);
  }

  /**
    Files survive a stop at any step; directories do not. A deploy stopped after its
    first command, the mkdir of the new address, leaves an address that later
    deploys take for complete.
   */
  lemma StoppedUploadLooksComplete(a: Fs, e: Entry, h: Hasher)
    requires WellFormed(e, h) && e.payload.Directory? && Tree(a) && IsDir(a, StoreDir(e)) && Target(e) !in a
    ensures var b := a[Target(e) := Dir];
            && Tree(b) && MkdirEffect(a, b, Target(e)) && Mid(a, b, e)
            && (CompleteBefore(b, e, h) <==> h.tree(map[]) == e.hash)
  {
    var b := a[Target(e) := Dir];
    assert Parent(Target(e)) == StoreDir(e);
    PutKeepsTree(a, Target(e), Dir);
    assert StoreFrame(a, b, e);
    StoreFrameIsMid(a, b, e, h);
    forall q | Target(e) <= q && q in b && b[q].File? ensures false {
      AncestorsAreDirs(a, Target(e), q);
    }
    TreeAtIs(b, Target(e), map[]);
  }

  // The whole manifest.

  /**
    One entry's link at some moment of a deploy that began at `a`: as it was, with
    what it led to in the store still there; absent; leading to content with the
    entry's hash; or a plain directory partly removed.
   */
  ghost predicate LinkState(a: Fs, b: Fs, e: Entry, h: Hasher) {
    || (SameBelow(a, b, e.link) && StoredTargetKept(a, b, e.link))
    || e.link !in b
    || (At(b, e.link) == Some(Link(Target(e))) && Resolved(b, e, h))
    || Shrinking(a, b, e.link)
  }

  ghost predicate StoredTargetKept(a: Fs, b: Fs, link: Path) {
    IsLink(a, link) && Slot(a[link].target) && a[link].target in a ==> SameBelow(a, b, a[link].target)
  }

  ghost predicate SlotsKept(a: Fs, b: Fs) {
    forall t {:trigger Slot(t)} :: Slot(t) && t in a ==> SameBelow(a, b, t)
  }

  /** The first `i` entries are in place; the rest are as at the beginning, `a`. */
  ghost predicate Progress(a: Fs, b: Fs, es: seq<Entry>, i: nat, h: Hasher)
    requires WellPlaced(es, h) && i <= |es|
  {
    && SlotsKept(a, b)
    && (forall j :: 0 <= j < i ==> At(b, es[j].link) == Some(Link(Target(es[j]))) && Resolved(b, es[j], h))
    && (forall j :: i <= j < |es| ==> SameBelow(a, b, es[j].link) && SameBelow(a, b, Target(es[j])))
  }

  lemma ResolvedSame(a: Fs, b: Fs, e: Entry, h: Hasher)
    requires SameBelow(a, b, Target(e))
    ensures Resolved(a, e, h) <==> Resolved(b, e, h)
  {
    assert At(a, Target(e)) == At(b, Target(e));
    TreeAtSame(a, b, Target(e));
  }

  /** At every moment of entry `i`'s deploy, every entry's link is in a proper state. */
  lemma LinkStatesDuring(a: Fs, m: Fs, b: Fs, es: seq<Entry>, i: nat, j: nat, h: Hasher)
    requires WellPlaced(es, h) && i < |es| && j < |es| && Progress(a, m, es, i, h) && Mid(m, b, es[i])
    requires CompleteBefore(a, es[i], h)
    ensures SlotsKept(a, b)
    ensures LinkState(a, b, es[j], h)
  {
    forall t | Slot(t) && t in a ensures SameBelow(a, b, t) {
      assert At(a, t) == At(m, t);
      SlotsAreKept(m, b, es[i], h, t);
    }
    assert StoredTargetKept(a, b, es[j].link);
    if i == j {
      ResolvedSame(a, m, es[i], h);
      assert At(a, Target(es[i])) == At(m, Target(es[i]));
      if At(b, es[i].link) == Some(Link(Target(es[i]))) && !SameBelow(m, b, es[i].link) {
        PlacedResolvesIff(m, b, es[i], h);
      }
    } else {
      OtherLinksAreKept(m, b, es[i], es[j], h);
      if j < i {
        OtherTargetIsKept(m, b, es[i], es[j], h);
      }
    }
  }

  lemma OtherTargetIsKept(m: Fs, b: Fs, e: Entry, f: Entry, h: Hasher)
    requires WellFormed(e, h) && WellFormed(f, h) && Apart(e, f) && Frame(m, b, e)
    ensures SameBelow(m, b, Target(f))
    ensures Resolved(m, f, h) <==> Resolved(b, f, h)
  {
    TargetsAreDistinct(e, f, h);
    TargetIsSlot(f, h);
    SlotsAreKept(m, b, e, h, Target(f));
    ResolvedSame(m, b, f, h);
  }

  lemma EntryDone(a: Fs, m: Fs, b: Fs, es: seq<Entry>, i: nat, h: Hasher)
    requires WellPlaced(es, h) && i < |es| && Progress(a, m, es, i, h) && Frame(m, b, es[i]) && SlotsKept(a, b)
    requires At(b, es[i].link) == Some(Link(Target(es[i]))) && Resolved(b, es[i], h)
    ensures Progress(a, b, es, i + 1, h)
  {
    forall j | 0 <= j < |es| && j != i
      ensures SameBelow(m, b, es[j].link) && SameBelow(m, b, Target(es[j])) && (Resolved(m, es[j], h) <==> Resolved(b, es[j], h))
    {
      OtherLinksAreKept(m, b, es[i], es[j], h);
      OtherTargetIsKept(m, b, es[i], es[j], h);
    }
  }

  /** What holds of every state of a deploy that began at `a`. */
  ghost predicate Proper(a: Fs, b: Fs, es: seq<Entry>, h: Hasher)
    requires WellPlaced(es, h)
  {
    StoreSound(b, h) && forall j :: 0 <= j < |es| ==> LinkState(a, b, es[j], h) && !IsDir(b, TmpFor(es[j].link))
  }

  ghost predicate AllProper(a: Fs, states: seq<Fs>, from: nat, es: seq<Entry>, h: Hasher)
    requires WellPlaced(es, h)
  {
    forall k :: from <= k < |states| ==> Proper(a, states[k], es, h)
  }

  /**
    What a deploy may start from. Only of directories is it asked that an upload to
    their address, if there was one, was completed.
   */
  ghost predicate Deployable(a: Fs, es: seq<Entry>, h: Hasher)
    requires WellPlaced(es, h)
  {
    && StoreSound(a, h)
    && forall j :: 0 <= j < |es| ==> !IsDir(a, TmpFor(es[j].link)) && (es[j].payload.Directory? ==> CompleteBefore(a, es[j], h))
  }

  /** Every entry's link leads to content with the entry's hash. */
  ghost predicate Deployed(b: Fs, es: seq<Entry>, h: Hasher) {
    forall j :: 0 <= j < |es| ==> At(b, es[j].link) == Some(Link(Target(es[j]))) && Resolved(b, es[j], h)
  }

  /** Making the store's own directory disturbs no entry. */
  lemma MkdirStore(a: Fs, b: Fs, es: seq<Entry>, h: Hasher)
    requires WellPlaced(es, h) && MkdirEffect(a, b, STORE)
    requires Deployable(a, es, h)
    ensures Progress(a, b, es, 0, h)
    ensures Proper(a, b, es, h)
  {
  }

  /** Sweeping the store after the last entry leaves every link and its content. */
  lemma GcLeavesEntries(a: Fs, m: Fs, b: Fs, es: seq<Entry>, active: seq<Path>, roots: set<Path>, h: Hasher)
    requires WellPlaced(es, h) && Tree(m) && Progress(a, m, es, |es|, h)
    requires |active| == |es| && forall i :: 0 <= i < |es| ==> active[i] == Target(es[i])
    requires (forall q :: q in roots ==> Gc.Stale(m, active, q)) && RmEffect(m, b, roots)
    requires Proper(a, m, es, h)
    ensures Deployed(b, es, h) && Proper(a, b, es, h)
  {
    forall j | 0 <= j < |es|
      ensures At(b, es[j].link) == Some(Link(Target(es[j]))) && Resolved(b, es[j], h) && !IsDir(b, TmpFor(es[j].link))
    {
      Gc.GcSparesActive(m, b, active, roots, j);
      GcLeavesEntry(m, b, es[j], roots, h);
    }
    RemovalKeepsStoreSound(m, b, roots, h);
  }

  lemma GcLeavesEntry(m: Fs, b: Fs, e: Entry, roots: set<Path>, h: Hasher)
    requires WellFormed(e, h) && RmEffect(m, b, roots) && SameBelow(m, b, Target(e))
    requires forall q :: q in roots ==> STORE <= q
    ensures At(b, e.link) == At(m, e.link)
    ensures Resolved(b, e, h) <==> Resolved(m, e, h)
    ensures !IsDir(m, TmpFor(e.link)) ==> !IsDir(b, TmpFor(e.link))
  {
    ResolvedSame(m, b, e, h);
    assert At(m, Target(e)) == At(b, Target(e));
    forall r | r in roots ensures !(r <= e.link) {
      assert STORE <= r;
    }
  }

  lemma RemovalKeepsStoreSound(m: Fs, b: Fs, roots: set<Path>, h: Hasher)
    requires StoreSound(m, h) && RmEffect(m, b, roots)
    ensures StoreSound(b, h)
  {
  }

  /**
    Deploys every entry, then sweeps the store. The contract speaks of every state
    on the way, so also of a deploy that stops anywhere.
   */
  method DeployManifest(sbox: Sandbox, es: seq<Entry>, ghost h: Hasher) returns (ok: bool, gc: Option<Gc.GcOutcome>)
    requires sbox.Valid() && WellPlaced(es, h)
    requires Deployable(sbox.fs, es, h)
    modifies sbox
    ensures sbox.Valid() && old(sbox.trace) <= sbox.trace
    ensures AllProper(old(sbox.fs), sbox.trace, old(sbox.Now()), es, h)
    ensures ok ==> Deployed(sbox.fs, es, h) && gc.Some?
    ensures gc == Some(Gc.NothingStale) || gc == Some(Gc.Removal(Done)) ==> OnlyNeeded(sbox.fs, es)
  {
    gc := None;
    ghost var a := sbox.fs;
    ok := sbox.Mkdir(STORE);
    forall k | old(sbox.Now()) <= k < |sbox.trace| ensures Proper(a, sbox.trace[k], es, h) {
      MkdirStore(a, sbox.trace[k], es, h);
    }
    MkdirStore(a, sbox.fs, es, h);
    if !ok {
      return;
    }
    var active: seq<Path>;
    ok, active := DeployEntries(sbox, es, h, a);
    if ok {
      var outcome := SweepStore(sbox, active, es, h, a);
      gc, ok := Some(outcome), !outcome.ListingLost? && outcome != Gc.Removal(Lost);
    }
  }

  /** All that is left at the top of the store is a prefix, as printed, of some target. */
  ghost predicate OnlyNeeded(b: Fs, es: seq<Entry>) {
    forall q :: Gc.Listed(b, q) ==> exists j :: 0 <= j < |es| && Gc.Print(q) <= Gc.Print(Target(es[j]))
  }

  method SweepStore(sbox: Sandbox, active: seq<Path>, ghost es: seq<Entry>, ghost h: Hasher, ghost a: Fs) returns (outcome: Gc.GcOutcome)
    requires sbox.Valid() && WellPlaced(es, h) && Progress(a, sbox.fs, es, |es|, h) && Proper(a, sbox.fs, es, h)
    requires |active| == |es| && forall i :: 0 <= i < |es| ==> active[i] == Target(es[i])
    modifies sbox
    ensures sbox.Valid() && old(sbox.trace) <= sbox.trace
    ensures AllProper(a, sbox.trace, old(sbox.Now()), es, h)
    ensures Deployed(sbox.fs, es, h)
    ensures outcome.NothingStale? || outcome == Gc.Removal(Done) ==> OnlyNeeded(sbox.fs, es)
  {
    ghost var m := sbox.fs;
    ghost var roots;
    outcome, roots := Gc.GcPlatform(sbox, active);
    forall k | old(sbox.Now()) <= k < |sbox.trace| ensures Proper(a, sbox.trace[k], es, h) && Deployed(sbox.trace[k], es, h) {
      GcLeavesEntries(a, m, sbox.trace[k], es, active, roots, h);
    }
  }

  /**
    Whatever state a deploy stopped in, another deploy with the same link names,
    of the same manifest or a newer one, can start from there once the directories
    it needs are absent or complete.
   */
  lemma StoppedDeployCanBeFollowed(a: Fs, b: Fs, es: seq<Entry>, later: seq<Entry>, h: Hasher)
    requires WellPlaced(es, h) && WellPlaced(later, h) && Proper(a, b, es, h)
    requires forall j :: 0 <= j < |later| ==> exists i :: 0 <= i < |es| && es[i].link == later[j].link
    ensures Deployable(b, later, h) <==>
            forall j :: 0 <= j < |later| && later[j].payload.Directory? ==> CompleteBefore(b, later[j], h)
  {
  }

  /** One entry after the other; the first failure ends the deploy. */
  method DeployEntries(sbox: Sandbox, es: seq<Entry>, ghost h: Hasher, ghost a: Fs) returns (ok: bool, active: seq<Path>)
    requires sbox.Valid() && WellPlaced(es, h) && Progress(a, sbox.fs, es, 0, h) && Proper(a, sbox.fs, es, h)
    requires Deployable(a, es, h)
    modifies sbox
    ensures sbox.Valid() && old(sbox.trace) <= sbox.trace
    ensures AllProper(a, sbox.trace, old(sbox.Now()), es, h)
    ensures ok ==> Progress(a, sbox.fs, es, |es|, h)
    ensures ok ==> |active| == |es| && forall i :: 0 <= i < |es| ==> active[i] == Target(es[i])
  {
    ghost var start := sbox.Now();
    active := [];
    for i := 0 to |es|
      invariant sbox.Valid() && old(sbox.trace) <= sbox.trace
      invariant start < |sbox.trace| && AllProper(a, sbox.trace, start, es, h)
      invariant Progress(a, sbox.fs, es, i, h)
      invariant |active| == i && forall j :: 0 <= j < i ==> active[j] == Target(es[j])
    {
      var target;
      ok, target := DeployNext(sbox, es, h, a, start, i);
      if !ok {
        return;
      }
      active := active + [target];
    }
    ok := true;
  }

  method DeployNext(sbox: Sandbox, es: seq<Entry>, ghost h: Hasher, ghost a: Fs, ghost start: nat, i: nat) returns (ok: bool, target: Path)
    requires sbox.Valid() && WellPlaced(es, h) && i < |es| && Progress(a, sbox.fs, es, i, h)
    requires start < |sbox.trace| && AllProper(a, sbox.trace, start, es, h) && Deployable(a, es, h)
    modifies sbox
    ensures sbox.Valid() && old(sbox.trace) <= sbox.trace && target == Target(es[i])
    ensures AllProper(a, sbox.trace, start, es, h)
    ensures ok ==> Progress(a, sbox.fs, es, i + 1, h)
  {
    ghost var m := sbox.fs;
    assert Proper(a, m, es, h);
    SoundStoreServesNextDeploy(a, es[i], h);
    SoundStoreServesNextDeploy(m, es[i], h);
    ResolvedSame(a, m, es[i], h);
    assert At(a, Target(es[i])) == At(m, Target(es[i]));
    ok, target := DeployEntry(sbox, es[i], h);
    forall k | old(sbox.Now()) <= k < |sbox.trace| ensures Proper(a, sbox.trace[k], es, h) && SlotsKept(a, sbox.trace[k]) {
      ProperDuring(a, m, sbox.trace[k], es, i, h);
    }
    if ok {
      EntryDone(a, m, sbox.fs, es, i, h);
    }
  }

  lemma ProperDuring(a: Fs, m: Fs, b: Fs, es: seq<Entry>, i: nat, h: Hasher)
    requires WellPlaced(es, h) && i < |es| && Progress(a, m, es, i, h) && Mid(m, b, es[i])
    requires CompleteBefore(a, es[i], h) && StoreSound(m, h)
    requires forall j :: 0 <= j < |es| ==> !IsDir(m, TmpFor(es[j].link))
    ensures Proper(a, b, es, h) && SlotsKept(a, b)
  {
    forall j | 0 <= j < |es| ensures LinkState(a, b, es[j], h) && SlotsKept(a, b) && !IsDir(b, TmpFor(es[j].link)) {
      LinkStatesDuring(a, m, b, es, i, j, h);
      TmpStaysFree(m, b, es[i], es[j], h);
    }
    StoreStaysSound(m, b, es[i], h);
  }
}
