/**
  Removing from the store what no link needs. The choice is made on printed paths,
  by string prefix; the removal takes whole subtrees.
 */
module PlatformGc {
  import opened SandboxFs
  import opened PlatformLayout

  /** The path as the shell prints it. */
  function Print(p: Path): string {
    if p == [] then "" else Print(p[..|p| - 1]) + "/" + p[|p| - 1]
  }

  lemma {:induction false} PrintKeepsPrefix(p: Path, q: Path)
    requires p <= q
    ensures Print(p) <= Print(q)
    decreases |q|
  {
    if p != q {
      PrintKeepsPrefix(p, q[..|q| - 1]);
    } else {
      assert p == q;
    }
  }

  /** What `find -mindepth 1 -maxdepth 2` lists. */
  predicate Listed(fs: Fs, q: Path) {
    q in fs && STORE <= q && 1 <= |q| - |STORE| <= 2
  }

  /** The printed path is neither an active target nor a proper string prefix of one. */
  predicate Unneeded(active: seq<Path>, q: Path) {
    forall i :: 0 <= i < |active| ==>
      && Print(active[i]) != Print(q)
      && !(Print(q) <= Print(active[i]) && |Print(active[i])| > |Print(q)|)
  }

  ghost predicate Stale(fs: Fs, active: seq<Path>, q: Path) {
    Listed(fs, q) && Unneeded(active, q)
  }

  /** A path is needed exactly if its printed form begins that of an active target, at a path boundary or not. */
  lemma UnneededIff(active: seq<Path>, q: Path)
    ensures Unneeded(active, q) <==> forall i :: 0 <= i < |active| ==> !(Print(q) <= Print(active[i]))
  {
  }

  /** Nothing on the way to an active target is stale. */
  lemma AncestorsAreNeeded(active: seq<Path>, i: nat, q: Path)
    requires i < |active| && q <= active[i]
    ensures !Unneeded(active, q)
  {
    PrintKeepsPrefix(q, active[i]);
  }

  /** A target the removal cannot reach into: listed as deep as the listing goes, or a file. */
  predicate OutOfReach(fs: Fs, t: Path) {
    |t| == |STORE| + 2 || (t in fs && !fs[t].Dir?)
  }

  /** No active target, nothing above it and nothing in it is at or below a stale path. */
  lemma StaleMissesActive(fs: Fs, active: seq<Path>, i: nat, q: Path)
    requires Tree(fs) && i < |active| && OutOfReach(fs, active[i]) && Stale(fs, active, q)
    ensures !Comparable(q, active[i])
  {
    var t := active[i];
    if q <= t {
      AncestorsAreNeeded(active, i, q);
    } else if t <= q {
      AncestorsAreDirs(fs, t, q);
    }
  }

  /** A directory kept right below the store would lose its contents: exactly then a target is not safe. */
  lemma TargetIsSafeIff(fs: Fs, t: Path)
    requires Tree(fs) && t in fs && STORE <= t && 1 <= |t| - |STORE| <= 2
    ensures (forall q :: Stale(fs, [t], q) ==> !Comparable(q, t)) <==>
            |t| == |STORE| + 2 || forall c :: t + [c] !in fs
  {
    if |t| == |STORE| + 1 {
      forall c | t + [c] in fs ensures Stale(fs, [t], t + [c]) && Comparable(t + [c], t) {
        var q := t + [c];
        assert q[..|q| - 1] == t;
        assert Print(q) == Print(t) + "/" + c;
        assert |Print(q)| > |Print(t)|;
        assert STORE <= t <= q;
      }
    }
    forall q | Stale(fs, [t], q) && Comparable(q, t)
      ensures |t| == |STORE| + 1 && exists c :: t + [c] in fs
    {
      if q <= t {
        AncestorsAreNeeded([t], 0, q);
      } else {
        assert q == t + [q[|t|]];
      }
    }
  }

  /** Removing any part of what is stale leaves each active target with all its contents, and the way to it. */
  lemma GcSparesActive(a: Fs, b: Fs, active: seq<Path>, roots: set<Path>, i: nat)
    requires Tree(a) && i < |active| && OutOfReach(a, active[i])
    requires (forall q :: q in roots ==> Stale(a, active, q)) && RmEffect(a, b, roots)
    ensures SameBelow(a, b, active[i])
    ensures forall q :: q <= active[i] ==> At(a, q) == At(b, q)
  {
    var t := active[i];
    forall q | Comparable(q, t) ensures At(a, q) == At(b, q) {
      if r :| r in roots && r <= q {
        StaleMissesActive(a, active, i, r);
        if t <= q {
          PrefixesAreComparable(r, t, q);
        }
      }
    }
  }

  lemma PrefixAcross(x: string, y: string, base: string)
    ensures base + x <= base + y ==> x <= y
  {
    if base + x <= base + y {
      assert (base + x)[|base|..] == x && (base + y)[|base|..] == y;
      assert (base + y)[..|base + x|] == base + x;
      assert y[..|x|] == ((base + y)[..|base + x|])[|base|..];
    }
  }

  /** One addressed name extends another only if they are equal or the names themselves extend one another. */
  lemma AddressPrefix(e: Entry, f: Entry, old_: string)
    requires |old_| == 8 && |f.hash| == 8
    requires PlatformPath(e.name, old_) <= PlatformPath(f.name, f.hash)
    ensures e.name + "." <= f.name || (e.name == f.name && old_ == f.hash)
  {
    var x, y := PlatformPath(e.name, old_), PlatformPath(f.name, f.hash);
    assert x == y[..|x|];
    assert x[..|e.name| + 1] == e.name + ".";
    assert y[..|e.name| + 1] == e.name + ".";
    if |e.name| < |f.name| {
      assert y[..|f.name|] == f.name;
      assert f.name[..|e.name| + 1] == e.name + ".";
    } else {
      assert x == y && |e.name| == |f.name|;
      assert x[..|e.name|] == e.name && y[..|f.name|] == f.name;
      assert x[|e.name| + 1..] == old_ && y[|f.name| + 1..] == f.hash;
    }
  }

  /** Addressed names printed in different directories, `k` below the other, never extend one another. */
  lemma SlashMatters(s: string, k: string, x: string, y: string)
    requires NoSlash(x) && NoSlash(y) && 0 < |k| <= |x| && k[|k| - 1] == '/'
    ensures !(s + x <= s + k + y) && !(s + k + x <= s + y)
  {
    PrefixAcross(x, k + y, s);
    PrefixAcross(k + x, y, s);
    assert s + (k + y) == s + k + y && s + (k + x) == s + k + x;
    assert (k + y)[|k| - 1] == '/' && (k + x)[|k| - 1] == '/';
  }

  lemma OldVersionIsUnneeded(e: Entry, f: Entry, old_: string, h: Hasher)
    requires WellFormed(e, h) && WellFormed(f, h) && |old_| == 8
    requires NoSlash(PlatformPath(e.name, old_)) && NoSlash(PlatformPath(f.name, f.hash))
    requires Print(StoreDir(e) + [PlatformPath(e.name, old_)]) <= Print(Target(f))
    ensures e.prefix == f.prefix && PlatformPath(e.name, old_) <= PlatformPath(f.name, f.hash)
  {
    var x, y := PlatformPath(e.name, old_), PlatformPath(f.name, f.hash);
    var s, k := Print(STORE) + "/", "skills/";
    PrintAddress(e, x, h);
    PrintAddress(f, y, h);
    SlashMatters(s, k, x, y);
    PrefixAcross(x, y, s);
    PrefixAcross(x, y, s + k);
  }

  /** Every earlier version of a managed entry is stale, so a sweep that succeeds removes it. */
  lemma OldVersionIsStale(fs: Fs, es: seq<Entry>, active: seq<Path>, i: nat, old_: string, h: Hasher)
    requires WellPlaced(es, h) && CleanNames(es) && i < |es|
    requires |active| == |es| && forall j :: 0 <= j < |es| ==> active[j] == Target(es[j])
    requires |old_| == 8 && NoSlash(old_) && old_ != es[i].hash
    requires StoreDir(es[i]) + [PlatformPath(es[i].name, old_)] in fs
    ensures Stale(fs, active, StoreDir(es[i]) + [PlatformPath(es[i].name, old_)])
  {
    var e := es[i];
    var q := StoreDir(e) + [PlatformPath(e.name, old_)];
    assert STORE <= q;
    forall j | 0 <= j < |active| ensures !(Print(q) <= Print(active[j])) {
      assert i != j ==> Apart(e, es[j]);
      if Print(q) <= Print(active[j]) {
        OldVersionIsUnneeded(e, es[j], old_, h);
        AddressPrefix(e, es[j], old_);
      }
    }
  }

  /** Where an entry's content goes, written out: below the store, under its name and hash. */
  lemma AddressIs(e: Entry, h: Hasher)
    requires WellFormed(e, h)
    ensures e.payload.OneFile? ==> Target(e) == ["sandbox", ".platform", e.name + "." + h.file(e.payload.content)]
    ensures e.payload.Directory? ==> Target(e) == ["sandbox", ".platform", "skills", e.name + "." + h.tree(e.payload.tree)]
    ensures e.payload.OneFile? ==> Scratch(e) == ["sandbox", ".platform", e.name]
  {
  }

  /** So a file that was uploaded and never got its address stays through every sweep. */
  lemma ScratchIsNeverSwept(fs: Fs, active: seq<Path>, i: nat, e: Entry)
    requires i < |active| && active[i] == Target(e)
    ensures !Stale(fs, active, Scratch(e))
  {
    var d := StoreDir(e);
    assert Scratch(e)[..|d|] == d && Target(e)[..|d|] == d;
    assert Print(Target(e)) == Print(Scratch(e)) + ("." + e.hash);
  }

  lemma PrintAddress(e: Entry, x: string, h: Hasher)
    requires WellFormed(e, h)
    ensures e.prefix == [] ==> Print(StoreDir(e) + [x]) == Print(STORE) + "/" + x
    ensures e.prefix != [] ==> Print(StoreDir(e) + [x]) == Print(STORE) + "/" + "skills/" + x
  {
    var d := StoreDir(e);
    assert (d + [x])[..|d|] == d;
    if e.prefix == [] {
      assert d == STORE;
    } else {
      assert d[..|d| - 1] == STORE && d[|d| - 1] == "skills";
      assert Print(d) == Print(STORE) + "/" + "skills";
      assert "skills" + "/" == "skills/";
    }
  }

  /** How a collection ended; only a lost connection is an error to the caller. */
  datatype GcOutcome = ListingLost | ListingFailed | NothingStale | Removal(exit: Exit)

  /** Lists the store in any order. */
  method Find(sbox: Sandbox) returns (lines: seq<Path>)
    ensures forall q :: q in lines <==> Listed(sbox.fs, q)
  {
    var left := set q | q in sbox.fs && Listed(sbox.fs, q);
    lines := [];
    while left != {}
      invariant forall q :: Listed(sbox.fs, q) <==> q in left || q in lines
      decreases left
    {
      var q :| q in left;
      left := left - {q};
      lines := lines + [q];
    }
  }

  /** Best effort: every failure but a lost connection is only logged. */
  method GcPlatform(sbox: Sandbox, active: seq<Path>) returns (outcome: GcOutcome, ghost roots: set<Path>)
    requires sbox.Valid()
    modifies sbox
    ensures sbox.Valid() && old(sbox.trace) <= sbox.trace
    ensures forall q :: q in roots ==> Stale(old(sbox.fs), active, q)
    ensures forall k :: old(sbox.Now()) <= k < |sbox.trace| ==> RmEffect(old(sbox.fs), sbox.trace[k], roots)
    ensures outcome.NothingStale? || outcome == Removal(Done) ==>
              forall q :: Listed(sbox.fs, q) ==> Listed(old(sbox.fs), q) && !Unneeded(active, q)
  {
    roots := {};
    var listing: Exit := *;
    if !listing.Done? {
      outcome := if listing.Lost? then ListingLost else ListingFailed;
      return;
    }
    ghost var was := sbox.fs;
    var lines := Find(sbox);
    var stale: set<Path> := {};
    for n := 0 to |lines|
      invariant forall q :: q in stale <==> q in lines[..n] && Unneeded(active, q)
    {
      var q := lines[n];
      assert lines[..n + 1] == lines[..n] + [q];
      if Unneeded(active, q) {
        stale := stale + {q};
      }
    }
    assert lines[..|lines|] == lines;
    outcome := NothingStale;
    if stale != {} {
      roots := stale;
      assert forall q :: q in stale ==> q in lines && Listed(was, q);
      var exit := sbox.RmRf(stale);
      outcome := Removal(exit);
    }
    forall q | (outcome.NothingStale? || outcome == Removal(Done)) && Listed(sbox.fs, q)
      ensures Listed(was, q) && !Unneeded(active, q)
    {
      assert At(sbox.fs, q) == At(was, q);
      assert q in lines;
      assert q in roots ==> q <= q;
    }
  }
}
