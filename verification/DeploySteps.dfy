/**
  What the steps of one entry's deploy may change, and what they leave to the
  other entries, to the links, and to what the store already holds.
 */
module DeploySteps {
  import opened Wrappers
  import opened SandboxFs
  import opened PlatformLayout

  /** The content at the entry's address hashes to the entry's hash. */
  predicate Resolved(fs: Fs, e: Entry, h: Hasher) {
    var t := Target(e);
    && t in fs
    && match e.payload
       case OneFile(_) => fs[t].File? && h.file(fs[t].content) == e.hash
       case Directory(_) => fs[t].Dir? && h.tree(TreeAt(fs, t)) == e.hash
  }

  /** Whatever is at the address already is what the address says. */
  predicate CompleteBefore(fs: Fs, e: Entry, h: Hasher) {
    Target(e) in fs ==> Resolved(fs, e, h)
  }

  /** From `a` to `b` the address got the entry's content, or kept what it had. */
  ghost predicate Placed(a: Fs, b: Fs, e: Entry) {
    var t := Target(e);
    && t in b
    && if t in a then SameBelow(a, b, t)
       else
         match e.payload
         case OneFile(c) => b[t] == File(c)
         case Directory(tree) => b[t].Dir? && TreeAt(b, t) == tree
  }

  /** Content put in place is right exactly when nothing wrong was in its place before. */
  lemma PlacedResolvesIff(a: Fs, b: Fs, e: Entry, h: Hasher)
    requires WellFormed(e, h) && Placed(a, b, e)
    ensures Resolved(b, e, h) <==> CompleteBefore(a, e, h)
  {
    var t := Target(e);
    if t in a {
      assert At(a, t) == At(b, t);
      TreeAtSame(a, b, t);
    }
  }

  /** Changes on the way to the address. */
  ghost predicate StoreChange(a: Fs, b: Fs, e: Entry, q: Path) {
    || (q !in a && IsDir(b, q) && q <= StoreDir(e))
    || (e.payload.OneFile? && q == Scratch(e) && (q in b ==> b[q].File?))
    || (e.payload.OneFile? && Target(e) !in a && q == Target(e) && At(b, q) == Some(File(e.payload.content)))
    || (e.payload.Directory? && Target(e) !in a && Target(e) <= q && !IsLink(b, q))
  }

  ghost predicate StoreFrame(a: Fs, b: Fs, e: Entry) {
    forall q :: At(b, q) == At(a, q) || StoreChange(a, b, e, q)
  }

  function TmpFor(link: Path): Path
    requires link != []
  {
    ["tmp", "right-link-" + link[|link| - 1]]
  }

  /** The temporary link is named after the link. */
  lemma TmpIs(dir: Path, name: string)
    ensures TmpFor(dir + [name]) == ["tmp", "right-link-" + name]
  {
  }

  /** Changes on the way to the link. */
  ghost predicate LinkChange(a: Fs, b: Fs, link: Path, q: Path)
    requires link != []
  {
    || (q !in a && IsDir(b, q) && q <= Parent(link))
    || (q == TmpFor(link) && !IsDir(b, q))
    || link <= q
  }

  ghost predicate LinkFrame(a: Fs, b: Fs, link: Path)
    requires link != []
  {
    forall q :: At(b, q) == At(a, q) || LinkChange(a, b, link, q)
  }

  /** A directory that stood at the link's place, partly removed. */
  ghost predicate Shrinking(a: Fs, b: Fs, link: Path) {
    IsDir(a, link) && IsDir(b, link) && forall q :: link <= q ==> At(b, q) == At(a, q) || q !in b
  }

  /** The link as it was, absent, or leading to its target; or a directory on its way out. */
  ghost predicate LinkPhase(a: Fs, b: Fs, target: Path, link: Path) {
    || SameBelow(a, b, link)
    || link !in b
    || At(b, link) == Some(Link(target))
    || Shrinking(a, b, link)
  }

  ghost predicate LinkStep(a: Fs, b: Fs, target: Path, link: Path)
    requires link != []
  {
    LinkFrame(a, b, link) && LinkPhase(a, b, target, link)
  }

  // The commands of the link switch, one by one.

  lemma MkdirForLink(a: Fs, b: Fs, link: Path)
    requires link != [] && MkdirEffect(a, b, Parent(link))
    ensures LinkFrame(a, b, link) && SameBelow(a, b, link)
  {
  }

  lemma LnForLink(a: Fs, m: Fs, b: Fs, target: Path, link: Path)
    requires link != [] && link[0] != "tmp" && LinkFrame(a, m, link) && SameBelow(a, m, link)
    requires LnEffect(m, b, target, TmpFor(link))
    ensures LinkFrame(a, b, link) && SameBelow(a, b, link)
  {
  }

  lemma RmForLink(a: Fs, m: Fs, b: Fs, target: Path, link: Path)
    requires link != [] && Tree(m) && LinkFrame(a, m, link) && SameBelow(a, m, link)
    requires RmEffect(m, b, {link})
    ensures LinkStep(a, b, target, link)
    ensures link[0] != "tmp" ==> At(b, TmpFor(link)) == At(m, TmpFor(link))
  {
    forall q ensures At(b, q) == At(a, q) || LinkChange(a, b, link, q) {
      assert At(m, q) == At(a, q) || LinkChange(a, m, link, q);
    }
    if link in b && !IsDir(m, link) {
      forall q | link <= q ensures At(a, q) == At(b, q) {
        if q in m && q != link {
          AncestorsAreDirs(m, link, q);
        }
      }
    }
  }

  lemma MvForLink(a: Fs, m: Fs, b: Fs, target: Path, link: Path)
    requires link != [] && link[0] != "tmp" && LinkStep(a, m, target, link)
    requires At(m, TmpFor(link)) == Some(Link(target)) && MvEffect(m, b, TmpFor(link), link)
    ensures LinkStep(a, b, target, link)
  {
  }

  // The commands that fill the address, one by one.

  lemma MkdirForFile(a: Fs, b: Fs, e: Entry)
    requires MkdirEffect(a, b, StoreDir(e))
    ensures StoreFrame(a, b, e)
  {
  }

  lemma UploadForFile(a: Fs, m: Fs, b: Fs, e: Entry)
    requires e.payload.OneFile? && StoreFrame(a, m, e) && UploadEffect(m, b, Scratch(e))
    ensures StoreFrame(a, b, e)
  {
  }

  lemma MvForFile(a: Fs, m: Fs, b: Fs, e: Entry)
    requires e.payload.OneFile? && StoreFrame(a, m, e) && Target(e) !in a
    requires At(m, Scratch(e)) == Some(File(e.payload.content)) && MvEffect(m, b, Scratch(e), Target(e))
    ensures StoreFrame(a, b, e)
  {
  }

  /** Below a new address there are only directories so far. */
  ghost predicate Bare(fs: Fs, t: Path) {
    forall q :: t <= q && q in fs ==> fs[q].Dir?
  }

  lemma MkdirForDirectory(a: Fs, m: Fs, b: Fs, e: Entry, rel: Path)
    requires e.payload.Directory? && StoreFrame(a, m, e) && MkdirEffect(m, b, Target(e) + rel)
    requires Target(e) in a ==> Tree(m) && Target(e) in m && rel == []
    ensures StoreFrame(a, b, e)
    ensures Bare(m, Target(e)) ==> Bare(b, Target(e))
  {
    var t := Target(e);
    if Bare(m, t) {
      forall q | t <= q && q in b ensures b[q].Dir? {
        assert At(b, q) == At(m, q) || IsDir(b, q);
      }
    }
    forall q ensures At(b, q) == At(a, q) || StoreChange(a, b, e, q) {
      assert At(m, q) == At(a, q) || StoreChange(a, m, e, q);
      if At(b, q) != At(m, q) {
        PrefixesAreComparable(q, t, t + rel);
        if q <= t && q != t {
          assert q == t[..|q|];
          assert StoreDir(e) == t[..|t| - 1];
          assert q <= StoreDir(e);
        }
        if t in a && q != t {
          AncestorsAreDirs(m, q, t);
        }
      }
    }
  }

  lemma UploadForDirectory(a: Fs, m: Fs, b: Fs, e: Entry)
    requires e.payload.Directory? && StoreFrame(a, m, e) && Target(e) !in a
    requires UploadAllEffect(m, b, Target(e), e.payload.tree)
    ensures StoreFrame(a, b, e)
  {
  }

  /** A finished upload has put exactly the host's tree at the new address. */
  lemma UploadedTree(m: Fs, b: Fs, e: Entry)
    requires e.payload.Directory? && [] !in e.payload.tree && IsDir(m, Target(e)) && Bare(m, Target(e))
    requires UploadAllEffect(m, b, Target(e), e.payload.tree)
    requires forall rel :: rel in e.payload.tree ==> At(b, Target(e) + rel) == Some(File(e.payload.tree[rel]))
    ensures IsDir(b, Target(e)) && TreeAt(b, Target(e)) == e.payload.tree
  {
    var t := Target(e);
    assert At(b, t) == At(m, t) by { assert t[|t|..] == []; }
    forall q | t <= q && q in b && b[q].File? ensures q[|t|..] in e.payload.tree {
      assert At(b, q) != At(m, q);
    }
    TreeAtIs(b, t, e.payload.tree);
  }

  // The two halves together.

  ghost predicate Frame(a: Fs, b: Fs, e: Entry)
    requires e.link != []
  {
    forall q :: At(b, q) == At(a, q) || StoreChange(a, b, e, q) || LinkChange(a, b, e.link, q)
  }

  /** Any state of one entry's deploy that began at `a`. */
  ghost predicate Mid(a: Fs, b: Fs, e: Entry)
    requires e.link != []
  {
    && Frame(a, b, e)
    && LinkPhase(a, b, Target(e), e.link)
    && (At(b, e.link) == Some(Link(Target(e))) && !SameBelow(a, b, e.link) ==> Placed(a, b, e))
  }

  lemma StoreChangeIsNearStore(a: Fs, b: Fs, e: Entry, h: Hasher, q: Path)
    requires WellFormed(e, h) && StoreChange(a, b, e, q)
    ensures Comparable(q, STORE)
    ensures q == [] || q[0] == "sandbox"
  {
  }

  lemma BelowNearStore(p: Path, q: Path)
    requires p <= q && Comparable(q, STORE)
    ensures Comparable(p, STORE)
  {
  }

  lemma TmpIsNoOnesElse(link: Path)
    requires link != []
    ensures "tmp" != "sandbox" && STORE[0] == "sandbox" && TmpFor(link)[0] == "tmp"
  {
  }

  /** Filling the address never touches what the link switch touches. */
  lemma StoreLeavesLinks(a: Fs, b: Fs, e: Entry, h: Hasher)
    requires WellFormed(e, h) && StoreFrame(a, b, e)
    ensures SameBelow(a, b, e.link)
    ensures At(a, TmpFor(e.link)) == At(b, TmpFor(e.link))
  {
    forall q | e.link <= q ensures At(a, q) == At(b, q) {
      if At(a, q) != At(b, q) {
        StoreChangeIsNearStore(a, b, e, h, q);
        BelowNearStore(e.link, q);
      }
    }
    var tmp := TmpFor(e.link);
    if At(a, tmp) != At(b, tmp) {
      StoreChangeIsNearStore(a, b, e, h, tmp);
      TmpIsNoOnesElse(e.link);
    }
  }

  lemma LinkChangeIsOffStore(a: Fs, b: Fs, e: Entry, h: Hasher, q: Path)
    requires WellFormed(e, h) && STORE <= q
    ensures !LinkChange(a, b, e.link, q)
  {
  }

  lemma StoreFrameIsMid(a: Fs, b: Fs, e: Entry, h: Hasher)
    requires WellFormed(e, h) && StoreFrame(a, b, e)
    ensures Mid(a, b, e)
  {
  }

  /** Filling the address, then switching the link. */
  lemma HalvesCompose(a: Fs, s: Fs, b: Fs, e: Entry, h: Hasher)
    requires WellFormed(e, h) && StoreFrame(a, s, e) && Placed(a, s, e) && LinkStep(s, b, Target(e), e.link)
    ensures Mid(a, b, e) && Placed(a, b, e)
  {
    var t := Target(e);
    StoreLeavesLinks(a, s, e, h);
    forall q ensures At(b, q) == At(a, q) || StoreChange(a, b, e, q) || LinkChange(a, b, e.link, q) {
      assert At(s, q) == At(a, q) || StoreChange(a, s, e, q);
      assert At(b, q) == At(s, q) || LinkChange(s, b, e.link, q);
      if At(b, q) != At(s, q) && At(s, q) != At(a, q) {
        StoreThenLinkChange(a, s, b, e, h, q);
      }
    }
    forall q | t <= q ensures At(b, q) == At(s, q) {
      assert STORE <= t <= q;
      LinkChangeIsOffStore(s, b, e, h, q);
    }
    TreeAtSame(s, b, t);
    assert At(b, t) == At(s, t);
  }

  lemma StoreThenLinkChange(a: Fs, s: Fs, b: Fs, e: Entry, h: Hasher, q: Path)
    requires WellFormed(e, h) && StoreChange(a, s, e, q) && At(s, q) != At(a, q)
    ensures !LinkChange(s, b, e.link, q)
  {
    StoreChangeIsNearStore(a, s, e, h, q);
    if STORE <= q {
      LinkChangeIsOffStore(s, b, e, h, q);
    } else {
      TmpIsNoOnesElse(e.link);
      if e.link <= q {
        BelowNearStore(e.link, q);
      }
      assert STORE <= Target(e) && STORE <= Scratch(e);
      assert q in s;
    }
  }

  // What one entry's deploy leaves to the others.

  /** The places of addressed content. */
  predicate Slot(t: Path) {
    && STORE <= t
    && ((|t| == 3 && AddressShaped(t[2])) || (|t| == 4 && t[2] == "skills" && AddressShaped(t[3])))
  }

  lemma TargetIsSlot(e: Entry, h: Hasher)
    requires WellFormed(e, h)
    ensures Slot(Target(e))
  {
  }

  /** No two entries share an address. */
  lemma TargetsAreDistinct(e: Entry, f: Entry, h: Hasher)
    requires WellFormed(e, h) && WellFormed(f, h) && Apart(e, f)
    ensures Target(e) != Target(f)
  {
    var s, t := PlatformPath(e.name, e.hash), PlatformPath(f.name, f.hash);
    assert Target(e)[|Target(e)| - 1] == s && Target(f)[|Target(f)| - 1] == t;
    assert s[..|s| - 9] == e.name && t[..|t| - 9] == f.name;
  }

  lemma StoreChangeMissesSlots(a: Fs, b: Fs, e: Entry, h: Hasher, t: Path, q: Path)
    requires WellFormed(e, h) && Slot(t) && t <= q && (t in a || t != Target(e))
    ensures !StoreChange(a, b, e, q)
  {
    assert t[2] == q[2];
    assert |t| == |q| ==> t == q;
    assert e.payload.OneFile? ==> |Target(e)| == 3 && |Scratch(e)| == 3;
    if e.payload.Directory? && Target(e) <= q {
      PrefixesAreComparable(t, Target(e), q);
      TargetIsSlot(e, h);
      assert |Target(e)| == 4 && Target(e)[2] == "skills";
      assert |t| == 4 ==> t == Target(e);
    }
  }

  /** What an address holds stays there, whatever entry is deployed. */
  lemma SlotsAreKept(a: Fs, b: Fs, e: Entry, h: Hasher, t: Path)
    requires WellFormed(e, h) && Frame(a, b, e) && Slot(t) && (t in a || t != Target(e))
    ensures SameBelow(a, b, t)
  {
    forall q | t <= q ensures At(a, q) == At(b, q) {
      StoreChangeMissesSlots(a, b, e, h, t, q);
      LinkChangeIsOffStore(a, b, e, h, q);
    }
  }

  lemma OtherLinksAreKept(a: Fs, b: Fs, e: Entry, f: Entry, h: Hasher)
    requires WellFormed(e, h) && WellFormed(f, h) && Apart(e, f) && Frame(a, b, e)
    ensures SameBelow(a, b, f.link)
  {
  }

  /** The temporary links never become directories. */
  lemma TmpStaysFree(a: Fs, b: Fs, e: Entry, f: Entry, h: Hasher)
    requires WellFormed(e, h) && WellFormed(f, h) && Frame(a, b, e) && !IsDir(a, TmpFor(f.link))
    ensures !IsDir(b, TmpFor(f.link))
  {
    var q := TmpFor(f.link);
    TmpIsNoOnesElse(f.link);
    if StoreChange(a, b, e, q) {
      StoreChangeIsNearStore(a, b, e, h, q);
    }
  }

  /** At an address there is never a link, and a file at an address holds what its name says. */
  ghost predicate StoreSound(fs: Fs, h: Hasher) {
    forall q {:trigger Slot(q)} :: Slot(q) && q in fs ==> SoundAt(fs, q, h)
  }

  predicate SoundAt(fs: Fs, q: Path, h: Hasher)
    requires Slot(q) && q in fs
  {
    if |q| == 3 then fs[q].File? && h.file(fs[q].content) == q[2][|q[2]| - 8..] else !fs[q].Link?
  }

  /** A deploy may stop after any step without leaving a wrong file at an address. */
  lemma StoreStaysSound(a: Fs, b: Fs, e: Entry, h: Hasher)
    requires WellFormed(e, h) && StoreSound(a, h) && Frame(a, b, e)
    ensures StoreSound(b, h)
  {
    forall q | Slot(q) && q in b ensures SoundAt(b, q, h) {
      LinkChangeIsOffStore(a, b, e, h, q);
      if q != Target(e) || q in a {
        StoreChangeMissesSlots(a, b, e, h, q, q);
        assert At(b, q) == At(a, q);
      } else {
        NewAddressIsSound(a, b, e, h);
      }
    }
  }

  lemma NewAddressIsSound(a: Fs, b: Fs, e: Entry, h: Hasher)
    requires WellFormed(e, h) && Target(e) !in a && Target(e) in b && StoreChange(a, b, e, Target(e))
    ensures Slot(Target(e)) && SoundAt(b, Target(e), h)
  {
  }

  /** So a later deploy may skip any file it finds, and never finds a link. */
  lemma SoundStoreServesNextDeploy(fs: Fs, e: Entry, h: Hasher)
    requires WellFormed(e, h) && StoreSound(fs, h)
    ensures !IsLink(fs, Target(e))
    ensures e.payload.OneFile? ==> CompleteBefore(fs, e, h)
  {
    var s := PlatformPath(e.name, e.hash);
    TargetIsSlot(e, h);
    assert Target(e)[|Target(e)| - 1] == s && s[|s| - 8..] == e.hash;
    assert e.payload.OneFile? ==> |Target(e)| == 3;
  }
}
