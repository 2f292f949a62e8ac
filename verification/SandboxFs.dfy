/**
  The sandbox file system as the deploy sees it, and the commands the deploy runs
  there. Every command may fail, at any point of its work; `trace` keeps every
  state the file system went through.
 */
module SandboxFs {
  import opened Wrappers

  /** An absolute path as its components; the root is []. */
  type Path = seq<string>
  type Content = seq<nat>

  datatype Node = File(content: Content) | Dir | Link(target: Path)

  type Fs = map<Path, Node>

  function At(fs: Fs, p: Path): Option<Node> {
    if p in fs then Some(fs[p]) else None
  }

  predicate IsDir(fs: Fs, p: Path) {
    p in fs && fs[p].Dir?
  }

  predicate IsLink(fs: Fs, p: Path) {
    p in fs && fs[p].Link?
  }

  function Parent(p: Path): Path
    requires p != []
  {
    p[..|p| - 1]
  }

  /** Everything hangs from the root by directories. */
  ghost predicate Tree(fs: Fs) {
    IsDir(fs, []) && forall q {:trigger Parent(q)} :: q in fs && q != [] ==> IsDir(fs, Parent(q))
  }

  lemma {:induction false} AncestorsAreDirs(fs: Fs, p: Path, q: Path)
    requires Tree(fs) && q in fs && p <= q && p != q
    ensures IsDir(fs, p)
    decreases |q|
  {
    if p != Parent(q) {
      AncestorsAreDirs(fs, p, Parent(q));
    }
  }

  /** The two file systems agree at `p` and below it. */
  ghost predicate SameBelow(a: Fs, b: Fs, p: Path) {
    forall q :: p <= q ==> At(a, q) == At(b, q)
  }

  predicate Comparable(p: Path, q: Path) {
    p <= q || q <= p
  }

  lemma PrefixesAreComparable(p: Path, q: Path, r: Path)
    requires p <= r && q <= r
    ensures Comparable(p, q)
  {
  }

  lemma SuffixesAreDistinct(t: Path)
    ensures forall p: Path, q: Path :: t <= p && t <= q && p[|t|..] == q[|t|..] ==> p == q
  {
  }

  /** The files below `t`, by path relative to `t`. */
  function TreeAt(fs: Fs, t: Path): map<Path, Content> {
    SuffixesAreDistinct(t);
    map q | q in fs && t <= q && fs[q].File? :: q[|t|..] := fs[q].content
  }

  lemma TreeAtMember(fs: Fs, t: Path, rel: Path)
    ensures rel in TreeAt(fs, t) <==> t + rel in fs && fs[t + rel].File?
    ensures rel in TreeAt(fs, t) ==> TreeAt(fs, t)[rel] == fs[t + rel].content
  {
    assert (t + rel)[|t|..] == rel;
    forall q | t <= q && q[|t|..] == rel ensures q == t + rel {
    }
  }

  lemma TreeAtSame(a: Fs, b: Fs, t: Path)
    requires SameBelow(a, b, t)
    ensures TreeAt(a, t) == TreeAt(b, t)
  {
    forall rel ensures (rel in TreeAt(a, t) <==> rel in TreeAt(b, t)) && (rel in TreeAt(a, t) ==> TreeAt(a, t)[rel] == TreeAt(b, t)[rel]) {
      TreeAtMember(a, t, rel);
      TreeAtMember(b, t, rel);
      assert At(a, t + rel) == At(b, t + rel);
    }
  }

  lemma TreeAtIs(fs: Fs, t: Path, tree: map<Path, Content>)
    requires forall rel :: rel in tree ==> At(fs, t + rel) == Some(File(tree[rel]))
    requires forall q :: t <= q && q in fs && fs[q].File? ==> q[|t|..] in tree
    ensures TreeAt(fs, t) == tree
  {
    forall rel ensures (rel in TreeAt(fs, t) <==> rel in tree) && (rel in tree ==> TreeAt(fs, t)[rel] == tree[rel]) {
      TreeAtMember(fs, t, rel);
      assert (t + rel)[|t|..] == rel;
    }
  }

  /** What each command may have done to the file system by the time it is looked at. */
  ghost predicate MkdirEffect(a: Fs, b: Fs, p: Path) {
    forall q :: At(b, q) == At(a, q) || (q <= p && q !in a && IsDir(b, q))
  }

  ghost predicate UploadEffect(a: Fs, b: Fs, p: Path) {
    && (forall q :: q != p ==> At(b, q) == At(a, q))
    && (At(b, p) == At(a, p) || (p in b && b[p].File?))
  }

  ghost predicate LnEffect(a: Fs, b: Fs, target: Path, p: Path) {
    && (forall q :: q != p ==> At(b, q) == At(a, q))
    && (At(b, p) == At(a, p) || p !in b || b[p] == Link(target))
  }

  ghost predicate RmEffect(a: Fs, b: Fs, roots: set<Path>) {
    forall q :: At(b, q) == At(a, q) || (q !in b && exists r :: r in roots && r <= q)
  }

  ghost predicate MvEffect(a: Fs, b: Fs, src: Path, dst: Path) {
    && (forall q :: q != src && q != dst ==> At(b, q) == At(a, q))
    && (At(b, dst) == At(a, dst) || (At(b, dst) == At(a, src) && !IsDir(a, dst)))
    && (At(b, src) == At(a, src) || (src !in b && At(b, dst) == At(a, src)))
  }

  /** Any of several uploads may have left something at its place. */
  ghost predicate UploadAllEffect(a: Fs, b: Fs, base: Path, tree: map<Path, Content>) {
    forall q :: At(b, q) == At(a, q) || (base <= q && q[|base|..] in tree && q in b && b[q].File?)
  }

  /** How a command ended; `Lost` is a failure of the connection rather than of the command. */
  datatype Exit = Done | NonZero | Lost

  class Sandbox {
    var fs: Fs
    ghost var trace: seq<Fs>

    ghost predicate Valid()
      reads this
    {
      Tree(fs) && trace != [] && trace[|trace| - 1] == fs
    }

    /** Where the part of the trace that starts at the present state begins. */
    ghost function Now(): nat
      reads this
      requires Valid()
    {
      |trace| - 1
    }

    constructor (fs: Fs)
      requires Tree(fs)
      ensures Valid() && this.fs == fs
    {
      this.fs := fs;
      trace := [fs];
    }

    method Change(to: Fs)
      requires Valid() && Tree(to)
      modifies this
      ensures Valid() && fs == to && trace == old(trace) + [to]
    {
      fs := to;
      trace := trace + [to];
    }

    /** `mkdir -p`: one directory at a time, from the root down. */
    method Mkdir(p: Path) returns (ok: bool)
      requires Valid()
      modifies this
      ensures Valid() && old(trace) <= trace
      ensures forall k :: old(Now()) <= k < |trace| ==> MkdirEffect(old(fs), trace[k], p)
      ensures ok ==> IsDir(fs, p)
    {
      ghost var was := fs;
      for n := 0 to |p|
        invariant Valid() && old(trace) <= trace
        invariant forall k :: old(Now()) <= k < |trace| ==> MkdirEffect(was, trace[k], p)
        invariant IsDir(fs, p[..n])
      {
        var q := p[..n + 1];
        assert Parent(q) == p[..n];
        if q in fs {
          if !fs[q].Dir? {
            return false;
          }
        } else {
          var failed: bool := *;
          if failed {
            return false;
          }
          ghost var before := fs;
          Change(fs[q := Dir]);
          assert MkdirEffect(was, before, p);
          assert q !in was;
        }
      }
      assert p[..|p|] == p;
      ok := true;
    }

    /** Uploads one file; until it has succeeded the file there may be anything. */
    method Upload(p: Path, content: Content) returns (ok: bool)
      requires Valid() && p != []
      modifies this
      ensures Valid() && old(trace) <= trace
      ensures forall k :: old(Now()) <= k < |trace| ==> UploadEffect(old(fs), trace[k], p)
      ensures ok ==> At(fs, p) == Some(File(content))
    {
      ok := IsDir(fs, Parent(p)) && !IsDir(fs, p);
      if ok {
        var part: Content := *;
        PutKeepsTree(fs, p, File(part));
        PutKeepsTree(fs, p, File(content));
        var partial, whole := fs[p := File(part)], fs[p := File(content)];
        var steps :| steps in {[], [partial], [partial, whole]};
        Walk(steps);
        ok := |steps| == 2;
      }
    }

    /**
      Uploads the files of a tree at the same time, in any interleaving; one that
      fails does not stop the others.
     */
    method UploadAll(base: Path, tree: map<Path, Content>) returns (ok: bool)
      requires Valid() && [] !in tree
      modifies this
      ensures Valid() && old(trace) <= trace
      ensures forall k :: old(Now()) <= k < |trace| ==> UploadAllEffect(old(fs), trace[k], base, tree)
      ensures ok ==> forall rel :: rel in tree ==> At(fs, base + rel) == Some(File(tree[rel]))
    {
      ghost var was := fs;
      var waiting, running: set<Path> := tree.Keys, {};
      ghost var finished: set<Path> := {};
      ok := true;
      while waiting != {} || running != {}
        invariant Valid() && old(trace) <= trace
        invariant forall k :: old(Now()) <= k < |trace| ==> UploadAllEffect(was, trace[k], base, tree)
        invariant waiting + running + finished == tree.Keys && waiting !! running && finished !! (waiting + running)
        invariant ok ==> forall rel :: rel in finished ==> At(fs, base + rel) == Some(File(tree[rel]))
        decreases waiting, running
      {
        var start: bool := *;
        if waiting != {} && (start || running == {}) {
          var rel :| rel in waiting;
          var part: Content := *;
          waiting, running := waiting - {rel}, running + {rel};
          var started := Write(was, base, tree, rel, part);
          ok := ok && started;
        } else {
          var rel :| rel in running;
          running, finished := running - {rel}, finished + {rel};
          var fails: bool := *;
          if fails {
            ok := false;
          } else {
            var written := Write(was, base, tree, rel, tree[rel]);
            ok := ok && written;
          }
        }
      }
    }

    /** One write of a running upload, where its directory is there to take it. */
    method Write(ghost was: Fs, base: Path, tree: map<Path, Content>, rel: Path, content: Content) returns (ok: bool)
      requires Valid() && rel in tree && rel != [] && UploadAllEffect(was, fs, base, tree)
      modifies this
      ensures Valid() && UploadAllEffect(was, fs, base, tree)
      ensures trace == old(trace) + if ok then [fs] else []
      ensures forall other :: other != rel ==> At(fs, base + other) == old(At(fs, base + other))
      ensures ok ==> At(fs, base + rel) == Some(File(content))
    {
      var p := base + rel;
      ok := IsDir(fs, Parent(p)) && !IsDir(fs, p);
      if ok {
        PutKeepsTree(fs, p, File(content));
        OneUpload(was, fs, fs[p := File(content)], base, tree, rel);
        Change(fs[p := File(content)]);
      }
    }

    /** `ln -sfn`: removes what is at `p`, then links. */
    method Ln(target: Path, p: Path) returns (ok: bool)
      requires Valid() && p != [] && !IsDir(fs, p)
      modifies this
      ensures Valid() && old(trace) <= trace
      ensures forall k :: old(Now()) <= k < |trace| ==> LnEffect(old(fs), trace[k], target, p)
      ensures ok ==> At(fs, p) == Some(Link(target))
    {
      var was := fs;
      var unlinked: bool := *;
      if unlinked {
        DropKeepsTree(fs, p);
        Change(fs - {p});
      }
      assert LnEffect(was, fs, target, p) && LnEffect(was, was, target, p);
      ok := *;
      ok := ok && IsDir(fs, Parent(p));
      if ok {
        PutKeepsTree(fs, p, Link(target));
        var linked := fs[p := Link(target)];
        assert LnEffect(was, linked, target, p);
        Change(linked);
      }
    }

    /** `test -e`, or `test -d`; it says nothing reliable about a link. */
    method Test(p: Path, dirOnly: bool) returns (r: Option<bool>)
      ensures r.Some? && !IsLink(fs, p) ==> r.value == if dirOnly then IsDir(fs, p) else p in fs
    {
      var lost, viaLink: bool := *, *;
      r := if lost then None
           else if IsLink(fs, p) then Some(viaLink)
           else Some(if dirOnly then IsDir(fs, p) else p in fs);
    }

    /** `rm -rf`: removes from the leaves up; a failure leaves some of it behind. */
    method RmRf(roots: set<Path>) returns (exit: Exit)
      requires Valid() && [] !in roots
      modifies this
      ensures Valid() && old(trace) <= trace
      ensures forall k :: old(Now()) <= k < |trace| ==> RmEffect(old(fs), trace[k], roots)
      ensures exit.Done? ==> forall q, r :: r in roots && r <= q ==> q !in fs
    {
      ghost var was := fs;
      var rounds: nat :| true;
      for n := 0 to rounds
        invariant Valid() && old(trace) <= trace
        invariant forall k :: old(Now()) <= k < |trace| ==> RmEffect(was, trace[k], roots)
      {
        assert DownClosed(fs, {}, roots);
        var gone :| DownClosed(fs, gone, roots);
        RemoveKeepsTree(fs, gone, roots);
        Change(fs - gone);
      }
      exit := *;
      if exit.Done? {
        var gone := set q | q in fs && exists r :: r in roots && r <= q;
        assert DownClosed(fs, gone, roots);
        RemoveKeepsTree(fs, gone, roots);
        Change(fs - gone);
      }
    }

    /** `mv` of a file or link to a path: a rename, or a copy that is then unlinked. It fails on a directory. */
    method Mv(src: Path, dst: Path) returns (ok: bool)
      requires Valid() && src != [] && dst != [] && src != dst && src in fs && !fs[src].Dir?
      modifies this
      ensures Valid() && old(trace) <= trace
      ensures forall k :: old(Now()) <= k < |trace| ==> MvEffect(old(fs), trace[k], src, dst)
      ensures ok ==> At(fs, dst) == old(At(fs, src)) && src !in fs
    {
      ok := *;
      ok := ok && IsDir(fs, Parent(dst)) && !IsDir(fs, dst);
      if ok {
        var was, both := fs, fs[dst := fs[src]];
        var moved := both - {src};
        MvSteps(was, both, moved, src, dst);
        var steps :| steps in {[], [both], [both, moved], [moved]};
        Walk(steps);
        ok := steps != [] && steps[|steps| - 1] == moved;
      }
    }

    method Walk(steps: seq<Fs>)
      requires Valid() && forall k :: 0 <= k < |steps| ==> Tree(steps[k])
      modifies this
      ensures Valid() && trace == old(trace) + steps
    {
      if steps != [] {
        fs := steps[|steps| - 1];
      }
      trace := trace + steps;
    }
  }

  lemma OneUpload(was: Fs, a: Fs, b: Fs, base: Path, tree: map<Path, Content>, rel: Path)
    requires UploadAllEffect(was, a, base, tree) && rel in tree
    requires b.Keys == a.Keys + {base + rel} && b[base + rel].File?
    requires forall q :: q != base + rel && q in a ==> b[q] == a[q]
    ensures UploadAllEffect(was, b, base, tree)
    ensures forall other :: other != rel ==> At(b, base + other) == At(a, base + other)
  {
  }

  lemma MvSteps(was: Fs, both: Fs, moved: Fs, src: Path, dst: Path)
    requires Tree(was) && src in was && !IsDir(was, src) && src != dst
    requires dst != [] && IsDir(was, Parent(dst)) && !IsDir(was, dst)
    requires both == was[dst := was[src]] && moved == both - {src}
    ensures Tree(both) && Tree(moved)
    ensures MvEffect(was, was, src, dst) && MvEffect(was, both, src, dst) && MvEffect(was, moved, src, dst)
  {
  }

  lemma PutKeepsTree(fs: Fs, p: Path, node: Node)
    requires Tree(fs) && p != [] && IsDir(fs, Parent(p)) && !IsDir(fs, p)
    ensures Tree(fs[p := node])
  {
  }

  lemma DropKeepsTree(fs: Fs, p: Path)
    requires Tree(fs) && !IsDir(fs, p)
    ensures Tree(fs - {p})
  {
  }

  /** A set of paths at or below the roots that takes with each path all that lies below it. */
  predicate DownClosed(fs: Fs, gone: set<Path>, roots: set<Path>) {
    && (forall q :: q in gone ==> exists r :: r in roots && r <= q)
    && (forall q :: q in fs && q != [] && Parent(q) in gone ==> q in gone)
  }

  lemma RemoveKeepsTree(fs: Fs, gone: set<Path>, roots: set<Path>)
    requires Tree(fs) && [] !in roots && DownClosed(fs, gone, roots)
    ensures Tree(fs - gone)
    ensures RmEffect(fs, fs - gone, roots)
  {
  }
}
