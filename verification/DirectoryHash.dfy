/**
  What the hasher of a directory is fed: every file's relative path and content,
  in the order of the paths, whatever order the walk found them in.
 */
module DirectoryHash {
  import opened SandboxFs

  type Entry = (Path, Content)

  /** The order of paths, and a path's bytes; both are the platform's. */
  datatype Platform = Platform(before: (Path, Path) -> bool, bytes: Path -> Content)

  ghost predicate TotalOrder(p: Platform) {
    && (forall a, b :: p.before(a, b) || p.before(b, a))
    && (forall a, b :: p.before(a, b) && p.before(b, a) ==> a == b)
    && (forall a, b, c :: p.before(a, b) && p.before(b, c) ==> p.before(a, c))
  }

  predicate DistinctPaths(es: seq<Entry>) {
    forall i, j :: 0 <= i < j < |es| ==> es[i].0 != es[j].0
  }

  predicate Sorted(p: Platform, es: seq<Entry>) {
    forall i, j :: 0 <= i < j < |es| ==> p.before(es[i].0, es[j].0)
  }

  function Insert(p: Platform, e: Entry, es: seq<Entry>): seq<Entry> {
    if es == [] || p.before(e.0, es[0].0) then [e] + es else [es[0]] + Insert(p, e, es[1..])
  }

  function SortByPath(p: Platform, es: seq<Entry>): seq<Entry> {
    if es == [] then [] else Insert(p, es[0], SortByPath(p, es[1..]))
  }

  /** The bytes of a list of entries, one after another with nothing in between. */
  function Stream(p: Platform, es: seq<Entry>): Content {
    if es == [] then [] else Stream(p, es[..|es| - 1]) + p.bytes(es[|es| - 1].0) + es[|es| - 1].1
  }

  /** Feeds the hasher; the digest is a function of the stream alone. */
  method DirectoryHash(p: Platform, listing: seq<Entry>) returns (stream: Content)
    requires TotalOrder(p)
    ensures stream == Stream(p, SortByPath(p, listing))
    ensures DistinctPaths(listing) ==>
              forall other :: multiset(other) == multiset(listing) ==> stream == Stream(p, SortByPath(p, other))
  {
    var entries := SortByPath(p, listing);
    stream := [];
    for i := 0 to |entries|
      invariant stream == Stream(p, entries[..i])
    {
      assert entries[..i + 1][..i] == entries[..i];
      stream := stream + p.bytes(entries[i].0);
      stream := stream + entries[i].1;
    }
    assert entries[..|entries|] == entries;
    forall other | DistinctPaths(listing) && multiset(other) == multiset(listing)
      ensures stream == Stream(p, SortByPath(p, other))
    {
      WalkOrderDoesNotMatter(p, listing, other);
    }
  }

  lemma {:induction false} InsertKeeps(p: Platform, e: Entry, es: seq<Entry>)
    ensures multiset(Insert(p, e, es)) == multiset([e]) + multiset(es)
  {
    if es != [] {
      assert es == [es[0]] + es[1..];
      if !p.before(e.0, es[0].0) {
        InsertKeeps(p, e, es[1..]);
      }
    }
  }

  lemma FirstThenSorted(p: Platform, first: Entry, rest: seq<Entry>)
    requires Sorted(p, rest) && forall i :: 0 <= i < |rest| ==> p.before(first.0, rest[i].0)
    ensures Sorted(p, [first] + rest)
  {
  }

  lemma {:induction false} InsertSorts(p: Platform, e: Entry, es: seq<Entry>)
    requires TotalOrder(p) && Sorted(p, es)
    ensures Sorted(p, Insert(p, e, es))
  {
    if es != [] {
      var tail := es[1..];
      if p.before(e.0, es[0].0) {
        FirstThenSorted(p, e, es);
      } else {
        InsertSorts(p, e, tail);
        InsertKeeps(p, e, tail);
        var rest := Insert(p, e, tail);
        forall i | 0 <= i < |rest| ensures p.before(es[0].0, rest[i].0) {
          assert rest[i] in multiset(rest);
          assert rest[i] == e || rest[i] in tail;
        }
        FirstThenSorted(p, es[0], rest);
      }
    }
  }

  lemma {:induction false} SortSorts(p: Platform, es: seq<Entry>)
    requires TotalOrder(p)
    ensures Sorted(p, SortByPath(p, es)) && multiset(SortByPath(p, es)) == multiset(es)
  {
    if es != [] {
      SortSorts(p, es[1..]);
      InsertSorts(p, es[0], SortByPath(p, es[1..]));
      InsertKeeps(p, es[0], SortByPath(p, es[1..]));
      assert es == [es[0]] + es[1..];
    }
  }

  lemma DistinctIsAboutContents(a: seq<Entry>, b: seq<Entry>)
    requires DistinctPaths(a) && multiset(a) == multiset(b)
    ensures DistinctPaths(b)
  {
    forall i, j | 0 <= i < j < |b| ensures b[i].0 != b[j].0 {
      if b[i].0 == b[j].0 {
        assert b[i] in multiset(a) && b[j] in multiset(a);
        var k :| 0 <= k < |a| && a[k] == b[i];
        var l :| 0 <= l < |a| && a[l] == b[j];
        assert k == l;
        TwiceInSequence(b, i, j);
        OnceInSequence(a, k);
      }
    }
  }

  lemma TwiceInSequence(es: seq<Entry>, i: nat, j: nat)
    requires i < j < |es| && es[i] == es[j]
    ensures multiset(es)[es[i]] >= 2
  {
    assert es == es[..j] + es[j..];
    assert es[i] in es[..j] && es[i] in es[j..] by {
      assert es[..j][i] == es[i] && es[j..][0] == es[i];
    }
  }

  lemma OnceInSequence(es: seq<Entry>, k: nat)
    requires DistinctPaths(es) && k < |es|
    ensures multiset(es)[es[k]] == 1
  {
    assert es == es[..k] + [es[k]] + es[k + 1..];
    assert es[k] !in es[..k] && es[k] !in es[k + 1..];
  }

  lemma SameHead(p: Platform, a: seq<Entry>, b: seq<Entry>)
    requires TotalOrder(p) && Sorted(p, a) && Sorted(p, b) && DistinctPaths(a) && multiset(a) == multiset(b) && a != [] && b != []
    ensures a[0] == b[0]
  {
    assert a[0] in multiset(b) && b[0] in multiset(a);
    var i :| 0 <= i < |b| && b[i] == a[0];
    var j :| 0 <= j < |a| && a[j] == b[0];
    assert j != 0 ==> p.before(a[0].0, a[j].0);
    assert i != 0 ==> p.before(b[0].0, b[i].0);
  }

  lemma SameTail(a: seq<Entry>, b: seq<Entry>)
    requires a != [] && b != [] && a[0] == b[0] && multiset(a) == multiset(b)
    ensures multiset(a[1..]) == multiset(b[1..]) && a == [a[0]] + a[1..] && b == [a[0]] + b[1..]
  {
    assert a == [a[0]] + a[1..] && b == [b[0]] + b[1..];
    assert multiset(a[1..]) == multiset(a) - multiset{a[0]} == multiset(b) - multiset{b[0]} == multiset(b[1..]);
  }

  lemma {:induction false} SortedIsUnique(p: Platform, a: seq<Entry>, b: seq<Entry>)
    requires TotalOrder(p) && Sorted(p, a) && Sorted(p, b) && DistinctPaths(a) && multiset(a) == multiset(b)
    ensures a == b
  {
    assert |a| == |multiset(a)| == |multiset(b)| == |b|;
    if a != [] {
      SameHead(p, a, b);
      SameTail(a, b);
      SortedIsUnique(p, a[1..], b[1..]);
    }
  }

  /** The walk may list the files in any order: the hasher sees the same bytes. */
  lemma WalkOrderDoesNotMatter(p: Platform, a: seq<Entry>, b: seq<Entry>)
    requires TotalOrder(p) && DistinctPaths(a) && multiset(a) == multiset(b)
    ensures SortByPath(p, a) == SortByPath(p, b)
    ensures Stream(p, SortByPath(p, a)) == Stream(p, SortByPath(p, b))
  {
    SortSorts(p, a);
    SortSorts(p, b);
    DistinctIsAboutContents(a, SortByPath(p, a));
    SortedIsUnique(p, SortByPath(p, a), SortByPath(p, b));
  }

  // ------------------------------------ when the bytes tell directories apart

  /** The entry with its content blanked: the path and the size. */
  function Blank(e: Entry): Entry {
    (e.0, seq(|e.1|, _ => 0))
  }

  function Shape(es: seq<Entry>): seq<Entry> {
    if es == [] then [] else [Blank(es[0])] + Shape(es[1..])
  }

  lemma {:induction false} ShapeAt(es: seq<Entry>)
    ensures |Shape(es)| == |es| && forall i :: 0 <= i < |es| ==> Shape(es)[i] == Blank(es[i])
  {
    if es != [] {
      ShapeAt(es[1..]);
    }
  }

  lemma {:induction false} ShapeOfInsert(p: Platform, e: Entry, es: seq<Entry>)
    ensures Shape(Insert(p, e, es)) == Insert(p, Blank(e), Shape(es))
  {
    if es == [] || p.before(e.0, es[0].0) {
      assert ([e] + es)[1..] == es;
    } else {
      ShapeOfInsert(p, e, es[1..]);
      assert ([es[0]] + Insert(p, e, es[1..]))[1..] == Insert(p, e, es[1..]);
      assert Shape(es)[1..] == Shape(es[1..]);
    }
  }

  lemma {:induction false} ShapeOfSort(p: Platform, es: seq<Entry>)
    ensures Shape(SortByPath(p, es)) == SortByPath(p, Shape(es))
  {
    if es != [] {
      ShapeOfSort(p, es[1..]);
      ShapeOfInsert(p, es[0], SortByPath(p, es[1..]));
      assert Shape(es)[1..] == Shape(es[1..]);
    }
  }

  /** Entry by entry the same path and size. */
  predicate SameShape(a: seq<Entry>, b: seq<Entry>) {
    |a| == |b| && forall i :: 0 <= i < |a| ==> a[i].0 == b[i].0 && |a[i].1| == |b[i].1|
  }

  /** Entry by entry as many path bytes and as much content. */
  predicate SameLengths(p: Platform, a: seq<Entry>, b: seq<Entry>) {
    |a| == |b| && forall i :: 0 <= i < |a| ==> |p.bytes(a[i].0)| == |p.bytes(b[i].0)| && |a[i].1| == |b[i].1|
  }

  /** Entry by entry the same path bytes and the same content. */
  predicate SameBytes(p: Platform, a: seq<Entry>, b: seq<Entry>) {
    |a| == |b| && forall i :: 0 <= i < |a| ==> p.bytes(a[i].0) == p.bytes(b[i].0) && a[i].1 == b[i].1
  }

  /** Both the paths and the contents count: among listings of the same lengths the streams are equal exactly if both are. */
  lemma {:induction false} StreamEqualIff(p: Platform, a: seq<Entry>, b: seq<Entry>)
    requires SameLengths(p, a, b)
    ensures |Stream(p, a)| == |Stream(p, b)|
    ensures Stream(p, a) == Stream(p, b) <==> SameBytes(p, a, b)
  {
    if a != [] {
      var m := |a| - 1;
      StreamEqualIff(p, a[..m], b[..m]);
      var s, t := Stream(p, a[..m]), Stream(p, b[..m]);
      var x, y := s + p.bytes(a[m].0), t + p.bytes(b[m].0);
      assert |x| == |y| && Stream(p, a) == x + a[m].1 && Stream(p, b) == y + b[m].1;
      if Stream(p, a) == Stream(p, b) {
        assert x == Stream(p, a)[..|x|] == y && a[m].1 == Stream(p, a)[|x|..] == b[m].1;
        assert s == x[..|s|] == t && p.bytes(a[m].0) == x[|s|..] == p.bytes(b[m].0);
        assert forall i :: 0 <= i < m ==> a[i] == a[..m][i] && b[i] == b[..m][i];
      }
    }
  }

  /** A file moved to another path of the same length is another directory to the hasher. */
  lemma MovedFileChangesStream(p: Platform, q: Path, r: Path, content: Content)
    requires |p.bytes(q)| == |p.bytes(r)| && p.bytes(q) != p.bytes(r)
    ensures Stream(p, SortByPath(p, [(q, content)])) != Stream(p, SortByPath(p, [(r, content)]))
  {
    var a: seq<Entry>, b: seq<Entry> := [(q, content)], [(r, content)];
    assert a[1..] == [] && b[1..] == [] && SortByPath(p, a) == a && SortByPath(p, b) == b;
    assert a[0].0 == q && b[0].0 == r;
    StreamEqualIff(p, a, b);
  }

  /** The two walks found files of the same names and sizes. */
  predicate SameNamesAndSizes(a: seq<Entry>, b: seq<Entry>) {
    multiset(Shape(a)) == multiset(Shape(b))
  }

  lemma ShapesAgree(x: seq<Entry>, y: seq<Entry>)
    requires Shape(x) == Shape(y)
    ensures SameShape(x, y)
  {
    ShapeAt(x);
    ShapeAt(y);
    forall i | 0 <= i < |x| ensures x[i].0 == y[i].0 && |x[i].1| == |y[i].1| {
      assert Blank(x[i]) == Shape(x)[i] == Shape(y)[i] == Blank(y[i]);
      assert |Blank(x[i]).1| == |x[i].1| && |Blank(y[i]).1| == |y[i].1|;
    }
  }

  lemma ShapeKeepsPaths(es: seq<Entry>)
    requires DistinctPaths(es)
    ensures DistinctPaths(Shape(es))
  {
    ShapeAt(es);
  }

  lemma SortedShapesAgree(p: Platform, a: seq<Entry>, b: seq<Entry>)
    requires TotalOrder(p) && DistinctPaths(a) && SameNamesAndSizes(a, b)
    ensures SameShape(SortByPath(p, a), SortByPath(p, b))
  {
    ShapeKeepsPaths(a);
    WalkOrderDoesNotMatter(p, Shape(a), Shape(b));
    ShapeOfSort(p, a);
    ShapeOfSort(p, b);
    ShapesAgree(SortByPath(p, a), SortByPath(p, b));
  }

  /** Among directories with the same names and sizes the bytes are the same exactly if the contents are. */
  lemma StreamTellsContentsApart(p: Platform, a: seq<Entry>, b: seq<Entry>)
    requires TotalOrder(p) && DistinctPaths(a) && SameNamesAndSizes(a, b)
    ensures Stream(p, SortByPath(p, a)) == Stream(p, SortByPath(p, b)) <==> multiset(a) == multiset(b)
  {
    var x, y := SortByPath(p, a), SortByPath(p, b);
    if multiset(a) == multiset(b) {
      WalkOrderDoesNotMatter(p, a, b);
    }
    SortedShapesAgree(p, a, b);
    StreamEqualIff(p, x, y);
    assert SameBytes(p, x, y) ==> x == y;
    SortSorts(p, a);
    SortSorts(p, b);
  }

  /** With other names or sizes they need not be: path and content run together, so these two directories feed the same bytes. */
  lemma StreamIsNotInjective(p: Platform)
    requires p.bytes(["a"]) == [97] && p.bytes(["ab"]) == [97, 98]
    ensures var one, two := [(["a"], [98, 99])], [(["ab"], [99])];
            multiset(one) != multiset(two) && Stream(p, SortByPath(p, one)) == Stream(p, SortByPath(p, two))
  {
  }
}
