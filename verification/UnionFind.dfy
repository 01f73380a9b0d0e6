/** Python's order on strings: by code point, a proper prefix first. */
module StringOrder {

  predicate Less(a: string, b: string) {
    |b| > 0 && (|a| == 0 || a[0] < b[0] || (a[0] == b[0] && Less(a[1..], b[1..])))
  }

  /** The strings agree up to `i`, where `a` ends or has the lesser character. */
  predicate FirstDiffers(a: string, b: string, i: int) {
    0 <= i <= |a| && i < |b| && a[..i] == b[..i] && (i < |a| ==> a[i] < b[i])
  }

  lemma {:induction false} FirstAgrees(a: string, b: string, i: int)
    requires FirstDiffers(a, b, i) && i > 0
    ensures |a| > 0 && a[0] == b[0]
  {
    assert a[..i][0] == b[..i][0];
  }

  /** It is the lexicographic order by code points, a prefix first. */
  lemma {:induction false} LessIff(a: string, b: string)
    ensures Less(a, b) <==> exists i :: FirstDiffers(a, b, i)
  {
    if |a| > 0 && |b| > 0 && a[0] == b[0] {
      LessIff(a[1..], b[1..]);
      if Less(a[1..], b[1..]) {
        var i :| FirstDiffers(a[1..], b[1..], i);
        assert a[..i + 1] == [a[0]] + a[1..][..i] && b[..i + 1] == [b[0]] + b[1..][..i];
        assert FirstDiffers(a, b, i + 1);
      }
      if i :| FirstDiffers(a, b, i) {
        assert a[1..][..i - 1] == a[..i][1..] && b[1..][..i - 1] == b[..i][1..];
        assert FirstDiffers(a[1..], b[1..], i - 1);
      }
    } else if |b| > 0 {
      assert FirstDiffers(a, b, 0) <==> Less(a, b);
      forall i | FirstDiffers(a, b, i) ensures i == 0 {
        if i > 0 { FirstAgrees(a, b, i); }
      }
    }
  }

  lemma {:induction false} Irreflexive(a: string)
    ensures !Less(a, a)
  {
    if |a| > 0 { Irreflexive(a[1..]); }
  }

  lemma {:induction false} Transitive(a: string, b: string, c: string)
    requires Less(a, b) && Less(b, c)
    ensures Less(a, c)
  {
    if |a| > 0 && a[0] == b[0] == c[0] { Transitive(a[1..], b[1..], c[1..]); }
  }

  lemma {:induction false} Total(a: string, b: string)
    ensures a == b || Less(a, b) || Less(b, a)
  {
    if |a| > 0 && |b| > 0 && a[0] == b[0] {
      Total(a[1..], b[1..]);
      assert a == [a[0]] + a[1..] && b == [b[0]] + b[1..];
    }
  }

  /** How many strings of `keys` come before `x`: what every step up a parent chain decreases. */
  ghost function Rank(keys: set<string>, x: string): nat {
    |set k | k in keys && Less(k, x)|
  }

  lemma {:induction false} RankDecreases(keys: set<string>, x: string, y: string)
    requires x in keys && Less(x, y)
    ensures Rank(keys, x) < Rank(keys, y)
  {
    var below, above := set k | k in keys && Less(k, x), set k | k in keys && Less(k, y);
    forall k | k in below ensures k in above { Transitive(k, x, y); }
    Irreflexive(x);
    assert x in above - below;
    SubsetIsSmaller(below, above);
  }

  lemma {:induction false} SubsetIsSmaller<T>(a: set<T>, b: set<T>)
    requires a < b
    ensures |a| < |b|
  {
    assert |b| == |a| + |b - a| by { assert a + (b - a) == b; }
  }

  /** A nonempty finite set of strings has a least element. */
  lemma {:induction false} LeastExists(s: set<string>) returns (least: string)
    requires s != {}
    ensures least in s && forall x | x in s :: x == least || Less(least, x)
    decreases |s|
  {
    var first :| first in s;
    if s == {first} {
      least := first;
    } else {
      var rest := LeastExists(s - {first});
      Total(first, rest);
      least := if Less(first, rest) then first else rest;
      forall x | x in s ensures x == least || Less(least, x) {
        if least == first && x != first && x != rest { Transitive(first, rest, x); }
      }
    }
  }
}

/**
 * The union-find inside `build_plan` (packages/attention/scripts/cleanup_attention_dups.py):
 * `find` halves paths while it walks up, `union` hangs the greater root under the lesser.
 */
module UnionFind {
  import opened StringOrder

  type Parents = map<string, string>

  ghost predicate ParentOk(parent: Parents, x: string) {
    x in parent ==> parent[x] in parent && (parent[x] == x || Less(parent[x], x))
  }

  /** Every parent is known, and comes before its child unless the child is a root. */
  ghost predicate WellFormed(parent: Parents) {
    forall x {:trigger ParentOk(parent, x)} :: ParentOk(parent, x)
  }

  /** One step up. */
  function Up(parent: Parents, x: string): (y: string)
    requires WellFormed(parent) && x in parent
    ensures y == parent[x] && y in parent && (y == x || Less(y, x))
  {
    assert ParentOk(parent, x);
    parent[x]
  }

  ghost function Root(parent: Parents, x: string): (root: string)
    requires WellFormed(parent) && x in parent
    ensures root in parent && parent[root] == root && (root == x || Less(root, x))
    decreases Rank(parent.Keys, x)
  {
    var y := Up(parent, x);
    if y == x then x
    else
      RankDecreases(parent.Keys, y, x);
      var root := Root(parent, y);
      assert root == x || Less(root, x) by { if Less(root, y) { Transitive(root, y, x); } }
      root
  }

  /** `parent` was rewired without changing any root. */
  ghost predicate SameRoots(before: Parents, after: Parents) {
    && WellFormed(before) && WellFormed(after) && before.Keys == after.Keys
    && forall x {:trigger Root(after, x)} {:trigger Root(before, x)} | x in before :: Root(after, x) == Root(before, x)
  }

  /** One halving step: hang `x` under its grandparent. */
  function Halved(parent: Parents, x: string): Parents
    requires WellFormed(parent) && x in parent
  {
    parent[x := Up(parent, Up(parent, x))]
  }

  lemma {:induction false} HalvedIsWellFormed(parent: Parents, x: string)
    requires WellFormed(parent) && x in parent
    ensures WellFormed(Halved(parent, x)) && Halved(parent, x).Keys == parent.Keys
  {
    var y := Up(parent, x);
    var z := Up(parent, y);
    if z != y && y != x { Transitive(z, y, x); }
    forall k ensures ParentOk(Halved(parent, x), k) {
      assert ParentOk(parent, k);
    }
  }

  lemma {:induction false} HalvedRoot(parent: Parents, x: string, k: string)
    requires WellFormed(parent) && x in parent && k in parent && WellFormed(Halved(parent, x))
    ensures Root(Halved(parent, x), k) == Root(parent, k)
    decreases Rank(parent.Keys, k)
  {
    var y := Up(parent, k);
    if y != k {
      RankDecreases(parent.Keys, y, k);
      HalvedRoot(parent, x, y);
      if k == x {
        var z := Up(parent, y);
        if z != y {
          RankDecreases(parent.Keys, z, y);
          HalvedRoot(parent, x, z);
          Transitive(z, y, k);
          Irreflexive(k);
        }
        assert Up(Halved(parent, x), k) == z;
      } else {
        assert Up(Halved(parent, x), k) == y;
      }
    }
  }

  /** Path halving changes no root. */
  lemma {:induction false} HalvingKeepsRoots(parent: Parents, x: string)
    requires WellFormed(parent) && x in parent
    ensures SameRoots(parent, Halved(parent, x))
  {
    HalvedIsWellFormed(parent, x);
    forall k | k in parent ensures Root(Halved(parent, x), k) == Root(parent, k) {
      HalvedRoot(parent, x, k);
    }
  }

  lemma {:induction false} SameRootsChain(a: Parents, b: Parents, c: Parents)
    requires SameRoots(a, b) && SameRoots(b, c)
    ensures SameRoots(a, c)
  {
    forall x | x in a ensures Root(c, x) == Root(a, x) {
      assert Root(b, x) == Root(a, x);
    }
  }

  ghost predicate IsRoot(parent: Parents, x: string) {
    x in parent && parent[x] == x
  }

  lemma {:induction false} JoinIsWellFormed(parent: Parents, lo: string, hi: string)
    requires WellFormed(parent) && IsRoot(parent, lo) && IsRoot(parent, hi) && Less(lo, hi)
    ensures WellFormed(parent[hi := lo])
  {
    var after := parent[hi := lo];
    forall k ensures ParentOk(after, k) { assert ParentOk(parent, k); }
  }

  lemma {:induction false} JoinedRoot(parent: Parents, lo: string, hi: string, y: string)
    requires WellFormed(parent) && IsRoot(parent, lo) && IsRoot(parent, hi) && Less(lo, hi) && y in parent
    requires WellFormed(parent[hi := lo])
    ensures Root(parent[hi := lo], y) == if Root(parent, y) == hi then lo else Root(parent, y)
    decreases Rank(parent.Keys, y)
  {
    Irreflexive(lo);
    var up := Up(parent, y);
    if up != y {
      RankDecreases(parent.Keys, up, y);
      JoinedRoot(parent, lo, hi, up);
      assert Up(parent[hi := lo], y) == up;
    } else if y == hi {
      assert Up(parent[hi := lo], y) == lo;
      assert Up(parent[hi := lo], lo) == lo;
    } else {
      assert Up(parent[hi := lo], y) == y;
    }
  }

  lemma {:induction false} AddKeepsRoots(parent: Parents, x: string)
    requires WellFormed(parent) && x !in parent
    ensures WellFormed(parent[x := x]) && Root(parent[x := x], x) == x
    ensures forall y {:trigger Root(parent[x := x], y)} | y in parent :: Root(parent[x := x], y) == Root(parent, y)
  {
    var after := parent[x := x];
    forall k ensures ParentOk(after, k) { assert ParentOk(parent, k); }
    forall y | y in parent ensures Root(parent[x := x], y) == Root(parent, y) {
      AddedRoot(parent, x, y);
    }
  }

  lemma {:induction false} AddedRoot(parent: Parents, x: string, y: string)
    requires WellFormed(parent) && x !in parent && y in parent && WellFormed(parent[x := x])
    ensures Root(parent[x := x], y) == Root(parent, y)
    decreases Rank(parent.Keys, y)
  {
    var up := Up(parent, y);
    assert Up(parent[x := x], y) == up;
    if up != y {
      RankDecreases(parent.Keys, up, y);
      AddedRoot(parent, x, up);
    }
  }

  /** What the forest means: every source's root. */
  ghost function Roots(parent: Parents): map<string, string>
    requires WellFormed(parent)
  {
    map x | x in parent :: Root(parent, x)
  }

  /** A root never comes after the sources it stands for. */
  predicate Descends(roots: map<string, string>) {
    forall x | x in roots :: roots[x] == x || Less(roots[x], x)
  }

  lemma {:induction false} RootsDescend(parent: Parents)
    requires WellFormed(parent)
    ensures Descends(Roots(parent))
  {
    forall x | x in parent ensures Root(parent, x) == x || Less(Root(parent, x), x) {
    }
  }

  /** The classes of roots `lo` and `hi` become one, under `lo`. */
  function Unite(roots: map<string, string>, lo: string, hi: string): map<string, string> {
    map x | x in roots :: if roots[x] == hi then lo else roots[x]
  }

  class Forest {
    var parent: Parents

    constructor ()
      ensures parent == map[]
    {
      parent := map[];
    }

    /** `parent.setdefault(x, x)`. */
    method Add(x: string)
      requires WellFormed(parent)
      modifies this
      ensures WellFormed(parent)
      ensures Roots(parent) == if x in old(parent) then Roots(old(parent)) else Roots(old(parent))[x := x]
    {
      if x !in parent {
        AddKeepsRoots(parent, x);
        parent := parent[x := x];
      }
    }

    /** The root of `start`; the paths walked get shorter, the roots stay. */
    method Find(start: string) returns (x: string)
      requires WellFormed(parent) && start in parent
      modifies this
      ensures WellFormed(parent) && parent.Keys == old(parent).Keys && Roots(parent) == Roots(old(parent))
      ensures x == Roots(parent)[start] && x in parent && parent[x] == x
    {
      x := start;
      while parent[x] != x
        invariant SameRoots(old(parent), parent) && x in parent
        invariant Root(parent, x) == Root(old(parent), start)
        decreases Rank(parent.Keys, x)
      {
        var up := Up(parent, x);
        var top := Up(parent, up);
        HalvingKeepsRoots(parent, x);
        SameRootsChain(old(parent), parent, Halved(parent, x));
        RankDecreases(parent.Keys, up, x);
        if top != up { RankDecreases(parent.Keys, top, up); }
        assert Root(parent, x) == Root(parent, up) == Root(parent, top);
        parent := Halved(parent, x);
        x := top;
      }
      assert Root(parent, x) == x;
      assert Root(parent, start) == Root(old(parent), start);
    }

    /** Merge the classes of `a` and `b` under the lesser of their roots. */
    method Union(a: string, b: string)
      requires WellFormed(parent) && a in parent && b in parent
      modifies this
      ensures WellFormed(parent)
      ensures var roots := Roots(old(parent));
              Roots(parent) == if Less(roots[a], roots[b]) then Unite(roots, roots[a], roots[b])
                               else Unite(roots, roots[b], roots[a])
    {
      var ra := Find(a);
      var rb := Find(b);
      assert Roots(parent)[a] == Root(parent, a) && Roots(parent)[b] == Root(parent, b);
      Irreflexive(ra);
      if ra == rb { return; }
      Total(ra, rb);
      var lo, hi := if Less(ra, rb) then ra else rb, if Less(ra, rb) then rb else ra;
      JoinUnites(parent, lo, hi);
      parent := parent[hi := lo];
    }
  }

  /** Hanging one root under a lesser one moves exactly its own class. */
  lemma {:induction false} JoinUnites(parent: Parents, lo: string, hi: string)
    requires WellFormed(parent) && IsRoot(parent, lo) && IsRoot(parent, hi) && Less(lo, hi)
    ensures WellFormed(parent[hi := lo]) && Roots(parent[hi := lo]) == Unite(Roots(parent), lo, hi)
  {
    JoinIsWellFormed(parent, lo, hi);
    RootsAfterJoin(parent, parent[hi := lo], lo, hi);
  }

  lemma {:induction false} RootsAfterJoin(parent: Parents, after: Parents, lo: string, hi: string)
    requires WellFormed(parent) && IsRoot(parent, lo) && IsRoot(parent, hi) && Less(lo, hi)
    requires after == parent[hi := lo] && WellFormed(after)
    ensures Roots(after) == Unite(Roots(parent), lo, hi)
  {
    var x, y := Roots(after), Unite(Roots(parent), lo, hi);
    forall k | k in x ensures x[k] == y[k] { JoinedRoot(parent, lo, hi, k); }
  }
}
