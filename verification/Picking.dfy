/** Choosing elements of a sequence, in order: what the loops that filter a list are measured by. */
module Picking {

  /** `picked` is what stands at the places of `all` that `keep` lists, in order. */
  ghost predicate Picked<T(!new)>(all: seq<T>, keep: set<int>, picked: seq<T>) {
    exists places: seq<int> :: ArePlaces(places, keep) && At(all, places, picked)
  }

  /** The elements of `keep` in ascending order. */
  ghost predicate ArePlaces(places: seq<int>, keep: set<int>) {
    (forall i, j | 0 <= i < j < |places| :: places[i] < places[j]) && forall k :: k in places <==> k in keep
  }

  ghost predicate At<T>(all: seq<T>, places: seq<int>, picked: seq<T>) {
    |picked| == |places| && forall i | 0 <= i < |places| :: 0 <= places[i] < |all| && picked[i] == all[places[i]]
  }

  lemma {:induction false} NothingPicked<T(!new)>(all: seq<T>)
    ensures Picked(all, {}, [])
  {
    assert ArePlaces([], {}) && At(all, [], []);
  }

  /** One more element at the end, chosen or not. */
  lemma {:induction false} PickedSnoc<T(!new)>(all: seq<T>, keep: set<int>, picked: seq<T>, x: T)
    requires Picked(all, keep, picked)
    ensures Picked(all + [x], keep, picked)
    ensures Picked(all + [x], keep + {|all|}, picked + [x])
  {
    var places :| ArePlaces(places, keep) && At(all, places, picked);
    assert At(all + [x], places, picked);
    forall k | k in keep ensures k < |all| {
      var i :| 0 <= i < |places| && places[i] == k;
    }
    PlacesSnoc(places, keep, |all|);
    assert At(all + [x], places + [|all|], picked + [x]);
  }

  lemma {:induction false} PlacesSnoc(places: seq<int>, keep: set<int>, n: int)
    requires ArePlaces(places, keep) && forall k | k in keep :: k < n
    ensures ArePlaces(places + [n], keep + {n})
  {
    forall i | 0 <= i < |places| ensures places[i] < n {
      assert places[i] in places;
    }
  }

  function Shifted(keep: set<int>): set<int> {
    set k | k in keep :: k + 1
  }

  ghost function Up(places: seq<int>): seq<int> {
    seq(|places|, i requires 0 <= i < |places| => places[i] + 1)
  }

  lemma {:induction false} UpIsShifted(places: seq<int>, keep: set<int>)
    requires ArePlaces(places, keep)
    ensures ArePlaces(Up(places), Shifted(keep))
  {
    forall k ensures k in Up(places) <==> k in Shifted(keep) {
      if k in Up(places) {
        var i :| 0 <= i < |places| && Up(places)[i] == k;
        assert places[i] in places;
      }
      if k in Shifted(keep) {
        assert k - 1 in places;
        var i :| 0 <= i < |places| && places[i] == k - 1;
        assert Up(places)[i] == k;
      }
    }
  }

  lemma {:induction false} ZeroFirst(places: seq<int>, keep: set<int>)
    requires ArePlaces(places, keep) && forall i | 0 <= i < |places| :: 0 < places[i]
    ensures ArePlaces([0] + places, {0} + keep)
  {
    forall k ensures k in [0] + places <==> k in {0} + keep {
      assert k in places <==> k in keep;
    }
  }

  /** One more element in front, chosen or not. */
  lemma {:induction false} PickedCons<T(!new)>(x: T, all: seq<T>, keep: set<int>, picked: seq<T>)
    requires Picked(all, keep, picked)
    ensures Picked([x] + all, Shifted(keep), picked)
    ensures Picked([x] + all, {0} + Shifted(keep), [x] + picked)
  {
    hide ArePlaces, Shifted;
    var places :| ArePlaces(places, keep) && At(all, places, picked);
    UpIsShifted(places, keep);
    assert At([x] + all, Up(places), picked);
    ZeroFirst(Up(places), Shifted(keep));
    assert At([x] + all, [0] + Up(places), [x] + picked);
  }

  /** The places decide: there is one choice for each set of them. */
  lemma {:induction false} PickedOnce<T(!new)>(all: seq<T>, keep: set<int>, a: seq<T>, b: seq<T>)
    requires Picked(all, keep, a) && Picked(all, keep, b)
    ensures a == b
  {
    var p :| ArePlaces(p, keep) && At(all, p, a);
    var q :| ArePlaces(q, keep) && At(all, q, b);
    PlacesOnce(p, q, keep);
  }

  lemma {:induction false} LastPlace(p: seq<int>, keep: set<int>)
    requires ArePlaces(p, keep)
    ensures p == [] <==> keep == {}
    ensures p != [] ==> p[|p| - 1] in keep && forall k | k in keep :: k <= p[|p| - 1]
  {
    if p != [] {
      assert p[|p| - 1] in p;
      forall k | k in keep ensures k <= p[|p| - 1] {
        assert k in p;
        var i :| 0 <= i < |p| && p[i] == k;
      }
    } else {
      assert forall k | k in keep :: k in p;
      assert keep == {};
    }
  }

  lemma {:induction false} PlacesOnce(p: seq<int>, q: seq<int>, keep: set<int>)
    requires ArePlaces(p, keep) && ArePlaces(q, keep)
    ensures p == q
    decreases |p|
  {
    hide ArePlaces;
    LastPlace(p, keep);
    LastPlace(q, keep);
    if p != [] {
      var last := p[|p| - 1];
      assert q != [] && q[|q| - 1] in keep;
      assert q[|q| - 1] == last;
      DropLast(p, keep);
      DropLast(q, keep);
      PlacesOnce(p[..|p| - 1], q[..|q| - 1], keep - {last});
      assert p == p[..|p| - 1] + [p[|p| - 1]] && q == q[..|q| - 1] + [q[|q| - 1]];
    }
  }

  lemma {:induction false} DropLast(p: seq<int>, keep: set<int>)
    requires ArePlaces(p, keep) && p != []
    ensures ArePlaces(p[..|p| - 1], keep - {p[|p| - 1]})
  {
    var init, last := p[..|p| - 1], p[|p| - 1];
    forall k ensures k in init <==> k in keep - {last} {
      assert k in p <==> k in keep;
      if k in p && k != last {
        var i :| 0 <= i < |p| && p[i] == k;
        assert init[i] == k;
      }
    }
  }
}
