/**
 * `build_plan` (packages/attention/scripts/cleanup_attention_dups.py): union-find over the attention
 * sources of the admitted records, grouping by root, one keeper per group.
 */
module DupPlanner {
  import opened Wrappers
  import opened StringOrder
  import opened UnionFind
  import opened DupVisits

  datatype Plan = Plan(total: nat, keep: map<string, string>, delete: seq<string>, skipped: map<string, seq<string>>)

  // ---- Admission ------------------------------------------------------------------------------

  /** The records that enter the plan: eligible, first of their id. */
  function Admitted(records: seq<Record>): seq<Record> {
    if records == [] then []
    else
      var front, r := Admitted(records[..|records| - 1]), records[|records| - 1];
      if Eligible(r) && (forall q | q in front :: q.id != r.id) then front + [r] else front
  }

  function SetOf(records: seq<Record>): set<Record> {
    set r | r in records
  }

  predicate DistinctIds(records: seq<Record>) {
    forall i, j | 0 <= i < j < |records| :: records[i].id != records[j].id
  }

  lemma {:induction false} AdmittedIsClean(records: seq<Record>)
    ensures DistinctIds(Admitted(records))
    ensures forall r | r in Admitted(records) :: r in records && Eligible(r)
  {
    if records != [] {
      AdmittedIsClean(records[..|records| - 1]);
    }
  }

  lemma {:induction false} EligibleIsAdmitted(records: seq<Record>, r: Record) returns (q: Record)
    requires r in records && Eligible(r)
    ensures q in Admitted(records) && q.id == r.id
  {
    var earlier, last := records[..|records| - 1], records[|records| - 1];
    if r in earlier {
      q := EligibleIsAdmitted(earlier, r);
    } else if exists p :: p in Admitted(earlier) && p.id == last.id {
      q :| q in Admitted(earlier) && q.id == last.id;
    } else {
      q := last;
    }
  }

  lemma {:induction false} AdmittedSetIsClean(records: seq<Record>)
    ensures Clean(SetOf(Admitted(records)))
  {
    AdmittedIsClean(records);
    var admitted := Admitted(records);
    forall r, q | r in SetOf(admitted) && q in SetOf(admitted) && r.id == q.id ensures r == q {
      var i :| 0 <= i < |admitted| && admitted[i] == r;
      var j :| 0 <= j < |admitted| && admitted[j] == q;
      assert i < j || j < i || i == j;
    }
  }

  /** Records fetched twice are identical. */
  ghost predicate Consistent(records: seq<Record>) {
    forall r, q | r in records && q in records && r.id == q.id :: r == q
  }

  /** The planner's input is a set: neither order nor repetition of records matters. */
  lemma {:induction false} AdmissionIgnoresOrder(records: seq<Record>, shuffled: seq<Record>)
    requires Consistent(records) && forall r :: r in records <==> r in shuffled
    ensures SetOf(Admitted(records)) == SetOf(Admitted(shuffled)) == set r | r in records && Eligible(r)
  {
    AdmittedIsClean(records);
    AdmittedIsClean(shuffled);
    forall r | r in records && Eligible(r) ensures r in Admitted(records) && r in Admitted(shuffled) {
      var p := EligibleIsAdmitted(records, r);
      var q := EligibleIsAdmitted(shuffled, r);
    }
  }

  // ---- Roots over admitted records ------------------------------------------------------------

  type RootMap = map<string, string>

  /** All sources of a record have the same root. */
  predicate UnitedIn(roots: RootMap, r: Record) {
    forall a, b | a in SourcesOf(r) && b in SourcesOf(r) :: a in roots && b in roots && roots[a] == roots[b]
  }

  ghost predicate RootsLinked(roots: RootMap, recs: set<Record>) {
    forall x {:trigger Linked(recs, x, roots[x])} | x in roots :: Linked(recs, x, roots[x])
  }

  /** What is linked has one root, and every root is linked to its sources. */
  ghost predicate Represents(roots: RootMap, recs: set<Record>) {
    RootsLinked(roots, recs) && forall r | r in recs :: UnitedIn(roots, r)
  }

  /** Two sources have the same root exactly when a chain of records links them. */
  lemma {:induction false} SameRootIffLinked(roots: RootMap, recs: set<Record>, a: string, b: string)
    requires Represents(roots, recs) && a in roots && b in roots
    ensures roots[a] == roots[b] <==> Linked(recs, a, b)
  {
    if roots[a] == roots[b] {
      LinkedSym(recs, b, roots[b]);
      LinkedTrans(recs, a, roots[a], b);
    }
    if Linked(recs, a, b) {
      var path :| |path| > 0 && path[0] == a && path[|path| - 1] == b && Chain(recs, path);
      forall r, c, d | r in recs && c in SourcesOf(r) && d in SourcesOf(r)
        ensures c in roots && d in roots && roots[c] == roots[d]
      {
        assert UnitedIn(roots, r);
      }
      LabelsFollowChains(recs, roots, path);
    }
  }

  lemma {:induction false} MoreRecordsStayLinked(roots: RootMap, some: set<Record>, more: set<Record>)
    requires RootsLinked(roots, some) && some <= more
    ensures RootsLinked(roots, more)
  {
    forall x | x in roots ensures Linked(more, x, roots[x]) {
      LinkedMono(some, more, x, roots[x]);
    }
  }

  /** Uniting the classes of two sources of one record keeps every class inside one component. */
  lemma {:induction false} UnitingStaysLinked(roots: RootMap, recs: set<Record>, r: Record, a: string, b: string)
    requires RootsLinked(roots, recs) && r in recs && a in SourcesOf(r) && b in SourcesOf(r) && a in roots && b in roots
    ensures RootsLinked(Unite(roots, roots[a], roots[b]), recs)
  {
    SharedIsLinked(recs, r, b, a);
    LinkedSym(recs, b, roots[b]);
    LinkedTrans(recs, roots[b], b, a);
    LinkedTrans(recs, roots[b], a, roots[a]);
    forall x | x in roots && roots[x] == roots[b] ensures Linked(recs, x, roots[a]) {
      LinkedTrans(recs, x, roots[b], roots[a]);
    }
  }

  lemma UnitingKeepsUnited(roots: RootMap, r: Record, lo: string, hi: string)
    requires UnitedIn(roots, r)
    ensures UnitedIn(Unite(roots, lo, hi), r)
  {
  }

  // ---- Building the plan ----------------------------------------------------------------------

  /** `attention_sources_of`: the attention sources in order. */
  method AttentionSourcesOf(r: Record) returns (srcs: seq<string>)
    ensures forall s :: s in srcs <==> s in SourcesOf(r)
    ensures forall s :: s in srcs <==> s in r.sources && "com.fulcra.attention." <= s
    ensures forall i, j | 0 <= i < j < |srcs| :: Less(srcs[i], srcs[j])
  {
    srcs := [];
    var rest := SourcesOf(r);
    while rest != {}
      invariant rest <= SourcesOf(r)
      invariant forall s :: s in srcs <==> s in SourcesOf(r) - rest
      invariant forall i, j | 0 <= i < j < |srcs| :: Less(srcs[i], srcs[j])
      invariant forall s, t | s in srcs && t in rest :: Less(s, t)
      decreases rest
    {
      var least := Least(rest);
      srcs := srcs + [least];
      rest := rest - {least};
    }
  }

  method Least(s: set<string>) returns (least: string)
    requires s != {}
    ensures least in s && forall x | x in s && x != least :: Less(least, x)
  {
    ghost var witness_ := LeastExists(s);
    least :| least in s && forall x | x in s :: x == least || Less(least, x);
  }

  method AddAll(forest: Forest, srcs: seq<string>, ghost recs: set<Record>, ghost all: set<Record>)
    requires WellFormed(forest.parent) && RootsLinked(Roots(forest.parent), all)
    requires forall q | q in recs :: UnitedIn(Roots(forest.parent), q)
    modifies forest
    ensures WellFormed(forest.parent) && RootsLinked(Roots(forest.parent), all)
    ensures forall q | q in recs :: UnitedIn(Roots(forest.parent), q)
    ensures forall s | s in srcs :: s in Roots(forest.parent)
  {
    for i := 0 to |srcs|
      invariant WellFormed(forest.parent) && RootsLinked(Roots(forest.parent), all)
      invariant forall q | q in recs :: UnitedIn(Roots(forest.parent), q)
      invariant forall j | 0 <= j < i :: srcs[j] in Roots(forest.parent)
    {
      ghost var roots := Roots(forest.parent);
      LinkedRefl(all, srcs[i]);
      if srcs[i] !in roots {
        forall q | q in recs ensures UnitedIn(roots[srcs[i] := srcs[i]], q) {
          assert UnitedIn(roots, q);
        }
      }
      forest.Add(srcs[i]);
    }
  }

  /** The roots agree on `srcs[..n]`. */
  ghost predicate Agree(roots: RootMap, srcs: seq<string>, n: nat)
    requires 0 < n <= |srcs|
  {
    && (forall j | 0 <= j < |srcs| :: srcs[j] in roots)
    && (forall j | 0 <= j < n :: roots[srcs[j]] == roots[srcs[0]])
  }

  ghost predicate UnionInv(roots: RootMap, recs: set<Record>, all: set<Record>) {
    RootsLinked(roots, all) && forall q | q in recs :: UnitedIn(roots, q)
  }

  lemma {:induction false} UniteStep(roots: RootMap, r: Record, recs: set<Record>, all: set<Record>, a: string,
                                     b: string)
    requires UnionInv(roots, recs, all) && r in all && a in SourcesOf(r) && b in SourcesOf(r) && a in roots
             && b in roots
    ensures UnionInv(Unite(roots, roots[a], roots[b]), recs, all)
  {
    UnitingStaysLinked(roots, all, r, a, b);
    forall q | q in recs ensures UnitedIn(Unite(roots, roots[a], roots[b]), q) {
      UnitingKeepsUnited(roots, q, roots[a], roots[b]);
    }
  }

  lemma AgreeStep(roots: RootMap, srcs: seq<string>, i: nat)
    requires 0 < i < |srcs| && Agree(roots, srcs, i)
    ensures Agree(Unite(roots, roots[srcs[0]], roots[srcs[i]]), srcs, i + 1)
    ensures Agree(Unite(roots, roots[srcs[i]], roots[srcs[0]]), srcs, i + 1)
  {
  }

  /** One union of two sources of a record, with everything the loop needs to know about it. */
  method UniteOne(forest: Forest, srcs: seq<string>, i: nat, ghost r: Record, ghost recs: set<Record>,
                  ghost all: set<Record>)
    requires WellFormed(forest.parent) && UnionInv(Roots(forest.parent), recs, all)
    requires 0 < i < |srcs| && srcs[0] in SourcesOf(r) && srcs[i] in SourcesOf(r) && r in all
    requires Agree(Roots(forest.parent), srcs, i)
    modifies forest
    ensures WellFormed(forest.parent) && UnionInv(Roots(forest.parent), recs, all)
    ensures Agree(Roots(forest.parent), srcs, i + 1)
  {
    ghost var roots := Roots(forest.parent);
    assert srcs[0] in roots && srcs[i] in roots;
    UniteStep(roots, r, recs, all, srcs[0], srcs[i]);
    UniteStep(roots, r, recs, all, srcs[i], srcs[0]);
    AgreeStep(roots, srcs, i);
    forest.Union(srcs[0], srcs[i]);
  }

  method UniteAll(forest: Forest, srcs: seq<string>, ghost r: Record, ghost recs: set<Record>, ghost all: set<Record>)
    requires WellFormed(forest.parent) && UnionInv(Roots(forest.parent), recs, all)
    requires forall j | 0 <= j < |srcs| :: srcs[j] in SourcesOf(r)
    requires r in all && |srcs| > 0 && Agree(Roots(forest.parent), srcs, 1)
    modifies forest
    ensures WellFormed(forest.parent) && UnionInv(Roots(forest.parent), recs, all)
    ensures Agree(Roots(forest.parent), srcs, |srcs|)
  {
    for i := 1 to |srcs|
      invariant WellFormed(forest.parent) && UnionInv(Roots(forest.parent), recs, all)
      invariant Agree(Roots(forest.parent), srcs, i)
    {
      UniteOne(forest, srcs, i, r, recs, all);
    }
  }

  /** One record enters the forest: its sources are added, then united with the first. */
  method Register(forest: Forest, srcs: seq<string>, ghost r: Record, ghost recs: set<Record>)
    requires WellFormed(forest.parent) && Represents(Roots(forest.parent), recs)
    requires |srcs| > 0 && forall s :: s in srcs <==> s in SourcesOf(r)
    modifies forest
    ensures WellFormed(forest.parent) && Represents(Roots(forest.parent), recs + {r})
  {
    ghost var all := recs + {r};
    MoreRecordsStayLinked(Roots(forest.parent), recs, all);
    AddAll(forest, srcs, recs, all);
    UniteAll(forest, srcs, r, recs, all);
    assert UnitedIn(Roots(forest.parent), r);
  }

  /** The first loop: admit records one by one, uniting the sources of each. */
  method Admit(records: seq<Record>) returns (forest: Forest, admitted: seq<Record>, firsts: seq<string>)
    ensures fresh(forest) && WellFormed(forest.parent)
    ensures admitted == Admitted(records) && |firsts| == |admitted|
    ensures forall j | 0 <= j < |admitted| :: firsts[j] in SourcesOf(admitted[j])
    ensures Represents(Roots(forest.parent), SetOf(admitted))
  {
    forest := new Forest();
    admitted, firsts := [], [];
    var seen: set<string> := {};
    for i := 0 to |records|
      invariant fresh(forest) && WellFormed(forest.parent)
      invariant admitted == Admitted(records[..i]) && |firsts| == |admitted|
      invariant seen == set r | r in admitted :: r.id
      invariant forall j | 0 <= j < |admitted| :: firsts[j] in SourcesOf(admitted[j])
      invariant Represents(Roots(forest.parent), SetOf(admitted))
    {
      var r := records[i];
      assert records[..i + 1][..i] == records[..i];
      var srcs := AttentionSourcesOf(r);
      if |srcs| > 0 && r.id != "" && r.id !in seen {
        assert srcs[0] in SourcesOf(r);
        seen := seen + {r.id};
        Register(forest, srcs, r, SetOf(admitted));
        assert SetOf(admitted + [r]) == SetOf(admitted) + {r};
        admitted, firsts := admitted + [r], firsts + [srcs[0]];
      } else {
        assert SourcesOf(r) == {} || r.id == "" || r.id in seen;
      }
    }
    assert records[..|records|] == records;
  }

  // ---- Groups ---------------------------------------------------------------------------------

  ghost predicate RootedAt(roots: RootMap, r: Record, sid: string) {
    exists a :: a in SourcesOf(r) && a in roots && roots[a] == sid
  }

  /** The admitted records whose root is `sid`, in order. */
  ghost function Group(roots: RootMap, admitted: seq<Record>, sid: string): seq<Record> {
    if admitted == [] then []
    else
      var r := admitted[|admitted| - 1];
      Group(roots, admitted[..|admitted| - 1], sid) + if RootedAt(roots, r, sid) then [r] else []
  }

  lemma {:induction false} GroupMembers(roots: RootMap, admitted: seq<Record>, sid: string)
    ensures forall r :: r in Group(roots, admitted, sid) <==> r in admitted && RootedAt(roots, r, sid)
  {
    if admitted != [] {
      var earlier, r := admitted[..|admitted| - 1], admitted[|admitted| - 1];
      GroupMembers(roots, earlier, sid);
      assert admitted == earlier + [r];
    }
  }

  lemma {:induction false} LastIdIsNew(rs: seq<Record>, q: Record)
    requires DistinctIds(rs) && rs != [] && q in rs[..|rs| - 1]
    ensures q.id != rs[|rs| - 1].id
  {
    var i :| 0 <= i < |rs| - 1 && rs[i] == q;
  }

  lemma {:induction false} GroupIsDistinct(roots: RootMap, admitted: seq<Record>, sid: string)
    requires DistinctIds(admitted)
    ensures DistinctIds(Group(roots, admitted, sid))
  {
    if admitted != [] {
      var earlier := admitted[..|admitted| - 1];
      GroupIsDistinct(roots, earlier, sid);
      GroupMembers(roots, earlier, sid);
      forall q | q in Group(roots, earlier, sid) ensures q.id != admitted[|admitted| - 1].id {
        LastIdIsNew(admitted, q);
      }
    }
  }

  ghost predicate GroupsOk(groups: map<string, seq<Record>>, roots: RootMap, admitted: seq<Record>) {
    forall sid :: (sid in groups <==> Group(roots, admitted, sid) != [])
               && (sid in groups ==> groups[sid] == Group(roots, admitted, sid))
  }

  lemma OneRoot(roots: RootMap, r: Record, first: string)
    requires UnitedIn(roots, r) && first in SourcesOf(r)
    ensures first in roots && forall sid :: RootedAt(roots, r, sid) <==> sid == roots[first]
  {
  }

  lemma {:induction false} GroupsGrow(groups: map<string, seq<Record>>, roots: RootMap, some: seq<Record>,
                                      r: Record, root: string)
    requires GroupsOk(groups, roots, some)
    requires forall sid :: RootedAt(roots, r, sid) <==> sid == root
    ensures GroupsOk(groups[root := (if root in groups then groups[root] else []) + [r]], roots, some + [r])
  {
    var more := some + [r];
    assert more[..|more| - 1] == some;
    forall sid ensures Group(roots, more, sid) == Group(roots, some, sid) + if sid == root then [r] else [] {
      assert RootedAt(roots, r, sid) <==> sid == root;
    }
  }

  /** The second loop: one group per root. */
  method GroupByRoot(forest: Forest, admitted: seq<Record>, firsts: seq<string>)
    returns (groups: map<string, seq<Record>>)
    requires WellFormed(forest.parent) && |firsts| == |admitted|
    requires forall j | 0 <= j < |admitted| :: firsts[j] in SourcesOf(admitted[j])
    requires Represents(Roots(forest.parent), SetOf(admitted))
    modifies forest
    ensures GroupsOk(groups, Roots(old(forest.parent)), admitted)
  {
    groups := map[];
    ghost var roots := Roots(forest.parent);
    for i := 0 to |admitted|
      invariant WellFormed(forest.parent) && Roots(forest.parent) == roots
      invariant GroupsOk(groups, roots, admitted[..i])
    {
      assert admitted[i] in SetOf(admitted) && UnitedIn(roots, admitted[i]);
      OneRoot(roots, admitted[i], firsts[i]);
      var root := forest.Find(firsts[i]);
      GroupsGrow(groups, roots, admitted[..i], admitted[i], root);
      assert admitted[..i + 1] == admitted[..i] + [admitted[i]];
      groups := groups[root := (if root in groups then groups[root] else []) + [admitted[i]]];
    }
    assert admitted[..|admitted|] == admitted;
  }

  /** A group is a visit. */
  lemma {:induction false} GroupIsVisit(roots: RootMap, admitted: seq<Record>, sid: string, r: Record, q: Record)
    requires Represents(roots, SetOf(admitted)) && r in admitted && q in admitted && RootedAt(roots, r, sid)
    ensures RootedAt(roots, q, sid) <==> SameVisit(SetOf(admitted), r, q)
  {
    var recs := SetOf(admitted);
    if RootedAt(roots, q, sid) {
      SameRootSameVisit(roots, recs, sid, r, q);
    }
    if SameVisit(recs, r, q) {
      SameVisitSameRoot(roots, recs, sid, r, q);
    }
  }

  lemma {:induction false} SameRootSameVisit(roots: RootMap, recs: set<Record>, sid: string, r: Record, q: Record)
    requires Represents(roots, recs) && RootedAt(roots, r, sid) && RootedAt(roots, q, sid)
    ensures SameVisit(recs, r, q)
  {
    var a :| a in SourcesOf(r) && a in roots && roots[a] == sid;
    var b :| b in SourcesOf(q) && b in roots && roots[b] == sid;
    SameRootIffLinked(roots, recs, a, b);
  }

  lemma {:induction false} SameVisitSameRoot(roots: RootMap, recs: set<Record>, sid: string, r: Record, q: Record)
    requires Represents(roots, recs) && r in recs && q in recs && RootedAt(roots, r, sid) && SameVisit(recs, r, q)
    ensures RootedAt(roots, q, sid)
  {
    assert UnitedIn(roots, r) && UnitedIn(roots, q);
    var c, d :| c in SourcesOf(r) && d in SourcesOf(q) && Linked(recs, c, d);
    SameRootIffLinked(roots, recs, c, d);
  }

  // ---- One group ------------------------------------------------------------------------------

  ghost predicate InOrder(recs: seq<Record>) {
    forall i, j {:trigger Before(recs[i], recs[j])} | 0 <= i < j < |recs| :: Before(recs[i], recs[j])
  }

  /** `sorted(recs, key=...)`, by insertion. */
  method SortRecords(recs: seq<Record>) returns (sorted: seq<Record>)
    requires DistinctIds(recs)
    ensures |sorted| == |recs| && InOrder(sorted)
    ensures forall r :: r in sorted <==> r in recs
  {
    sorted := [];
    for n := 0 to |recs|
      invariant |sorted| == n && InOrder(sorted)
      invariant forall r :: r in sorted <==> r in recs[..n]
    {
      var r := recs[n];
      var at := 0;
      while at < |sorted| && Before(sorted[at], r)
        invariant 0 <= at <= |sorted|
        invariant forall i | 0 <= i < at :: Before(sorted[i], r)
      {
        at := at + 1;
      }
      assert r.id !in set q | q in recs[..n] :: q.id;
      InsertInOrder(sorted, at, r);
      sorted := sorted[..at] + [r] + sorted[at..];
      assert recs[..n + 1] == recs[..n] + [r];
    }
    assert recs[..|recs|] == recs;
  }

  lemma {:induction false} InsertInOrder(sorted: seq<Record>, at: nat, r: Record)
    requires InOrder(sorted) && at <= |sorted|
    requires forall i | 0 <= i < at :: Before(sorted[i], r)
    requires at < |sorted| ==> !Before(sorted[at], r)
    requires forall q | q in sorted :: q.id != r.id
    ensures InOrder(sorted[..at] + [r] + sorted[at..])
    ensures forall q :: q in sorted[..at] + [r] + sorted[at..] <==> q in sorted || q == r
  {
    var grown := sorted[..at] + [r] + sorted[at..];
    assert sorted == sorted[..at] + sorted[at..];
    forall i | at <= i < |sorted| ensures Before(r, sorted[i]) {
      BeforeTotal(sorted[at], r);
      if at < i {
        assert Before(sorted[at], sorted[i]);
        BeforeTrans(r, sorted[at], sorted[i]);
      }
    }
    forall i, j | 0 <= i < j < |grown| ensures Before(grown[i], grown[j]) {
      if i < at && at < j { assert Before(sorted[i], sorted[j - 1]); }
      else if j < at { assert Before(sorted[i], sorted[j]); }
      else if at < i { assert Before(sorted[i - 1], sorted[j - 1]); }
    }
  }

  ghost predicate NoRepeats(ids: seq<string>) {
    forall i, j | 0 <= i < j < |ids| :: ids[i] != ids[j]
  }

  /** A whole visit, as a list. */
  ghost predicate IsVisit(recs: set<Record>, group: seq<Record>) {
    && group != [] && DistinctIds(group)
    && (forall r | r in group :: r in recs)
    && (forall r, q {:trigger SameVisit(recs, r, q)} | r in group && q in recs :: q in group <==> SameVisit(recs, r, q))
  }

  /** The ids of the records recorded at `at` (or, with `same` false, at another time). */
  function Matching(rs: seq<Record>, at: At, same: bool): seq<string> {
    if rs == [] then []
    else
      var r := rs[|rs| - 1];
      Matching(rs[..|rs| - 1], at, same) + if (r.at == at) == same then [r.id] else []
  }

  ghost predicate HasMatch(rs: seq<Record>, at: At, same: bool, id: string) {
    exists r :: r in rs && (r.at == at) == same && r.id == id
  }

  lemma {:induction false} MatchingIds(rs: seq<Record>, at: At, same: bool, id: string)
    ensures id in Matching(rs, at, same) <==> HasMatch(rs, at, same, id)
  {
    if rs != [] {
      var earlier, last := rs[..|rs| - 1], rs[|rs| - 1];
      MatchingIds(earlier, at, same, id);
      assert rs == earlier + [last];
    }
  }

  lemma {:induction false} MatchingIsDistinct(rs: seq<Record>, at: At, same: bool)
    requires DistinctIds(rs)
    ensures NoRepeats(Matching(rs, at, same))
  {
    if rs != [] {
      var earlier := rs[..|rs| - 1];
      MatchingIsDistinct(earlier, at, same);
      var front, last := Matching(earlier, at, same), rs[|rs| - 1];
      forall i | 0 <= i < |front| ensures front[i] != last.id {
        MatchingIds(earlier, at, same, front[i]);
        var r :| r in earlier && r.id == front[i];
        LastIdIsNew(rs, r);
      }
    }
  }

  /** The least record of a visit keeps it, and decides the fate of the others. */
  lemma {:induction false} LeastDecides(recs: set<Record>, group: seq<Record>, sorted: seq<Record>)
    requires Clean(recs) && IsVisit(recs, group) && InOrder(sorted) && |sorted| == |group|
    requires forall r :: r in sorted <==> r in group
    ensures Keeper(recs, sorted[0]) && sorted[0] in group
    ensures forall r | r in group :: Clone(recs, r) <==> r in sorted[1..] && r.at == sorted[0].at
    ensures forall r | r in group :: Diverged(recs, r) <==> r in sorted[1..] && r.at != sorted[0].at
  {
    var keeper := sorted[0];
    assert keeper in group;
    forall q | q in recs && SameVisit(recs, keeper, q) ensures q == keeper || Before(keeper, q) {
      var i :| 0 <= i < |sorted| && sorted[i] == q;
      assert i > 0 ==> Before(sorted[0], sorted[i]);
    }
    forall r | r in group
      ensures Clone(recs, r) <==> r in sorted[1..] && r.at == keeper.at
      ensures Diverged(recs, r) <==> r in sorted[1..] && r.at != keeper.at
    {
      OneFate(recs, r);
      assert SameVisit(recs, keeper, r);
      InTail(sorted, r);
    }
  }

  lemma {:induction false} InTail(sorted: seq<Record>, r: Record)
    requires InOrder(sorted) && r in sorted
    ensures r in sorted[1..] <==> r != sorted[0]
  {
    var i :| 0 <= i < |sorted| && sorted[i] == r;
    BeforeIrreflexive(sorted[0]);
    if i > 0 { assert sorted[1..][i - 1] == r; }
  }

  lemma {:induction false} SortedIsDistinct(recs: set<Record>, sorted: seq<Record>)
    requires Clean(recs) && InOrder(sorted) && forall r | r in sorted :: r in recs
    ensures DistinctIds(sorted)
  {
    forall i, j | 0 <= i < j < |sorted| ensures sorted[i].id != sorted[j].id {
      BeforeIrreflexive(sorted[i]);
      assert sorted[i] in recs && sorted[j] in recs;
    }
  }

  method SplitClones(sorted: seq<Record>) returns (clones: seq<string>, diverged: seq<string>)
    requires sorted != []
    ensures clones == Matching(sorted[1..], sorted[0].at, true)
    ensures diverged == Matching(sorted[1..], sorted[0].at, false)
  {
    clones, diverged := [], [];
    for n := 1 to |sorted|
      invariant clones == Matching(sorted[1..n], sorted[0].at, true)
      invariant diverged == Matching(sorted[1..n], sorted[0].at, false)
    {
      var r := sorted[n];
      assert sorted[1..n + 1][..n - 1] == sorted[1..n];
      if r.at == sorted[0].at { clones := clones + [r.id]; } else { diverged := diverged + [r.id]; }
    }
    assert sorted[1..|sorted|] == sorted[1..];
  }

  function IdSet(ids: seq<string>): set<string> {
    set id | id in ids
  }

  // The fates, under the whole input `recs`, of the records in `some`.
  ghost function KeepIn(recs: set<Record>, some: set<Record>): set<string> {
    set r | r in some && Keeper(recs, r) :: r.id
  }

  ghost function DeleteIn(recs: set<Record>, some: set<Record>): set<string> {
    set r | r in some && Clone(recs, r) :: r.id
  }

  ghost function SkipIn(recs: set<Record>, some: set<Record>): set<string> {
    set r | r in some && Diverged(recs, r) :: r.id
  }

  function RecordIds(rs: seq<Record>): seq<string> {
    seq(|rs|, i requires 0 <= i < |rs| => rs[i].id)
  }

  /** The ids of the skipped records among `some`, in the planner's order. */
  ghost predicate SkippedInOrder(recs: set<Record>, some: set<Record>, ids: seq<string>) {
    exists rs: seq<Record> ::
      InOrder(rs) && ids == RecordIds(rs) && forall r :: r in rs <==> r in some && Diverged(recs, r)
  }

  ghost predicate GroupPlanned(recs: set<Record>, group: seq<Record>, keeper: Record,
                               clones: seq<string>, diverged: seq<string>) {
    && keeper in group && KeepIn(recs, SetOf(group)) == {keeper.id} && Keeper(recs, keeper)
    && IdSet(clones) == DeleteIn(recs, SetOf(group)) && NoRepeats(clones)
    && IdSet(diverged) == SkipIn(recs, SetOf(group)) && SkippedInOrder(recs, SetOf(group), diverged)
  }

  function Filtered(rs: seq<Record>, at: At, same: bool): seq<Record> {
    if rs == [] then []
    else
      var r := rs[|rs| - 1];
      Filtered(rs[..|rs| - 1], at, same) + if (r.at == at) == same then [r] else []
  }

  lemma {:induction false} FilteredIds(rs: seq<Record>, at: At, same: bool)
    ensures RecordIds(Filtered(rs, at, same)) == Matching(rs, at, same)
  {
    if rs != [] { FilteredIds(rs[..|rs| - 1], at, same); }
  }

  lemma {:induction false} FilteredMembers(rs: seq<Record>, at: At, same: bool)
    ensures forall r :: r in Filtered(rs, at, same) <==> r in rs && (r.at == at) == same
  {
    if rs != [] {
      FilteredMembers(rs[..|rs| - 1], at, same);
      assert rs == rs[..|rs| - 1] + [rs[|rs| - 1]];
    }
  }

  lemma {:induction false} FilteredInOrder(rs: seq<Record>, at: At, same: bool)
    requires InOrder(rs)
    ensures InOrder(Filtered(rs, at, same))
  {
    hide Before;
    if rs != [] {
      var earlier, last := rs[..|rs| - 1], rs[|rs| - 1];
      forall i, j | 0 <= i < j < |earlier| ensures Before(earlier[i], earlier[j]) { assert Before(rs[i], rs[j]); }
      FilteredInOrder(earlier, at, same);
      FilteredMembers(earlier, at, same);
      var front := Filtered(earlier, at, same);
      forall i | 0 <= i < |front| ensures Before(front[i], last) {
        assert front[i] in earlier;
        var k :| 0 <= k < |earlier| && earlier[k] == front[i];
        assert Before(rs[k], rs[|rs| - 1]);
      }
    }
  }

  lemma {:induction false} TailInOrder(recs: set<Record>, group: seq<Record>, sorted: seq<Record>)
    requires sorted != [] && InOrder(sorted) && forall r :: r in sorted <==> r in group
    requires forall r | r in group :: Diverged(recs, r) <==> r in sorted[1..] && r.at != sorted[0].at
    ensures SkippedInOrder(recs, SetOf(group), Matching(sorted[1..], sorted[0].at, false))
  {
    var tail := sorted[1..];
    forall i, j | 0 <= i < j < |tail| ensures Before(tail[i], tail[j]) { assert Before(sorted[i + 1], sorted[j + 1]); }
    FilteredIds(tail, sorted[0].at, false);
    FilteredMembers(tail, sorted[0].at, false);
    FilteredInOrder(tail, sorted[0].at, false);
    assert forall r | r in tail :: r in sorted;
  }

  /** Keep the least record; of the others, those recorded when it was are clones. */
  method PlanGroup(group: seq<Record>, ghost recs: set<Record>)
    returns (keeper: Record, clones: seq<string>, diverged: seq<string>)
    requires Clean(recs) && IsVisit(recs, group)
    ensures GroupPlanned(recs, group, keeper, clones, diverged)
  {
    var sorted := SortRecords(group);
    LeastDecides(recs, group, sorted);
    keeper := sorted[0];
    clones, diverged := SplitClones(sorted);
    FatesOfTail(recs, group, sorted);
  }

  lemma {:induction false} FatesOfTail(recs: set<Record>, group: seq<Record>, sorted: seq<Record>)
    requires Clean(recs) && IsVisit(recs, group) && InOrder(sorted) && |sorted| == |group|
    requires forall r :: r in sorted <==> r in group
    ensures GroupPlanned(recs, group, sorted[0], Matching(sorted[1..], sorted[0].at, true),
                         Matching(sorted[1..], sorted[0].at, false))
  {
    LeastDecides(recs, group, sorted);
    SortedIsDistinct(recs, sorted);
    TailIsDistinct(sorted);
    MatchingIsDistinct(sorted[1..], sorted[0].at, true);
    TailIds(recs, group, sorted);
    TailInOrder(recs, group, sorted);
    OnlyKeeper(recs, group, sorted[0]);
  }

  lemma TailIsDistinct(sorted: seq<Record>)
    requires sorted != [] && DistinctIds(sorted)
    ensures DistinctIds(sorted[1..])
  {
  }

  lemma {:induction false} TailIds(recs: set<Record>, group: seq<Record>, sorted: seq<Record>)
    requires sorted != [] && forall r :: r in sorted <==> r in group
    requires forall r | r in group :: Clone(recs, r) <==> r in sorted[1..] && r.at == sorted[0].at
    requires forall r | r in group :: Diverged(recs, r) <==> r in sorted[1..] && r.at != sorted[0].at
    ensures IdSet(Matching(sorted[1..], sorted[0].at, true)) == DeleteIn(recs, SetOf(group))
    ensures IdSet(Matching(sorted[1..], sorted[0].at, false)) == SkipIn(recs, SetOf(group))
  {
    var tail, at := sorted[1..], sorted[0].at;
    assert forall r | r in tail :: r in sorted;
    forall id
      ensures id in Matching(tail, at, true) <==> id in DeleteIn(recs, SetOf(group))
      ensures id in Matching(tail, at, false) <==> id in SkipIn(recs, SetOf(group))
    {
      MatchingIds(tail, at, true, id);
      MatchingIds(tail, at, false, id);
    }
  }

  lemma {:induction false} OnlyKeeper(recs: set<Record>, group: seq<Record>, keeper: Record)
    requires IsVisit(recs, group) && keeper in group && Keeper(recs, keeper)
    ensures KeepIn(recs, SetOf(group)) == {keeper.id}
  {
    forall r | r in group && Keeper(recs, r) ensures r == keeper {
      KeeperUnique(recs, keeper, r);
    }
  }

  // ---- The plan -------------------------------------------------------------------------------

  /** `sid` is linked to every source of the record. */
  ghost predicate Names(recs: set<Record>, r: Record, sid: string) {
    forall a {:trigger Linked(recs, a, sid)} | a in SourcesOf(r) :: Linked(recs, a, sid)
  }

  /** The least attention source of a visit: no source linked to it comes before it. */
  ghost predicate IsLeastSource(recs: set<Record>, sid: string) {
    forall r, b {:trigger b in SourcesOf(r), Linked(recs, sid, b)}
      | r in recs && b in SourcesOf(r) && Linked(recs, sid, b) ::
      b == sid || Less(sid, b)
  }

  ghost predicate KeptUnder(recs: set<Record>, sid: string, id: string) {
    exists k :: Keeper(recs, k) && k.id == id && Names(recs, k, sid) && IsLeastSource(recs, sid)
  }

  /** Every visit is filed under its least source, with its keeper's id. */
  ghost predicate FiledRight(recs: set<Record>, keep: map<string, string>) {
    forall sid | sid in keep :: KeptUnder(recs, sid, keep[sid])
  }

  function SkippedIds(skipped: map<string, seq<string>>): set<string> {
    set sid, id | sid in skipped && id in skipped[sid] :: id
  }

  /** The records of the visit named `sid`. */
  ghost function VisitOf(recs: set<Record>, sid: string): set<Record> {
    set r | r in recs && Names(recs, r, sid)
  }

  /** Every list of skipped ids is filed under the least source of its visit, complete and in order. */
  ghost predicate SkippedRight(recs: set<Record>, skipped: map<string, seq<string>>) {
    forall sid | sid in skipped ::
      skipped[sid] != [] && IsLeastSource(recs, sid) && SkippedInOrder(recs, VisitOf(recs, sid), skipped[sid])
  }

  /** What a plan over the records `recs` holds. */
  ghost predicate Describes(recs: set<Record>, plan: Plan) {
    && FiledRight(recs, plan.keep) && plan.keep.Values == KeepIds(recs)
    && IdSet(plan.delete) == DeleteIds(recs) && NoRepeats(plan.delete)
    && SkippedIds(plan.skipped) == SkipIds(recs) && SkippedRight(recs, plan.skipped)
  }

  /** The plan so far, over the records of the groups already visited. */
  ghost predicate Covers(recs: set<Record>, covered: set<Record>, plan: Plan) {
    && FiledRight(recs, plan.keep) && plan.keep.Values == KeepIn(recs, covered)
    && IdSet(plan.delete) == DeleteIn(recs, covered) && NoRepeats(plan.delete)
    && SkippedIds(plan.skipped) == SkipIn(recs, covered) && SkippedRight(recs, plan.skipped)
  }

  /** A record is covered once the group of its root is. */
  ghost predicate CoveredBy(roots: RootMap, recs: set<Record>, done: set<string>, covered: set<Record>) {
    && covered <= recs
    && forall r | r in recs :: r in covered <==> exists sid :: sid in done && RootedAt(roots, r, sid)
  }

  /** What the first two loops established about the groups. */
  ghost predicate Grouped(roots: RootMap, admitted: seq<Record>, groups: map<string, seq<Record>>) {
    && Clean(SetOf(admitted)) && DistinctIds(admitted) && Descends(roots)
    && Represents(roots, SetOf(admitted)) && GroupsOk(groups, roots, admitted)
  }

  /** `build_plan`. */
  method BuildPlan(records: seq<Record>) returns (plan: Plan)
    ensures Describes(SetOf(Admitted(records)), plan)
    ensures plan.total == |Admitted(records)|
  {
    var forest, admitted, firsts := Admit(records);
    ghost var roots := Roots(forest.parent);
    RootsDescend(forest.parent);
    AdmittedIsClean(records);
    AdmittedSetIsClean(records);
    var groups := GroupByRoot(forest, admitted, firsts);
    plan := PlanGroups(groups, |admitted|, roots, admitted);
  }

  /** The third loop: a keeper, the clones and the diverged records of every group. */
  method PlanGroups(groups: map<string, seq<Record>>, total: nat, ghost roots: RootMap, ghost admitted: seq<Record>)
    returns (plan: Plan)
    requires Grouped(roots, admitted, groups)
    ensures Describes(SetOf(admitted), plan) && plan.total == total
  {
    plan := Plan(total, map[], [], map[]);
    var pending := groups.Keys;
    ghost var recs := SetOf(admitted);
    ghost var done: set<string>, covered: set<Record> := {}, {};
    while pending != {}
      invariant done !! pending && done + pending == groups.Keys
      invariant plan.total == total && plan.keep.Keys == done && plan.skipped.Keys <= done
      invariant CoveredBy(roots, recs, done, covered)
      invariant Covers(recs, covered, plan)
      decreases pending
    {
      var sid :| sid in pending;
      plan := PlanNext(groups, sid, plan, done, covered, roots, admitted);
      covered := covered + SetOf(groups[sid]);
      pending, done := pending - {sid}, done + {sid};
    }
    assert done == groups.Keys;
    EveryRecordCovered(roots, admitted, groups, covered);
  }

  /** One group: planned by itself, then added to the plan. */
  method PlanNext(groups: map<string, seq<Record>>, sid: string, plan: Plan, ghost done: set<string>,
                  ghost covered: set<Record>, ghost roots: RootMap, ghost admitted: seq<Record>) returns (next: Plan)
    requires Grouped(roots, admitted, groups) && sid in groups && sid !in done
    requires plan.keep.Keys == done && plan.skipped.Keys <= done
    requires CoveredBy(roots, SetOf(admitted), done, covered) && Covers(SetOf(admitted), covered, plan)
    ensures CoveredBy(roots, SetOf(admitted), done + {sid}, covered + SetOf(groups[sid]))
    ensures Covers(SetOf(admitted), covered + SetOf(groups[sid]), next)
    ensures next.total == plan.total && next.keep.Keys == done + {sid} && next.skipped.Keys <= done + {sid}
  {
    var group := groups[sid];
    GroupIsWholeVisit(roots, admitted, sid);
    var keeper, clones, diverged := PlanGroup(group, SetOf(admitted));
    next := Plan(plan.total, plan.keep[sid := keeper.id], plan.delete + clones,
                 if diverged == [] then plan.skipped else plan.skipped[sid := diverged]);
    CoverageGrows(roots, admitted, groups, done, covered, sid);
    KeeperIsFiled(roots, admitted, groups, sid, keeper);
    GroupIsNamed(roots, admitted, groups, sid);
    PlanGrows(SetOf(admitted), covered, plan, sid, group, keeper, clones, diverged, next);
  }

  lemma {:induction false} GroupIsWholeVisit(roots: RootMap, admitted: seq<Record>, sid: string)
    requires Represents(roots, SetOf(admitted)) && DistinctIds(admitted) && Group(roots, admitted, sid) != []
    ensures IsVisit(SetOf(admitted), Group(roots, admitted, sid))
  {
    var group := Group(roots, admitted, sid);
    GroupMembers(roots, admitted, sid);
    GroupIsDistinct(roots, admitted, sid);
    forall r, q | r in group && q in SetOf(admitted) ensures q in group <==> SameVisit(SetOf(admitted), r, q) {
      GroupIsVisit(roots, admitted, sid, r, q);
    }
  }

  lemma {:induction false} CoverageGrows(roots: RootMap, admitted: seq<Record>, groups: map<string, seq<Record>>,
                                         done: set<string>,
                      covered: set<Record>, sid: string)
    requires Grouped(roots, admitted, groups) && sid in groups && sid !in done
    requires CoveredBy(roots, SetOf(admitted), done, covered)
    ensures CoveredBy(roots, SetOf(admitted), done + {sid}, covered + SetOf(groups[sid]))
    ensures covered !! SetOf(groups[sid])
  {
    var recs, more := SetOf(admitted), done + {sid};
    GroupMembers(roots, admitted, sid);
    forall r | r in recs
      ensures (exists s :: s in more && RootedAt(roots, r, s)) <==> r in covered || RootedAt(roots, r, sid)
      ensures r in covered ==> !RootedAt(roots, r, sid)
    {
      if s :| s in more && RootedAt(roots, r, s) { assert s in done || s == sid; }
      if s :| s in done && RootedAt(roots, r, s) {
        assert s in more && UnitedIn(roots, r);
        OneRootOnly(roots, r, s, sid);
      }
      assert sid in more;
    }
  }

  lemma OneRootOnly(roots: RootMap, r: Record, s: string, t: string)
    requires UnitedIn(roots, r) && RootedAt(roots, r, s) && s != t
    ensures !RootedAt(roots, r, t)
  {
  }

  /** The root of a record names its visit, and is its least source. */
  lemma {:induction false} KeeperIsFiled(roots: RootMap, admitted: seq<Record>, groups: map<string, seq<Record>>,
                                         sid: string, keeper: Record)
    requires Grouped(roots, admitted, groups) && sid in groups && keeper in groups[sid]
             && Keeper(SetOf(admitted), keeper)
    ensures KeptUnder(SetOf(admitted), sid, keeper.id)
  {
    var recs := SetOf(admitted);
    GroupMembers(roots, admitted, sid);
    var a :| a in SourcesOf(keeper) && a in roots && roots[a] == sid;
    RootIsLeast(roots, recs, a);
    RootNames(roots, recs, keeper, a);
  }

  lemma {:induction false} RootedIffNamed(roots: RootMap, recs: set<Record>, r: Record, b: string)
    requires Represents(roots, recs) && r in recs && SourcesOf(r) != {} && b in roots
    ensures RootedAt(roots, r, roots[b]) <==> Names(recs, r, roots[b])
  {
    assert UnitedIn(roots, r);
    var sid := roots[b];
    if RootedAt(roots, r, sid) {
      var c :| c in SourcesOf(r) && c in roots && roots[c] == sid;
      RootNames(roots, recs, r, c);
    }
    if Names(recs, r, sid) {
      var a :| a in SourcesOf(r);
      assert Linked(recs, a, sid) && Linked(recs, b, roots[b]);
      LinkedSym(recs, b, sid);
      LinkedTrans(recs, a, sid, b);
      SameRootIffLinked(roots, recs, a, b);
    }
  }

  lemma {:induction false} GroupRoot(roots: RootMap, admitted: seq<Record>, sid: string) returns (b: string)
    requires Group(roots, admitted, sid) != []
    ensures b in roots && roots[b] == sid
  {
    GroupMembers(roots, admitted, sid);
    var r := Group(roots, admitted, sid)[0];
    assert r in Group(roots, admitted, sid);
    b :| b in SourcesOf(r) && b in roots && roots[b] == sid;
  }

  /** A group is the visit its root names. */
  lemma {:induction false} GroupIsNamed(roots: RootMap, admitted: seq<Record>, groups: map<string, seq<Record>>,
                                        sid: string)
    requires Grouped(roots, admitted, groups) && sid in groups
    ensures SetOf(groups[sid]) == VisitOf(SetOf(admitted), sid) && IsLeastSource(SetOf(admitted), sid)
  {
    hide RootedAt, Names, IsLeastSource, Represents, UnitedIn, Group, Descends;
    var recs := SetOf(admitted);
    GroupMembers(roots, admitted, sid);
    var b := GroupRoot(roots, admitted, sid);
    RootIsLeast(roots, recs, b);
    forall r | r in recs ensures RootedAt(roots, r, sid) <==> Names(recs, r, sid) {
      assert Eligible(r);
      RootedIffNamed(roots, recs, r, b);
    }
  }

  lemma {:induction false} RootNames(roots: RootMap, recs: set<Record>, r: Record, a: string)
    requires RootsLinked(roots, recs) && UnitedIn(roots, r) && a in SourcesOf(r)
    ensures a in roots && Names(recs, r, roots[a])
  {
    forall b | b in SourcesOf(r) ensures Linked(recs, b, roots[a]) {
      assert roots[b] == roots[a] && Linked(recs, b, roots[b]);
    }
  }

  lemma {:induction false} RootIsLeast(roots: RootMap, recs: set<Record>, a: string)
    requires Represents(roots, recs) && Descends(roots) && a in roots
    ensures IsLeastSource(recs, roots[a])
  {
    var sid := roots[a];
    forall r, b | r in recs && b in SourcesOf(r) && Linked(recs, sid, b) ensures b == sid || Less(sid, b) {
      assert UnitedIn(roots, r);
      LinkedTrans(recs, a, sid, b);
      SameRootIffLinked(roots, recs, a, b);
    }
  }

  lemma {:induction false} PlanGrows(recs: set<Record>, covered: set<Record>, plan: Plan, sid: string,
                                     group: seq<Record>,
                  keeper: Record, clones: seq<string>, diverged: seq<string>, next: Plan)
    requires Clean(recs) && covered <= recs && SetOf(group) <= recs && covered !! SetOf(group)
    requires Covers(recs, covered, plan) && sid !in plan.keep && sid !in plan.skipped
    requires GroupPlanned(recs, group, keeper, clones, diverged) && KeptUnder(recs, sid, keeper.id)
    requires SetOf(group) == VisitOf(recs, sid) && IsLeastSource(recs, sid)
    requires next == Plan(plan.total, plan.keep[sid := keeper.id], plan.delete + clones,
                          if diverged == [] then plan.skipped else plan.skipped[sid := diverged])
    ensures Covers(recs, covered + SetOf(group), next)
  {
    FatesAdd(recs, covered, SetOf(group));
    ValuesAdd(plan.keep, sid, keeper.id);
    SkippedAdd(plan.skipped, sid, diverged);
    assert IdSet(plan.delete + clones) == IdSet(plan.delete) + IdSet(clones);
    DisjointDeletes(recs, covered, SetOf(group));
    forall id | id in plan.delete ensures id !in clones {
      assert id in IdSet(plan.delete);
    }
    JoinedNoRepeats(plan.delete, clones);
  }

  lemma FatesAdd(recs: set<Record>, a: set<Record>, b: set<Record>)
    ensures KeepIn(recs, a + b) == KeepIn(recs, a) + KeepIn(recs, b)
    ensures DeleteIn(recs, a + b) == DeleteIn(recs, a) + DeleteIn(recs, b)
    ensures SkipIn(recs, a + b) == SkipIn(recs, a) + SkipIn(recs, b)
  {
  }

  lemma DisjointDeletes(recs: set<Record>, a: set<Record>, b: set<Record>)
    requires Clean(recs) && a <= recs && b <= recs && a !! b
    ensures DeleteIn(recs, a) !! DeleteIn(recs, b)
  {
  }

  lemma {:induction false} ValuesAdd(keep: map<string, string>, sid: string, id: string)
    requires sid !in keep
    ensures keep[sid := id].Values == keep.Values + {id}
  {
    var more := keep[sid := id];
    forall x ensures x in more.Values <==> x in keep.Values + {id} {
      if x in keep.Values { var s :| s in keep && keep[s] == x; assert more[s] == x; }
      assert more[sid] == id;
    }
  }

  lemma {:induction false} SkippedAdd(skipped: map<string, seq<string>>, sid: string, diverged: seq<string>)
    requires sid !in skipped
    ensures SkippedIds(if diverged == [] then skipped else skipped[sid := diverged])
         == SkippedIds(skipped) + IdSet(diverged)
  {
    var more := if diverged == [] then skipped else skipped[sid := diverged];
    forall id ensures id in SkippedIds(more) <==> id in SkippedIds(skipped) + IdSet(diverged) {
      if id in SkippedIds(skipped) { var s :| s in skipped && id in skipped[s]; assert s in more && id in more[s]; }
      if id in diverged { assert sid in more && id in more[sid]; }
    }
  }

  lemma {:induction false} JoinedNoRepeats(a: seq<string>, b: seq<string>)
    requires NoRepeats(a) && NoRepeats(b) && forall x | x in a :: x !in b
    ensures NoRepeats(a + b)
  {
    var c := a + b;
    forall i, j | 0 <= i < j < |c| ensures c[i] != c[j] {
      if i < |a| <= j { assert c[i] in a && c[j] in b; }
    }
  }

  /** Every admitted record is in some group. */
  lemma {:induction false} EveryRecordCovered(roots: RootMap, admitted: seq<Record>,
                                              groups: map<string, seq<Record>>, covered: set<Record>)
    requires Grouped(roots, admitted, groups) && CoveredBy(roots, SetOf(admitted), groups.Keys, covered)
    ensures covered == SetOf(admitted)
  {
    forall r | r in SetOf(admitted) ensures r in covered {
      assert Eligible(r) && UnitedIn(roots, r);
      var a :| a in SourcesOf(r);
      assert RootedAt(roots, r, roots[a]);
      GroupMembers(roots, admitted, roots[a]);
      assert r in Group(roots, admitted, roots[a]);
      assert roots[a] in groups.Keys;
    }
  }

  // ---- The plan as a whole --------------------------------------------------------------------

  /** What is linked to a source of the records is itself a source of the records. */
  lemma {:induction false} LinkedEndIsSource(recs: set<Record>, r: Record, a: string, b: string) returns (q: Record)
    requires r in recs && a in SourcesOf(r) && Linked(recs, a, b)
    ensures q in recs && b in SourcesOf(q)
  {
    var path :| |path| > 0 && path[0] == a && path[|path| - 1] == b && Chain(recs, path);
    if |path| == 1 {
      q := r;
    } else {
      assert Shares(recs, path[|path| - 2], path[|path| - 1]);
      q :| q in recs && path[|path| - 2] in SourcesOf(q) && path[|path| - 1] in SourcesOf(q);
    }
  }

  /** A visit has one name. */
  lemma {:induction false} NameIsUnique(recs: set<Record>, k: Record, s: string, t: string)
    requires Clean(recs) && k in recs && Names(recs, k, s) && Names(recs, k, t)
    requires IsLeastSource(recs, s) && IsLeastSource(recs, t)
    ensures s == t
  {
    var a :| a in SourcesOf(k);
    var p := LinkedEndIsSource(recs, k, a, s);
    var q := LinkedEndIsSource(recs, k, a, t);
    LinkedSym(recs, a, s);
    LinkedTrans(recs, s, a, t);
    LinkedSym(recs, s, t);
    if s != t {
      Transitive(s, t, s);
      Irreflexive(s);
    }
  }

  lemma {:induction false} FiledAlike(recs: set<Record>, p: Plan, q: Plan, sid: string)
    requires Clean(recs) && Describes(recs, p) && Describes(recs, q) && sid in p.keep
    ensures sid in q.keep && q.keep[sid] == p.keep[sid]
  {
    assert KeptUnder(recs, sid, p.keep[sid]);
    var k :| Keeper(recs, k) && k.id == p.keep[sid] && Names(recs, k, sid) && IsLeastSource(recs, sid);
    assert k.id in KeepIds(recs);
    var other :| other in q.keep && q.keep[other] == k.id;
    assert KeptUnder(recs, other, k.id);
    var l :| Keeper(recs, l) && l.id == k.id && Names(recs, l, other) && IsLeastSource(recs, other);
    assert l == k;
    NameIsUnique(recs, k, sid, other);
  }

  /** The same records in another order, or fetched twice, give the same plan. */
  lemma {:induction false} PlanIgnoresOrder(records: seq<Record>, shuffled: seq<Record>, p: Plan, q: Plan)
    requires Consistent(records) && forall r :: r in records <==> r in shuffled
    requires Describes(SetOf(Admitted(records)), p) && Describes(SetOf(Admitted(shuffled)), q)
    ensures p.keep == q.keep && IdSet(p.delete) == IdSet(q.delete) && SkippedIds(p.skipped) == SkippedIds(q.skipped)
    ensures |p.delete| == |q.delete|
  {
    AdmissionIgnoresOrder(records, shuffled);
    AdmittedSetIsClean(records);
    var recs := SetOf(Admitted(records));
    forall sid ensures sid in p.keep <==> sid in q.keep {
      if sid in p.keep { FiledAlike(recs, p, q, sid); }
      if sid in q.keep { FiledAlike(recs, q, p, sid); }
    }
    forall sid | sid in p.keep ensures p.keep[sid] == q.keep[sid] { FiledAlike(recs, p, q, sid); }
    LengthOfDistinct(p.delete);
    LengthOfDistinct(q.delete);
  }

  lemma {:induction false} LengthOfDistinct(ids: seq<string>)
    requires NoRepeats(ids)
    ensures |IdSet(ids)| == |ids|
  {
    if ids != [] {
      var front, last := ids[..|ids| - 1], ids[|ids| - 1];
      LengthOfDistinct(front);
      assert IdSet(ids) == IdSet(front) + {last} && last !in front;
    }
  }

  // ---- Where re-planning does delete ------------------------------------------------------------

  /**
   * Four records of one visit: `k` is kept, its clone `c` bridges the sources `a` and `b`, and
   * `d`, `e` carry only `b` and were both recorded at another time.
   */
  ghost predicate Bridged(k: Record, c: Record, d: Record, e: Record, a: string, b: string) {
    && a != b && SourcesOf(k) == {a} && SourcesOf(c) == {a, b} && SourcesOf(d) == SourcesOf(e) == {b}
    && k.id != "" && c.id != "" && d.id != "" && e.id != ""
    && k.id != c.id && k.id != d.id && k.id != e.id && c.id != d.id && c.id != e.id && d.id != e.id
    && Before(k, c) && Before(k, d) && Before(k, e) && Before(d, e)
    && k.at == c.at && d.at == e.at && k.at != d.at
  }

  lemma {:induction false} BridgedVisit(k: Record, c: Record, d: Record, e: Record, a: string, b: string)
    requires Bridged(k, c, d, e, a, b)
    ensures SameVisit({k, c, d, e}, k, c) && SameVisit({k, c, d, e}, k, d) && SameVisit({k, c, d, e}, k, e)
    ensures Keeper({k, c, d, e}, k)
  {
    SharedIsLinked({k, c, d, e}, c, a, b);
    LinkedRefl({k, c, d, e}, a);
  }

  lemma {:induction false} DivergedNotClone(recs: set<Record>, k: Record, d: Record)
    requires Clean(recs) && Keeper(recs, k) && d in recs && SameVisit(recs, k, d) && k.at != d.at
    ensures Diverged(recs, d) && !Clone(recs, d)
  {
    OneFate(recs, d);
  }

  lemma {:induction false} SurvivorsOf(recs: set<Record>, c: Record)
    requires Clean(recs) && c in recs && forall r | r in recs :: Clone(recs, r) <==> r == c
    ensures Survivors(recs) == recs - {c}
  {
    assert DeleteIds(recs) == {c.id};
  }

  lemma {:induction false} BridgedFates(recs: set<Record>, k: Record, c: Record, d: Record, e: Record, a: string,
                                        b: string)
    requires Bridged(k, c, d, e, a, b) && Clean(recs)
    requires forall r :: r in recs <==> r == k || r == c || r == d || r == e
    ensures Diverged(recs, e) && forall r | r in recs :: Clone(recs, r) <==> r == c
  {
    assert recs == {k, c, d, e};
    BridgedVisit(k, c, d, e, a, b);
    DivergedNotClone(recs, k, d);
    DivergedNotClone(recs, k, e);
    OneFate(recs, k);
    assert Clone(recs, c);
  }

  lemma {:induction false} SplitVisit(k: Record, c: Record, d: Record, e: Record, a: string, b: string)
    requires Bridged(k, c, d, e, a, b)
    ensures SameVisit({k, d, e}, d, e) && !SameVisit({k, d, e}, d, k)
  {
    var left := {k, d, e};
    LinkedRefl(left, b);
    if Linked(left, b, a) {
      var path :| |path| > 0 && path[0] == b && path[|path| - 1] == a && Chain(left, path);
      LabelsFollowChains(left, map[a := 0, b := 1], path);
    }
  }

  /**
   * With something skipped, planning again can delete what was skipped before: the bridge is a
   * clone and goes, which splits the visit, and the diverged records become clones of each other.
   */
  lemma {:induction false} ReplanCanDeleteSkipped(k: Record, c: Record, d: Record, e: Record, a: string, b: string)
    requires Bridged(k, c, d, e, a, b)
    ensures var recs := {k, c, d, e};
            Clean(recs) && e.id in SkipIds(recs) && e.id in DeleteIds(Survivors(recs))
  {
    var recs := {k, c, d, e};
    BridgedIsClean(k, c, d, e, a, b);
    BridgedFates(recs, k, c, d, e, a, b);
    SurvivorsOf(recs, c);
    SplitVisit(k, c, d, e, a, b);
    SplitTwin(recs, k, c, d, e, a, b);
    assert e.id in SkipIds(recs);
    ReplanDeletesIff(recs, e);
  }

  /** Without the bridge the diverged records are a visit of their own. */
  lemma {:induction false} LeastOfSplit(k: Record, c: Record, d: Record, e: Record, a: string, b: string,
                                        left: set<Record>)
    requires Bridged(k, c, d, e, a, b) && left == {k, c, d, e} - {c}
    ensures Keeper(left, d) && SameVisit(left, d, e)
  {
    assert left == {k, d, e};
    SplitVisit(k, c, d, e, a, b);
  }

  lemma {:induction false} SplitTwin(recs: set<Record>, k: Record, c: Record, d: Record, e: Record, a: string,
                                     b: string)
    requires Bridged(k, c, d, e, a, b) && Clean(recs) && recs == {k, c, d, e} && Survivors(recs) == recs - {c}
    ensures HasTwin(recs, e) && CutOff(recs, e)
  {
    hide Clean, Keeper, SameVisit, Survivors, CutOff;
    LeastOfSplit(k, c, d, e, a, b, recs - {c});
    TwinIsCutOff(recs, e, d);
  }

  lemma BridgedIsClean(k: Record, c: Record, d: Record, e: Record, a: string, b: string)
    requires Bridged(k, c, d, e, a, b)
    ensures Clean({k, c, d, e})
  {
  }

  /** Such records exist. */
  lemma {:induction false} BridgedExists()
    ensures exists k, c, d, e, a, b :: Bridged(k, c, d, e, a, b)
  {
    var a, b := ATTENTION_PREFIX + "a", ATTENTION_PREFIX + "b";
    assert a[|ATTENTION_PREFIX|] == 'a' && b[|ATTENTION_PREFIX|] == 'b';
    var k, c := Record("1", At(Some("0"), ""), [a]), Record("2", At(Some("0"), ""), [a, b]);
    var d, e := Record("3", At(Some("1"), ""), [b]), Record("4", At(Some("1"), ""), [b]);
    assert Bridged(k, c, d, e, a, b);
  }
}
