/**
 * Visits: the connected components of records over shared attention sources, and which record of
 * a visit is kept (packages/attention/scripts/cleanup_attention_dups.py).  Everything here is
 * stated over the set of eligible records, so it cannot depend on the order they arrive in.
 */
module DupVisits {
  import opened Wrappers
  import opened StringOrder

  const ATTENTION_PREFIX := "com.fulcra.attention."

  /** `recorded_at`: its start time, and everything else the JSON comparison sees. */
  datatype At = At(start: Option<string>, rest: string)

  datatype Record = Record(id: string, at: At, sources: seq<string>)

  function StartOf(r: Record): string {
    if r.at.start.Some? then r.at.start.value else ""
  }

  /** `attention_sources_of`, as a set. */
  function SourcesOf(r: Record): set<string> {
    set s | s in r.sources && ATTENTION_PREFIX <= s
  }

  predicate Eligible(r: Record) {
    SourcesOf(r) != {} && r.id != ""
  }

  /** A set of records as the planner sees it: eligible, and one record per id. */
  ghost predicate Clean(recs: set<Record>) {
    && (forall r | r in recs :: Eligible(r))
    && (forall r, q | r in recs && q in recs && r.id == q.id :: r == q)
  }

  // ---- Chains of shared sources ---------------------------------------------------------------

  /** Some record carries both sources. */
  ghost predicate Shares(recs: set<Record>, a: string, b: string) {
    exists r :: r in recs && a in SourcesOf(r) && b in SourcesOf(r)
  }

  ghost predicate Chain(recs: set<Record>, path: seq<string>) {
    forall i, j {:trigger Shares(recs, path[i], path[j])} | 0 <= i && j == i + 1 < |path| ::
      Shares(recs, path[i], path[j])
  }

  /** A chain of records, each sharing a source with the next, leads from `a` to `b`. */
  ghost predicate Linked(recs: set<Record>, a: string, b: string) {
    exists path :: |path| > 0 && path[0] == a && path[|path| - 1] == b && Chain(recs, path)
  }

  lemma {:induction false} LinkedRefl(recs: set<Record>, a: string)
    ensures Linked(recs, a, a)
  {
    assert Chain(recs, [a]);
  }

  lemma {:induction false} SharedIsLinked(recs: set<Record>, r: Record, a: string, b: string)
    requires r in recs && a in SourcesOf(r) && b in SourcesOf(r)
    ensures Linked(recs, a, b)
  {
    assert Shares(recs, a, b);
    assert Chain(recs, [a, b]);
  }

  lemma {:induction false} LinkedTrans(recs: set<Record>, a: string, b: string, c: string)
    requires Linked(recs, a, b) && Linked(recs, b, c)
    ensures Linked(recs, a, c)
  {
    var p :| |p| > 0 && p[0] == a && p[|p| - 1] == b && Chain(recs, p);
    var q :| |q| > 0 && q[0] == b && q[|q| - 1] == c && Chain(recs, q);
    var path := p + q[1..];
    forall i, j | 0 <= i && j == i + 1 < |path| ensures Shares(recs, path[i], path[j]) {
      if j < |p| {
        assert Shares(recs, p[i], p[j]);
      } else {
        assert path[i] == q[i - |p| + 1] && path[j] == q[j - |p| + 1];
        assert Shares(recs, q[i - |p| + 1], q[j - |p| + 1]);
      }
    }
    assert Chain(recs, path);
    assert path[|path| - 1] == c;
  }

  lemma {:induction false} LinkedSym(recs: set<Record>, a: string, b: string)
    requires Linked(recs, a, b)
    ensures Linked(recs, b, a)
  {
    var p :| |p| > 0 && p[0] == a && p[|p| - 1] == b && Chain(recs, p);
    var q := seq(|p|, i requires 0 <= i < |p| => p[|p| - 1 - i]);
    forall i, j | 0 <= i && j == i + 1 < |q| ensures Shares(recs, q[i], q[j]) {
      assert Shares(recs, p[|p| - 1 - j], p[|p| - 1 - i]);
    }
    assert Chain(recs, q);
  }

  lemma {:induction false} LinkedMono(some: set<Record>, more: set<Record>, a: string, b: string)
    requires some <= more && Linked(some, a, b)
    ensures Linked(more, a, b)
  {
    var p :| |p| > 0 && p[0] == a && p[|p| - 1] == b && Chain(some, p);
    forall i, j | 0 <= i && j == i + 1 < |p| ensures Shares(more, p[i], p[j]) {
      assert Shares(some, p[i], p[j]);
    }
    assert Chain(more, p);
  }

  /** A labelling that is constant on every record is constant along every chain. */
  lemma {:induction false} LabelsFollowChains<L>(recs: set<Record>, mark: map<string, L>, path: seq<string>)
    requires |path| > 0 && Chain(recs, path) && path[0] in mark
    requires forall r, a, b | r in recs && a in SourcesOf(r) && b in SourcesOf(r) ::
               a in mark && b in mark && mark[a] == mark[b]
    ensures path[|path| - 1] in mark && mark[path[|path| - 1]] == mark[path[0]]
  {
    if |path| > 1 {
      var front := path[..|path| - 1];
      forall i, j | 0 <= i && j == i + 1 < |front| ensures Shares(recs, front[i], front[j]) {
        assert Shares(recs, path[i], path[j]);
      }
      LabelsFollowChains(recs, mark, front);
      assert Shares(recs, path[|path| - 2], path[|path| - 1]);
    }
  }

  // ---- Visits and their keepers ---------------------------------------------------------------

  ghost predicate SameVisit(recs: set<Record>, r: Record, q: Record) {
    exists a, b :: a in SourcesOf(r) && b in SourcesOf(q) && Linked(recs, a, b)
  }

  /** The planner's order on records: start time, then id. */
  predicate Before(r: Record, q: Record) {
    Less(StartOf(r), StartOf(q)) || (StartOf(r) == StartOf(q) && Less(r.id, q.id))
  }

  /** A record without a start time comes before every dated one; of two such, and of one date, the lesser id. */
  lemma {:induction false} BeforeMeans(r: Record, q: Record)
    ensures r.at.start.None? && q.at.start.Some? && q.at.start.value != "" ==> Before(r, q) && !Before(q, r)
    ensures r.at.start == q.at.start ==> (Before(r, q) <==> Less(r.id, q.id))
    ensures r.at.start.Some? && q.at.start.Some? && r.at.start != q.at.start ==>
              (Before(r, q) <==> Less(r.at.start.value, q.at.start.value))
  {
    Irreflexive(StartOf(r));
    LessIff("", StartOf(q));
  }

  lemma {:induction false} BeforeIrreflexive(r: Record)
    ensures !Before(r, r)
  {
    Irreflexive(StartOf(r));
    Irreflexive(r.id);
  }

  lemma {:induction false} BeforeTrans(r: Record, q: Record, p: Record)
    requires Before(r, q) && Before(q, p)
    ensures Before(r, p)
  {
    if Less(StartOf(r), StartOf(q)) && Less(StartOf(q), StartOf(p)) { Transitive(StartOf(r), StartOf(q), StartOf(p)); }
    if Less(r.id, q.id) && Less(q.id, p.id) { Transitive(r.id, q.id, p.id); }
  }

  lemma {:induction false} BeforeTotal(r: Record, q: Record)
    requires r.id != q.id
    ensures Before(r, q) || Before(q, r)
  {
    Total(StartOf(r), StartOf(q));
    Total(r.id, q.id);
  }

  lemma {:induction false} VisitRefl(recs: set<Record>, r: Record)
    requires SourcesOf(r) != {}
    ensures SameVisit(recs, r, r)
  {
    var a :| a in SourcesOf(r);
    LinkedRefl(recs, a);
  }

  lemma {:induction false} VisitSym(recs: set<Record>, r: Record, q: Record)
    requires SameVisit(recs, r, q)
    ensures SameVisit(recs, q, r)
  {
    var a, b :| a in SourcesOf(r) && b in SourcesOf(q) && Linked(recs, a, b);
    LinkedSym(recs, a, b);
  }

  lemma {:induction false} VisitTrans(recs: set<Record>, r: Record, q: Record, p: Record)
    requires q in recs && SameVisit(recs, r, q) && SameVisit(recs, q, p)
    ensures SameVisit(recs, r, p)
  {
    var a, b :| a in SourcesOf(r) && b in SourcesOf(q) && Linked(recs, a, b);
    var c, d :| c in SourcesOf(q) && d in SourcesOf(p) && Linked(recs, c, d);
    SharedIsLinked(recs, q, b, c);
    LinkedTrans(recs, a, b, c);
    LinkedTrans(recs, a, c, d);
  }

  /** The least record of its visit. */
  ghost predicate Keeper(recs: set<Record>, k: Record) {
    k in recs
    && forall q {:trigger SameVisit(recs, k, q)} | q in recs && SameVisit(recs, k, q) :: q == k || Before(k, q)
  }

  ghost function KeepIds(recs: set<Record>): set<string> {
    set r | r in recs && Keeper(recs, r) :: r.id
  }

  /** A record is an excess clone: not kept, but recorded exactly when its visit's keeper was. */
  ghost predicate Clone(recs: set<Record>, r: Record) {
    r in recs && exists k :: Keeper(recs, k) && k != r && SameVisit(recs, k, r) && k.at == r.at
  }

  ghost function DeleteIds(recs: set<Record>): set<string> {
    set r | r in recs && Clone(recs, r) :: r.id
  }

  ghost predicate Diverged(recs: set<Record>, r: Record) {
    r in recs && exists k :: Keeper(recs, k) && k != r && SameVisit(recs, k, r) && k.at != r.at
  }

  ghost function SkipIds(recs: set<Record>): set<string> {
    set r | r in recs && Diverged(recs, r) :: r.id
  }

  /** Every record's visit has a keeper. */
  lemma {:induction false} KeeperExists(recs: set<Record>, r: Record) returns (k: Record)
    requires Clean(recs) && r in recs
    ensures Keeper(recs, k) && SameVisit(recs, k, r)
  {
    k := r;
    VisitRefl(recs, r);
    var rivals := set q | q in recs && SameVisit(recs, r, q) && q != r;
    ghost var visit := set q | q in recs && SameVisit(recs, r, q);
    while rivals != {}
      invariant rivals <= visit && k in visit
      invariant forall q | q in visit - rivals :: q == k || Before(k, q)
      decreases rivals
    {
      var q :| q in rivals;
      if q != k {
        BeforeTotal(q, k);
        if Before(q, k) {
          forall p | p in visit - rivals && p != k ensures Before(q, p) { BeforeTrans(q, k, p); }
          k := q;
        }
      }
      rivals := rivals - {q};
    }
    VisitSym(recs, r, k);
    forall q | q in recs && SameVisit(recs, k, q) ensures q == k || Before(k, q) {
      VisitTrans(recs, r, k, q);
      assert q in visit;
    }
  }

  /** No visit has two. */
  lemma {:induction false} KeeperUnique(recs: set<Record>, k: Record, l: Record)
    requires Keeper(recs, k) && Keeper(recs, l) && SameVisit(recs, k, l)
    ensures k == l
  {
    VisitSym(recs, k, l);
    if k != l {
      BeforeTrans(k, l, k);
      BeforeIrreflexive(k);
    }
  }

  lemma {:induction false} EveryRecordHasAFate(recs: set<Record>, r: Record)
    requires Clean(recs) && r in recs
    ensures Keeper(recs, r) || Clone(recs, r) || Diverged(recs, r)
  {
    var k := KeeperExists(recs, r);
    if k != r { assert Clone(recs, r) || Diverged(recs, r); }
  }

  /** Exactly one record of every visit is kept. */
  lemma {:induction false} OneKeeperPerVisit(recs: set<Record>)
    requires Clean(recs)
    ensures forall r | r in recs :: exists k :: Keeper(recs, k) && SameVisit(recs, k, r)
    ensures forall k, l | Keeper(recs, k) && Keeper(recs, l) && SameVisit(recs, k, l) :: k == l
  {
    forall r | r in recs ensures exists k :: Keeper(recs, k) && SameVisit(recs, k, r) {
      var k := KeeperExists(recs, r);
    }
    forall k, l | Keeper(recs, k) && Keeper(recs, l) && SameVisit(recs, k, l) ensures k == l {
      KeeperUnique(recs, k, l);
    }
  }

  /** Keep, delete and skip partition the record ids. */
  lemma {:induction false} PlanPartitions(recs: set<Record>)
    requires Clean(recs)
    ensures KeepIds(recs) + DeleteIds(recs) + SkipIds(recs) == set r | r in recs :: r.id
    ensures KeepIds(recs) !! DeleteIds(recs) !! SkipIds(recs)
  {
    forall r | r in recs ensures r.id in KeepIds(recs) + DeleteIds(recs) + SkipIds(recs) {
      EveryRecordHasAFate(recs, r);
    }
    forall r | r in recs
      ensures !(Keeper(recs, r) && (Clone(recs, r) || Diverged(recs, r)))
      ensures !(Clone(recs, r) && Diverged(recs, r))
    {
      OneFate(recs, r);
    }
  }

  /** The keeper of a record's visit is unique, so its fate is decided once. */
  lemma {:induction false} OneFate(recs: set<Record>, r: Record)
    requires Clean(recs) && r in recs
    ensures forall k, l | Keeper(recs, k) && SameVisit(recs, k, r) && Keeper(recs, l) && SameVisit(recs, l, r) :: k == l
    ensures !(Keeper(recs, r) && (Clone(recs, r) || Diverged(recs, r)))
    ensures !(Clone(recs, r) && Diverged(recs, r))
  {
    forall k, l | Keeper(recs, k) && SameVisit(recs, k, r) && Keeper(recs, l) && SameVisit(recs, l, r)
      ensures k == l
    {
      VisitSym(recs, l, r);
      VisitTrans(recs, k, r, l);
      KeeperUnique(recs, k, l);
    }
    VisitRefl(recs, r);
  }

  lemma {:induction false} VisitMono(some: set<Record>, more: set<Record>, r: Record, q: Record)
    requires some <= more && SameVisit(some, r, q)
    ensures SameVisit(more, r, q)
  {
    var a, b :| a in SourcesOf(r) && b in SourcesOf(q) && Linked(some, a, b);
    LinkedMono(some, more, a, b);
  }

  ghost function Survivors(recs: set<Record>): set<Record> {
    set r | r in recs && r.id !in DeleteIds(recs)
  }

  /** The keeper of the record's visit is no longer in its visit among the survivors. */
  ghost predicate CutOff(recs: set<Record>, r: Record) {
    forall k | Keeper(recs, k) && SameVisit(recs, k, r) :: !SameVisit(Survivors(recs), k, r)
  }

  /** The least record of the survivors' visit is another one, recorded at the same time. */
  ghost predicate HasTwin(recs: set<Record>, r: Record) {
    exists l :: Keeper(Survivors(recs), l) && l != r && SameVisit(Survivors(recs), l, r) && l.at == r.at
  }

  lemma {:induction false} TwinIsCutOff(recs: set<Record>, r: Record, l: Record)
    requires Clean(recs) && r in Survivors(recs)
    requires Keeper(Survivors(recs), l) && l != r && SameVisit(Survivors(recs), l, r) && l.at == r.at
    ensures Diverged(recs, r) && CutOff(recs, r)
  {
    var left := Survivors(recs);
    VisitMono(left, recs, l, r);
    VisitSym(recs, l, r);
    PlanPartitions(recs);
    EveryRecordHasAFate(recs, r);
    if Keeper(recs, r) {
      BeforeTrans(r, l, r);
      BeforeIrreflexive(r);
    }
    forall k | Keeper(recs, k) && SameVisit(recs, k, r) ensures !SameVisit(left, k, r) {
      OneFate(recs, r);
      assert k.id in KeepIds(recs);
      if SameVisit(left, k, r) {
        VisitSym(left, k, r);
        VisitTrans(left, l, r, k);
        VisitTrans(recs, k, r, l);
        if k != l {
          BeforeTrans(k, l, k);
          BeforeIrreflexive(k);
        }
      }
    }
  }

  /**
   * Planning again over the survivors deletes a record exactly if the first plan skipped it, the
   * deleted clones were what tied it to its keeper, and the least record of what is left of its visit
   * is another one recorded at the same time.
   */
  lemma {:induction false} ReplanDeletesIff(recs: set<Record>, r: Record)
    requires Clean(recs) && r in recs
    ensures r.id in DeleteIds(Survivors(recs)) <==> r.id in SkipIds(recs) && CutOff(recs, r) && HasTwin(recs, r)
  {
    PlanPartitions(recs);
    var left := Survivors(recs);
    if r.id in DeleteIds(left) {
      assert Clone(left, r);
      var l :| Keeper(left, l) && l != r && SameVisit(left, l, r) && l.at == r.at;
      TwinIsCutOff(recs, r, l);
    } else if r.id in SkipIds(recs) && HasTwin(recs, r) {
      assert Clone(left, r);
    }
  }

  /** When nothing was skipped it deletes nothing. */
  lemma {:induction false} ReplanDeletesNothing(recs: set<Record>)
    requires Clean(recs) && SkipIds(recs) == {}
    ensures DeleteIds(Survivors(recs)) == {}
  {
    forall r | r in recs ensures r.id !in DeleteIds(Survivors(recs)) { ReplanDeletesIff(recs, r); }
  }
}
