/**
 * Which records `build_plan` plans for (packages/attention/scripts/cleanup_attention_dups.py): of each
 * id the first record that has one and lists an attention source.
 */
module DupAdmission {
  import opened Picking
  import opened DupVisits
  import opened DupPlanner

  ghost predicate HasAttention(r: Record) {
    exists s :: s in r.sources && "com.fulcra.attention." <= s
  }

  /** The record at `k` has an id, an attention source, and no such record of its id before it. */
  ghost predicate IsFirst(records: seq<Record>, k: int)
    requires 0 <= k < |records|
  {
    && records[k].id != "" && HasAttention(records[k])
    && forall j | 0 <= j < k && records[j].id == records[k].id :: !HasAttention(records[j])
  }

  ghost function Firsts(records: seq<Record>): set<int> {
    set k | 0 <= k < |records| && IsFirst(records, k)
  }

  lemma {:induction false} EligibleIff(r: Record)
    ensures Eligible(r) <==> r.id != "" && HasAttention(r)
  {
    if HasAttention(r) {
      var s :| s in r.sources && "com.fulcra.attention." <= s;
      assert s in SourcesOf(r);
    }
    if SourcesOf(r) != {} {
      var s :| s in SourcesOf(r);
    }
  }

  /** The id of the last record is planned for already exactly if an earlier record with it could be. */
  lemma {:induction false} AdmittedBefore(front: seq<Record>, r: Record)
    requires r.id != ""
    ensures (exists q :: q in Admitted(front) && q.id == r.id) <==>
              exists j | 0 <= j < |front| :: front[j].id == r.id && HasAttention(front[j])
  {
    if q :| q in Admitted(front) && q.id == r.id {
      AdmittedIsClean(front);
      EligibleIff(q);
      var j :| 0 <= j < |front| && front[j] == q;
    }
    if j :| 0 <= j < |front| && front[j].id == r.id && HasAttention(front[j]) {
      EligibleIff(front[j]);
      var q := EligibleIsAdmitted(front, front[j]);
    }
  }

  /** Planned for are the first records of their ids, in order. */
  lemma {:induction false} AdmittedAreFirsts(records: seq<Record>)
    ensures Picked(records, Firsts(records), Admitted(records))
    decreases |records|
  {
    hide Picked;
    if records == [] {
      NothingPicked(records);
      assert Firsts(records) == {};
    } else {
      var front, r := records[..|records| - 1], records[|records| - 1];
      AdmittedAreFirsts(front);
      PickedSnoc(front, Firsts(front), Admitted(front), r);
      assert records == front + [r];
      EligibleIff(r);
      if r.id != "" { AdmittedBefore(front, r); }
      assert forall j | 0 <= j < |front| :: records[j] == front[j];
      FirstsSnoc(front, r);
      if IsFirst(records, |front|) {
        assert Admitted(records) == Admitted(front) + [r];
      } else {
        assert Admitted(records) == Admitted(front) && Firsts(records) == Firsts(front);
      }
    }
  }

  lemma {:induction false} FirstsSnoc(front: seq<Record>, r: Record)
    ensures Firsts(front + [r])
            == Firsts(front) + if IsFirst(front + [r], |front|) then {|front|} else {}
  {
    var all := front + [r];
    forall k | 0 <= k < |front| ensures IsFirst(all, k) <==> IsFirst(front, k) {
      assert all[k] == front[k];
      assert forall j | 0 <= j < k :: all[j] == front[j];
    }
  }
}
