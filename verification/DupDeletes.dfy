/**
 * Fetch windows and resumable deletes (packages/attention/scripts/cleanup_attention_dups.py,
 * `iter_chunks` and `run_deletes`): what a run makes durable is a list of events, so that a killed
 * run is a prefix.
 */
module DupDeletes {
  import opened Wrappers

  // ---- Chunks -----------------------------------------------------------------------------------

  /** Windows `[lo, hi)` that follow one another from `start` to `end`, none empty, none longer than `step`. */
  predicate Tiles(chunks: seq<(int, int)>, start: int, end: int, step: int) {
    && (forall i | 0 <= i < |chunks| :: chunks[i].0 < chunks[i].1 <= chunks[i].0 + step)
    && (forall i, j | 0 <= i && j == i + 1 < |chunks| :: chunks[j].0 == chunks[i].1)
    && (if chunks == [] then start >= end else chunks[0].0 == start && chunks[|chunks| - 1].1 == end)
  }

  /** `lo` after `n` turns of the loop of `iter_chunks`. */
  function Cursor(start: int, end: int, step: int, n: nat): int {
    if n == 0 then start
    else
      var lo := Cursor(start, end, step, n - 1);
      if lo >= end then lo else if lo + step < end then lo + step else end
  }

  /** The loop ends exactly for a positive step, or where there is nothing to cut. */
  lemma {:induction false} ChunksEndIff(start: int, end: int, step: int)
    ensures (exists n: nat :: Cursor(start, end, step, n) >= end) <==> step > 0 || start >= end
  {
    if start >= end {
      assert Cursor(start, end, step, 0) >= end;
    } else if step > 0 {
      Advances(start, end, step, end - start);
    } else {
      forall n: nat ensures Cursor(start, end, step, n) < end { StaysBehind(start, end, step, n); }
    }
  }

  lemma {:induction false} Advances(start: int, end: int, step: int, n: nat)
    requires step > 0
    ensures Cursor(start, end, step, n) >= end || Cursor(start, end, step, n) >= start + n
  {
    if n > 0 { Advances(start, end, step, n - 1); }
  }

  lemma {:induction false} StaysBehind(start: int, end: int, step: int, n: nat)
    requires step <= 0 && start < end
    ensures Cursor(start, end, step, n) < end
  {
    if n > 0 { StaysBehind(start, end, step, n - 1); }
  }

  /** `iter_chunks`, where it ends. */
  method IterChunks(start: int, end: int, step: int) returns (chunks: seq<(int, int)>)
    requires step > 0 || start >= end
    ensures Tiles(chunks, start, end, step)
  {
    chunks := [];
    var lo := start;
    while lo < end
      invariant lo <= end || chunks == []
      invariant chunks == [] ==> lo == start
      invariant chunks != [] ==> chunks[0].0 == start && chunks[|chunks| - 1].1 == lo
      invariant forall i | 0 <= i < |chunks| :: chunks[i].0 < chunks[i].1 <= chunks[i].0 + step
      invariant forall i, j | 0 <= i && j == i + 1 < |chunks| :: chunks[j].0 == chunks[i].1
      decreases end - lo
    {
      var hi := if lo + step < end then lo + step else end;
      chunks := chunks + [(lo, hi)];
      lo := hi;
    }
  }

  predicate InChunk(chunk: (int, int), t: int) {
    chunk.0 <= t < chunk.1
  }

  ghost predicate Covered(chunks: seq<(int, int)>, t: int) {
    exists i :: 0 <= i < |chunks| && InChunk(chunks[i], t)
  }

  lemma {:induction false} CoveredSnoc(init: seq<(int, int)>, last: (int, int), t: int)
    ensures Covered(init + [last], t) <==> Covered(init, t) || InChunk(last, t)
  {
    var all := init + [last];
    if Covered(init, t) {
      var i :| 0 <= i < |init| && InChunk(init[i], t);
      assert InChunk(all[i], t);
    }
    if InChunk(last, t) { assert InChunk(all[|init|], t); }
  }

  lemma {:induction false} TilesInit(chunks: seq<(int, int)>, start: int, end: int, step: int)
    requires Tiles(chunks, start, end, step) && |chunks| > 1
    ensures Tiles(chunks[..|chunks| - 1], start, chunks[|chunks| - 1].0, step) && start < chunks[|chunks| - 1].0
  {
    assert chunks[|chunks| - 1].0 == chunks[|chunks| - 2].1;
    TilesGrow(chunks, start, end, step, |chunks| - 2);
  }

  lemma {:induction false} TilesGrow(chunks: seq<(int, int)>, start: int, end: int, step: int, i: nat)
    requires Tiles(chunks, start, end, step) && i < |chunks|
    ensures start <= chunks[i].0 < chunks[i].1
  {
    if i > 0 {
      TilesGrow(chunks, start, end, step, i - 1);
      assert chunks[i].0 == chunks[i - 1].1;
    }
  }

  /** A moment is in some chunk exactly if it is in the window. */
  lemma {:induction false} ChunksCover(chunks: seq<(int, int)>, start: int, end: int, step: int, t: int)
    requires Tiles(chunks, start, end, step)
    ensures Covered(chunks, t) <==> start <= t < end
    decreases |chunks|
  {
    if |chunks| > 0 {
      var init, last := chunks[..|chunks| - 1], chunks[|chunks| - 1];
      CoveredSnoc(init, last, t);
      assert init + [last] == chunks;
      if |chunks| > 1 {
        TilesInit(chunks, start, end, step);
        ChunksCover(init, start, last.0, step, t);
      } else {
        assert !Covered(init, t);
      }
    }
  }

  /** Chunks do not overlap. */
  lemma {:induction false} ChunksApart(chunks: seq<(int, int)>, start: int, end: int, step: int, i: nat, j: nat)
    requires Tiles(chunks, start, end, step) && i < j < |chunks|
    ensures chunks[i].1 <= chunks[j].0
    decreases j
  {
    assert chunks[j].0 == chunks[j - 1].1;
    if i < j - 1 { ChunksApart(chunks, start, end, step, i, j - 1); }
  }

  // ---- Deletes ----------------------------------------------------------------------------------

  const MAX_CONSECUTIVE_FAILURES := 5

  /** What survives a kill: the record is gone, or its id is in the journal. */
  datatype Event = Gone(id: string) | Journaled(id: string)

  datatype Durable = Durable(gone: set<string>, journal: set<string>)

  function ApplyOne(d: Durable, e: Event): Durable {
    match e
    case Gone(id) => d.(gone := d.gone + {id})
    case Journaled(id) => d.(journal := d.journal + {id})
  }

  function Apply(d: Durable, events: seq<Event>): Durable
    decreases |events|
  {
    if events == [] then d else ApplyOne(Apply(d, events[..|events| - 1]), events[|events| - 1])
  }

  datatype Tally = Tally(deleted: nat, failed: nat, consecutive: nat, events: seq<Event>, stopped: bool)

  /** One id; a record that is already gone counts as deleted. */
  function DeleteOne(id: string, done: set<string>, ok: bool, t: Tally): Tally {
    if t.stopped || id in done then t
    else if ok then t.(deleted := t.deleted + 1, consecutive := 0, events := t.events + [Gone(id), Journaled(id)])
    else
      t.(failed := t.failed + 1, consecutive := t.consecutive + 1,
         stopped := t.consecutive + 1 >= MAX_CONSECUTIVE_FAILURES)
  }

  /** The first `n` ids; `answers` says how the i-th attempt ends. */
  function DeleteUpTo(ids: seq<string>, done: set<string>, answers: nat -> bool, n: nat): Tally
    requires n <= |ids|
  {
    if n == 0 then Tally(0, 0, 0, [], false)
    else DeleteOne(ids[n - 1], done, answers(n - 1), DeleteUpTo(ids, done, answers, n - 1))
  }

  /** `run_deletes`. */
  method RunDeletes(ids: seq<string>, journal: set<string>, answers: nat -> bool) returns (t: Tally)
    ensures t == DeleteUpTo(ids, journal, answers, |ids|)
  {
    t := Tally(0, 0, 0, [], false);
    var i := 0;
    while i < |ids| && !t.stopped
      invariant i <= |ids| && t == DeleteUpTo(ids, journal, answers, i)
      decreases |ids| - i
    {
      if ids[i] !in journal {
        if answers(i) {
          t := t.(deleted := t.deleted + 1, consecutive := 0, events := t.events + [Gone(ids[i]), Journaled(ids[i])]);
        } else {
          t := t.(failed := t.failed + 1, consecutive := t.consecutive + 1);
          if t.consecutive >= MAX_CONSECUTIVE_FAILURES { t := t.(stopped := true); }
        }
      }
      i := i + 1;
    }
    StoppedStays(ids, journal, answers, i, |ids|);
  }

  lemma {:induction false} StoppedStays(ids: seq<string>, done: set<string>, answers: nat -> bool, m: nat, n: nat)
    requires m <= n <= |ids| && (DeleteUpTo(ids, done, answers, m).stopped || m == n)
    ensures DeleteUpTo(ids, done, answers, n) == DeleteUpTo(ids, done, answers, m)
    decreases n - m
  {
    if m < n { StoppedStays(ids, done, answers, m, n - 1); }
  }

  /** Deletes only what was asked, journals only what is gone. */
  ghost predicate Safe(d0: Durable, ids: seq<string>, d: Durable) {
    && d0.gone <= d.gone && (forall id | id in d.gone - d0.gone :: id in ids)
    && d0.journal <= d.journal && d.journal - d0.journal <= d.gone
  }

  ghost predicate SafeThroughout(d0: Durable, ids: seq<string>, d: Durable, events: seq<Event>) {
    forall k | 0 <= k <= |events| :: Safe(d0, ids, Apply(d, events[..k]))
  }

  lemma {:induction false} OneMoreEvent(d0: Durable, ids: seq<string>, d: Durable, events: seq<Event>, e: Event)
    requires SafeThroughout(d0, ids, d, events) && Safe(d0, ids, ApplyOne(Apply(d, events), e))
    ensures SafeThroughout(d0, ids, d, events + [e]) && Apply(d, events + [e]) == ApplyOne(Apply(d, events), e)
  {
    var all := events + [e];
    assert all[..|events|] == events && all[..|all|] == all;
    forall k | 0 <= k <= |all| ensures Safe(d0, ids, Apply(d, all[..k])) {
      if k <= |events| { assert all[..k] == events[..k]; } else { assert all[..k] == all; }
    }
  }

  /** At every point a kill could leave, a run has deleted only ids of its list and journaled only gone ones. */
  lemma {:induction false} RunIsSafe(d0: Durable, ids: seq<string>, d: Durable, answers: nat -> bool, n: nat)
    requires n <= |ids| && Safe(d0, ids, d)
    ensures SafeThroughout(d0, ids, d, DeleteUpTo(ids, d.journal, answers, n).events)
  {
    if n > 0 {
      RunIsSafe(d0, ids, d, answers, n - 1);
      var t, id := DeleteUpTo(ids, d.journal, answers, n - 1), ids[n - 1];
      if DeleteUpTo(ids, d.journal, answers, n).events != t.events {
        assert t.events[..|t.events|] == t.events;
        OneMoreEvent(d0, ids, d, t.events, Gone(id));
        OneMoreEvent(d0, ids, d, t.events + [Gone(id)], Journaled(id));
        assert t.events + [Gone(id)] + [Journaled(id)] == t.events + [Gone(id), Journaled(id)];
      }
    }
  }

  datatype Killed = Killed(answers: nat -> bool, cut: nat)

  function AfterKill(ids: seq<string>, d: Durable, kill: Killed): Durable {
    var events := DeleteUpTo(ids, d.journal, kill.answers, |ids|).events;
    Apply(d, if kill.cut <= |events| then events[..kill.cut] else events)
  }

  function AfterKills(ids: seq<string>, d: Durable, kills: seq<Killed>): Durable
    decreases |kills|
  {
    if kills == [] then d else AfterKill(ids, AfterKills(ids, d, kills[..|kills| - 1]), kills[|kills| - 1])
  }

  /** Over any sequence of killed and resumed runs nothing outside the delete list is ever deleted. */
  lemma {:induction false} KillsAreSafe(ids: seq<string>, d0: Durable, kills: seq<Killed>)
    ensures Safe(d0, ids, AfterKills(ids, d0, kills))
    decreases |kills|
  {
    if kills != [] {
      var before, kill := AfterKills(ids, d0, kills[..|kills| - 1]), kills[|kills| - 1];
      KillsAreSafe(ids, d0, kills[..|kills| - 1]);
      RunIsSafe(d0, ids, before, kill.answers, |ids|);
      var events := DeleteUpTo(ids, before.journal, kill.answers, |ids|).events;
      assert events[..|events|] == events;
    }
  }

  lemma {:induction false} DeletedIsGone(d: Durable, events: seq<Event>, id: string)
    ensures Apply(d, events + [Gone(id), Journaled(id)]).gone == Apply(d, events).gone + {id}
  {
    var once := events + [Gone(id)];
    assert (events + [Gone(id), Journaled(id)])[..|events| + 1] == once && once[..|events|] == events;
  }

  lemma {:induction false} AttemptedIsGone(ids: seq<string>, d: Durable, answers: nat -> bool, n: nat)
    requires n <= |ids|
    ensures var t := DeleteUpTo(ids, d.journal, answers, n);
            && d.gone <= Apply(d, t.events).gone
            && (t.failed == 0 ==>
                  !t.stopped && forall i | 0 <= i < n :: ids[i] in d.journal || ids[i] in Apply(d, t.events).gone)
  {
    hide Apply;
    if n > 0 {
      AttemptedIsGone(ids, d, answers, n - 1);
      DeletedIsGone(d, DeleteUpTo(ids, d.journal, answers, n - 1).events, ids[n - 1]);
    } else {
      NothingApplied(d);
    }
  }

  lemma NothingApplied(d: Durable)
    ensures Apply(d, []) == d
  {
  }

  /**
   * After any kills, a run without a failure leaves every id of the list deleted -- and the journal
   * never makes it skip one that is not, if the journal at the start was honest.
   */
  lemma {:induction false} ResumedRunDeletesAll(ids: seq<string>, d0: Durable, kills: seq<Killed>, answers: nat -> bool)
    requires d0.journal <= d0.gone
    requires DeleteUpTo(ids, AfterKills(ids, d0, kills).journal, answers, |ids|).failed == 0
    ensures var d := AfterKills(ids, d0, kills);
            forall id | id in ids :: id in Apply(d, DeleteUpTo(ids, d.journal, answers, |ids|).events).gone
  {
    var d := AfterKills(ids, d0, kills);
    KillsAreSafe(ids, d0, kills);
    AttemptedIsGone(ids, d, answers, |ids|);
    forall id | id in ids ensures id in Apply(d, DeleteUpTo(ids, d.journal, answers, |ids|).events).gone {
      var i :| 0 <= i < |ids| && ids[i] == id;
      if id in d.journal { assert id in d0.journal || id in d.journal - d0.journal; }
    }
  }

  function Pending(ids: seq<string>, done: set<string>, n: nat): nat
    requires n <= |ids|
  {
    if n == 0 then 0 else Pending(ids, done, n - 1) + if ids[n - 1] in done then 0 else 1
  }

  /** A run attempts every id not in the journal, until five attempts in a row have failed. */
  lemma {:induction false} CountsAddUp(ids: seq<string>, done: set<string>, answers: nat -> bool, n: nat)
    requires n <= |ids|
    ensures var t := DeleteUpTo(ids, done, answers, n);
            && (if t.stopped then t.deleted + t.failed <= Pending(ids, done, n)
                else t.deleted + t.failed == Pending(ids, done, n))
            && (t.stopped <==> t.consecutive >= MAX_CONSECUTIVE_FAILURES) && t.consecutive <= t.failed
               && t.consecutive <= MAX_CONSECUTIVE_FAILURES
            && |t.events| == 2 * t.deleted
  {
    if n > 0 { CountsAddUp(ids, done, answers, n - 1); }
  }

  /** The places of the ids a run attempts: those not in the journal, in order. */
  function Tried(ids: seq<string>, done: set<string>, n: nat): (tried: seq<nat>)
    requires n <= |ids|
    ensures forall k | 0 <= k < |tried| :: tried[k] < n
  {
    if n == 0 then [] else Tried(ids, done, n - 1) + if ids[n - 1] in done then [] else [n - 1]
  }

  /** Five attempts in a row that failed. */
  ghost predicate FiveFail(tried: seq<nat>, answers: nat -> bool) {
    exists k | 0 <= k <= |tried| - 5 :: FiveFrom(tried, answers, k)
  }

  predicate FiveFrom(tried: seq<nat>, answers: nat -> bool, k: nat)
    requires k + 5 <= |tried|
  {
    !answers(tried[k]) && !answers(tried[k + 1]) && !answers(tried[k + 2]) && !answers(tried[k + 3])
    && !answers(tried[k + 4])
  }

  /** The last `c` attempts failed, and the one before them did not. */
  predicate Streak(tried: seq<nat>, answers: nat -> bool, c: nat) {
    && c <= |tried| && (forall j | |tried| - c <= j < |tried| :: !answers(tried[j]))
    && (c < |tried| ==> answers(tried[|tried| - c - 1]))
  }

  lemma {:induction false} StreakGrows(tried: seq<nat>, answers: nat -> bool, c: nat, i: nat)
    requires Streak(tried, answers, c) && !FiveFail(tried, answers)
    ensures Streak(tried + [i], answers, if answers(i) then 0 else c + 1)
    ensures FiveFail(tried + [i], answers) <==> !answers(i) && c >= 4
  {
    var all := tried + [i];
    if FiveFail(all, answers) {
      var k :| 0 <= k <= |all| - 5 && FiveFrom(all, answers, k);
      if k + 5 <= |tried| { assert FiveFrom(tried, answers, k); }
      assert c < |tried| ==> all[|tried| - c - 1] == tried[|tried| - c - 1];
    }
    if !answers(i) && c >= 4 { assert FiveFrom(all, answers, |tried| - 4); }
  }

  lemma {:induction false} FiveStay(tried: seq<nat>, answers: nat -> bool, i: nat)
    requires FiveFail(tried, answers)
    ensures FiveFail(tried + [i], answers)
  {
    var k :| 0 <= k <= |tried| - 5 && FiveFrom(tried, answers, k);
    assert FiveFrom(tried + [i], answers, k);
  }

  lemma NoneFail(answers: nat -> bool)
    ensures !FiveFail([], answers) && Streak([], answers, 0)
  {
  }

  lemma {:induction false} StreakIs(ids: seq<string>, done: set<string>, answers: nat -> bool, n: nat)
    requires n <= |ids|
    ensures var t := DeleteUpTo(ids, done, answers, n);
            && (t.stopped <==> FiveFail(Tried(ids, done, n), answers))
            && (!t.stopped ==> Streak(Tried(ids, done, n), answers, t.consecutive))
  {
    if n > 0 {
      StreakIs(ids, done, answers, n - 1);
      hide FiveFail, Streak;
      var before, t := Tried(ids, done, n - 1), DeleteUpTo(ids, done, answers, n - 1);
      var next := DeleteUpTo(ids, done, answers, n);
      assert next == DeleteOne(ids[n - 1], done, answers(n - 1), t);
      if ids[n - 1] in done {
        assert Tried(ids, done, n) == before;
      } else {
        assert Tried(ids, done, n) == before + [n - 1];
        if t.stopped { FiveStay(before, answers, n - 1); } else { StreakGrows(before, answers, t.consecutive, n - 1); }
      }
    } else {
      NoneFail(answers);
    }
  }

  /** A run stops early exactly if five attempts in a row fail, an id already journaled being none. */
  lemma {:induction false} StopsIffFiveFail(ids: seq<string>, done: set<string>, answers: nat -> bool)
    ensures DeleteUpTo(ids, done, answers, |ids|).stopped <==> FiveFail(Tried(ids, done, |ids|), answers)
  {
    StreakIs(ids, done, answers, |ids|);
  }

  /** The attempt at place `i` is made and accepted. */
  ghost predicate Succeeds(ids: seq<string>, done: set<string>, answers: nat -> bool, i: nat)
    requires i < |ids|
  {
    ids[i] !in done && answers(i) && !FiveFail(Tried(ids, done, i), answers)
  }

  /** An id is deleted, and journaled, exactly if an attempt at it is made and accepted before the run stops. */
  lemma {:induction false} DeletedIff(ids: seq<string>, done: set<string>, answers: nat -> bool, n: nat, id: string)
    requires n <= |ids|
    ensures var events := DeleteUpTo(ids, done, answers, n).events;
            && (Gone(id) in events <==> exists i | 0 <= i < n :: ids[i] == id && Succeeds(ids, done, answers, i))
            && (Journaled(id) in events <==> Gone(id) in events)
  {
    hide FiveFail;
    if n > 0 {
      DeletedIff(ids, done, answers, n - 1, id);
      StreakIs(ids, done, answers, n - 1);
      var t := DeleteUpTo(ids, done, answers, n - 1);
      var more := [Gone(ids[n - 1]), Journaled(ids[n - 1])];
      assert Gone(id) in t.events + more <==> Gone(id) in t.events || id == ids[n - 1];
      assert Journaled(id) in t.events + more <==> Journaled(id) in t.events || id == ids[n - 1];
    }
  }

  /** What events leave: the ids of the records they delete are gone, those they journal are in the journal. */
  lemma {:induction false} AppliedAre(d: Durable, events: seq<Event>, id: string)
    ensures id in Apply(d, events).gone <==> id in d.gone || Gone(id) in events
    ensures id in Apply(d, events).journal <==> id in d.journal || Journaled(id) in events
    decreases |events|
  {
    if events != [] {
      var init, last := events[..|events| - 1], events[|events| - 1];
      AppliedAre(d, init, id);
      assert events == init + [last];
    }
  }

  function CutEvents(ids: seq<string>, d: Durable, kill: Killed): seq<Event> {
    var events := DeleteUpTo(ids, d.journal, kill.answers, |ids|).events;
    if kill.cut <= |events| then events[..kill.cut] else events
  }

  /** What a run journaled before it was killed, no resumed run tries again, whatever kills come between. */
  lemma {:induction false} JournaledIsNotRetried(ids: seq<string>, d: Durable, kill: Killed, more: seq<Killed>,
                                                 answers: nat -> bool, id: string)
    requires Journaled(id) in CutEvents(ids, d, kill)
    ensures var journal := AfterKills(ids, AfterKill(ids, d, kill), more).journal;
            Gone(id) !in DeleteUpTo(ids, journal, answers, |ids|).events
  {
    var now := AfterKill(ids, d, kill);
    AppliedAre(d, CutEvents(ids, d, kill), id);
    KillsAreSafe(ids, now, more);
    var journal := AfterKills(ids, now, more).journal;
    DeletedIff(ids, journal, answers, |ids|, id);
  }
}
