/**
 * What a reconcile report says (packages/apple-notes/fulcra_apple_notes/sync.py, `_scan_reconcile`),
 * told from the state, the vault and the store rather than from the loops that collect it.
 */
module ReconcileReport {
  import opened Wrappers
  import opened Picking
  import opened NoteReader
  import opened NoteRender
  import opened NoteSync
  import opened NoteReconcile
  import opened ReconcileScan

  // ---- The changes of one pass --------------------------------------------------------------------

  /** `n` is the note the store has under this uuid: the last one, should a uuid repeat. */
  ghost predicate IsNote(notes: seq<AppleNote>, uuid: string, n: AppleNote) {
    exists k :: 0 <= k < |notes| && notes[k] == n && n.uuid == uuid
      && forall j | k < j < |notes| :: notes[j].uuid != uuid
  }

  predicate HasNote(notes: seq<AppleNote>, uuid: string) {
    exists n | n in notes :: n.uuid == uuid
  }

  /** The Apple side is where the entry left it. */
  predicate AppleStill(w: World, n: AppleNote, e: Entry)
    requires n.markdown.Some?
  {
    w.lib.hash(StateBody(w.lib, w.state, n)) == e.hash && ModifiedOf(n) == e.modified
  }

  /** The change of a note the state knows: its status says which side is gone or has moved. */
  ghost predicate KnownRight(w: World, uuid: string, c: Change)
    requires uuid in w.state.notes && forall n | n in w.lib.notes :: n.markdown.Some?
  {
    var e := w.state.notes[uuid];
    && c.uuid == uuid && c.path == e.path && c.title == e.title && c.status != NewInApple
    && (c.status == DeletedInApple <==> !HasNote(w.lib.notes, uuid))
    && (c.status == MissingInVault <==> HasNote(w.lib.notes, uuid) && e.path !in w.files)
    && (e.path in w.files ==>
          forall n | n in w.lib.notes && IsNote(w.lib.notes, uuid, n) ::
            MovedRight(AppleStill(w, n, e), VaultStill(w.lib, w.files[e.path], e),
                       ParseBody(w.lib.reader, w.files[e.path]).Some?, c.status))
  }

  predicate MovedRight(appleStill: bool, vaultStill: bool, parsed: bool, status: Status) {
    && (status == Unchanged <==> appleStill && vaultStill)
    && (status == AppleChanged <==> !appleStill && vaultStill)
    && (status == Conflict <==> !appleStill && !vaultStill && parsed)
    && (status == VaultEdited <==> !vaultStill && (appleStill || !parsed))
  }

  lemma {:induction false} EvidenceFromIs(lib: Library, state: State, notes: seq<AppleNote>, apple: Apple, uuid: string)
    requires forall n | n in notes :: n.markdown.Some?
    ensures var read := EvidenceFrom(lib, state, notes, apple);
            && (uuid in read <==> uuid in apple || HasNote(notes, uuid))
            && (forall n | n in notes && IsNote(notes, uuid, n) ::
                  uuid in read && read[uuid] == EvidenceOf(lib, state, n))
            && (!HasNote(notes, uuid) && uuid in apple ==> read[uuid] == apple[uuid])
    decreases |notes|
  {
    if notes != [] {
      var first, rest := notes[0], notes[1..];
      var next := apple[first.uuid := EvidenceOf(lib, state, first)];
      EvidenceFromIs(lib, state, rest, next, uuid);
      assert notes == [first] + rest;
      forall n | n in notes && IsNote(notes, uuid, n)
        ensures if HasNote(rest, uuid) then n in rest && IsNote(rest, uuid, n) else n == first
      {
        NoteInRest(notes, uuid, n);
      }
      hide IsNote, HasNote;
    }
  }

  lemma {:induction false} NoteInRest(notes: seq<AppleNote>, uuid: string, n: AppleNote)
    requires notes != [] && IsNote(notes, uuid, n)
    ensures if HasNote(notes[1..], uuid) then n in notes[1..] && IsNote(notes[1..], uuid, n) else n == notes[0]
  {
    var rest := notes[1..];
    var k :| 0 <= k < |notes| && notes[k] == n && n.uuid == uuid && forall j | k < j < |notes| :: notes[j].uuid != uuid;
    assert forall j | 0 <= j < |rest| :: rest[j] == notes[j + 1];
    if k > 0 { assert rest[k - 1] == n; }
  }

  lemma {:induction false} KnownChangeIsRight(w: World, uuid: string)
    requires uuid in w.state.notes && forall n | n in w.lib.notes :: n.markdown.Some?
    ensures KnownRight(w, uuid,
                       Classify(uuid, LookupApple(AppleNow(w), uuid), FullView(w)[uuid], Some(w.state.notes[uuid])))
  {
    var e, apple := w.state.notes[uuid], LookupApple(AppleNow(w), uuid);
    var file := if e.path in w.files then Some(w.files[e.path]) else None;
    EvidenceFromIs(w.lib, w.state, w.lib.notes, map[], uuid);
    ClassifySound(w.lib, uuid, apple, file, Some(e));
  }

  // ---- The lists ----------------------------------------------------------------------------------

  /** The places of what a report lists. */
  function ChangePlaces(changes: seq<Change>): set<int> {
    set k | 0 <= k < |changes| && changes[k].status != Unchanged
  }

  function StatusPlaces(changes: seq<Change>, status: Status): set<int> {
    set k | 0 <= k < |changes| && changes[k].status == status
  }

  /** The places of the notes the state does not know. */
  function NewPlaces(state: State, notes: seq<AppleNote>): set<int> {
    set k | 0 <= k < |notes| && notes[k].uuid !in state.notes
  }

  function Added(notes: seq<AppleNote>): seq<Change> {
    seq(|notes|, i requires 0 <= i < |notes| => Change(notes[i].uuid, NewInApple, "", notes[i].title))
  }

  lemma {:induction false} ListedArePicked(changes: seq<Change>)
    ensures Picked(changes, ChangePlaces(changes), Listed(changes))
  {
    if changes == [] {
      NothingPicked(changes);
      assert ChangePlaces(changes) == {};
    } else {
      var first, rest := changes[0], changes[1..];
      ListedArePicked(rest);
      PickedCons(first, rest, ChangePlaces(rest), Listed(rest));
      assert changes == [first] + rest && [] + Listed(rest) == Listed(rest);
      ChangePlacesCons(first, rest);
    }
  }

  lemma {:induction false} ChangePlacesCons(first: Change, rest: seq<Change>)
    ensures ChangePlaces([first] + rest)
            == if first.status != Unchanged then {0} + Shifted(ChangePlaces(rest)) else Shifted(ChangePlaces(rest))
  {
    forall k ensures k in Shifted(ChangePlaces(rest)) <==> 0 < k <= |rest| && rest[k - 1].status != Unchanged {
      assert k in Shifted(ChangePlaces(rest)) <==> k - 1 in ChangePlaces(rest);
    }
  }

  lemma {:induction false} NewPlacesCons(state: State, first: AppleNote, rest: seq<AppleNote>)
    ensures NewPlaces(state, [first] + rest)
            == if first.uuid !in state.notes then {0} + Shifted(NewPlaces(state, rest))
              else Shifted(NewPlaces(state, rest))
  {
    forall k ensures k in Shifted(NewPlaces(state, rest)) <==> 0 < k <= |rest| && rest[k - 1].uuid !in state.notes {
      assert k in Shifted(NewPlaces(state, rest)) <==> k - 1 in NewPlaces(state, rest);
    }
  }

  lemma {:induction false} NewChangesAreAdded(state: State, notes: seq<AppleNote>) returns (added: seq<AppleNote>)
    ensures Picked(notes, NewPlaces(state, notes), added) && NewChanges(state, notes) == Added(added)
    decreases |notes|
  {
    if notes == [] {
      added := [];
      NothingPicked(notes);
      assert NewPlaces(state, notes) == {};
    } else {
      var first, rest := notes[0], notes[1..];
      var more := NewChangesAreAdded(state, rest);
      PickedCons(first, rest, NewPlaces(state, rest), more);
      NewPlacesCons(state, first, rest);
      assert notes == [first] + rest;
      if first.uuid !in state.notes {
        added := [first] + more;
        assert Added(added) == [Change(first.uuid, NewInApple, "", first.title)] + Added(more);
      } else {
        added := more;
        assert [] + NewChanges(state, rest) == NewChanges(state, rest);
      }
    }
  }

  lemma {:induction false} KnownChangesAre(w: World, apple: Apple, seen: Seen, keys: seq<string>)
    requires forall uuid | uuid in keys :: uuid in seen && uuid in w.state.notes
    ensures var known := KnownChanges(w, apple, seen, keys);
            |known| == |keys|
            && forall i | 0 <= i < |keys| ::
                 known[i] == Classify(keys[i], LookupApple(apple, keys[i]), seen[keys[i]], Some(w.state.notes[keys[i]]))
    decreases |keys|
  {
    if keys != [] {
      KnownChangesAre(w, apple, seen, keys[1..]);
      assert forall i | 1 <= i < |keys| :: keys[1..][i - 1] == keys[i];
    }
  }

  lemma {:induction false} CountSnoc(changes: seq<Change>, last: Change, status: Status)
    ensures CountOf(changes + [last], status) == CountOf(changes, status) + if last.status == status then 1 else 0
  {
    if changes == [] {
      assert changes + [last] == [last];
    } else {
      CountSnoc(changes[1..], last, status);
      assert (changes + [last])[1..] == changes[1..] + [last];
    }
  }

  lemma {:induction false} CountIsNumber(changes: seq<Change>, status: Status)
    ensures CountOf(changes, status) == |StatusPlaces(changes, status)|
    decreases |changes|
  {
    if changes != [] {
      var init, last := changes[..|changes| - 1], |changes| - 1;
      CountIsNumber(init, status);
      CountSnoc(init, changes[last], status);
      assert changes == init + [changes[last]];
      StatusPlacesSnoc(init, changes[last], status);
    }
  }

  lemma {:induction false} StatusPlacesSnoc(init: seq<Change>, last: Change, status: Status)
    ensures StatusPlaces(init + [last], status)
            == if last.status == status then StatusPlaces(init, status) + {|init|} else StatusPlaces(init, status)
  {
  }

  // ---- The report ---------------------------------------------------------------------------------

  /**
   * A complete report, whatever invocations led to it: it lists every note of the state that is not
   * unmoved on both sides, in the state's order, then every note of the store that the state does not
   * know, in the store's order; and it counts every note under its status.
   */
  lemma {:induction false} CompleteReportMeans(w: World, file: Option<Checkpoint>, runs: seq<Invocation>,
                                               limit: Option<nat>, budget: nat)
    returns (known: seq<Change>, added: seq<AppleNote>)
    requires FaithfulFile(w, file) && Lists(w.order, w.state.notes)
    requires var scanned := Scan(w, AfterInvocations(w, file, runs), limit, budget);
             scanned.outcome.Ok? && scanned.outcome.value.complete
    ensures forall n | n in w.lib.notes :: n.markdown.Some?
    ensures |known| == |w.order| && (forall uuid | uuid in w.order :: uuid in w.state.notes)
    ensures forall i | 0 <= i < |known| :: KnownRight(w, w.order[i], known[i])
    ensures Picked(w.lib.notes, NewPlaces(w.state, w.lib.notes), added)
    ensures var report := Scan(w, AfterInvocations(w, file, runs), limit, budget).outcome.value;
            var all := known + Added(added);
            && Picked(all, ChangePlaces(all), report.changes)
            && forall status :: status in report.summary && report.summary[status] == |StatusPlaces(all, status)|
  {
    CompleteIsOnePass(w, file, runs, limit, budget);
    known, added := OnePassMeans(w);
  }

  lemma {:induction false} OnePassMeans(w: World) returns (known: seq<Change>, added: seq<AppleNote>)
    requires Lists(w.order, w.state.notes) && forall n | n in w.lib.notes :: n.markdown.Some?
    ensures |known| == |w.order| && (forall uuid | uuid in w.order :: uuid in w.state.notes)
    ensures forall i | 0 <= i < |known| :: KnownRight(w, w.order[i], known[i])
    ensures Picked(w.lib.notes, NewPlaces(w.state, w.lib.notes), added)
    ensures var all := known + Added(added);
            && Picked(all, ChangePlaces(all), Listed(OnePass(w)))
            && forall status ::
                 status in Summary(OnePass(w)) && Summary(OnePass(w))[status] == |StatusPlaces(all, status)|
  {
    forall uuid | uuid in w.order ensures uuid in w.state.notes {
      assert uuid in (set u | u in w.order);
    }
    known := KnownChanges(w, AppleNow(w), FullView(w), w.order);
    added := NewChangesAreAdded(w.state, w.lib.notes);
    KnownChangesAre(w, AppleNow(w), FullView(w), w.order);
    forall i | 0 <= i < |known| ensures KnownRight(w, w.order[i], known[i]) {
      KnownChangeIsRight(w, w.order[i]);
    }
    ListedArePicked(known + Added(added));
    forall status
      ensures status in Summary(OnePass(w))
              && Summary(OnePass(w))[status] == |StatusPlaces(known + Added(added), status)|
    {
      CountIsNumber(known + Added(added), status);
      assert status in STATUSES;
    }
  }

  // ---- What one invocation observes ---------------------------------------------------------------

  /** The notes observed since `before`, and those of them whose file was read. */
  function Observed(before: Seen, after: Seen): set<string> {
    after.Keys - before.Keys
  }

  function Fetched(w: World, before: Seen, after: Seen): set<string> {
    set uuid | uuid in Observed(before, after) && uuid in w.state.notes && w.state.notes[uuid].path in w.files
  }

  /** Every fiftieth new observation is saved, with all before it. */
  ghost predicate SavedEveryFifty(w: World, before: Seen, added: nat, marks: seq<Mark>) {
    && |marks| == added / 50
    && forall i | 0 <= i < |marks| ::
         marks[i].SaveMark? && before.Keys <= marks[i].checkpoint.seen.Keys
         && |Observed(before, marks[i].checkpoint.seen)| == 50 * (i + 1)
  }

  /** The counters of a sweep that started from `before` with none. */
  ghost predicate Counted(w: World, before: Seen, limit: Option<nat>, s: Sweep) {
    && before.Keys <= s.seen.Keys && s.seen.Keys <= w.state.notes.Keys
    && s.added == |Observed(before, s.seen)| && s.fetched == |Fetched(w, before, s.seen)|
    && (limit.Some? ==> s.added <= limit.value)
    && (!s.failed ==> SavedEveryFifty(w, before, s.added, s.marks))
  }

  lemma {:induction false} NotedIsCounted(w: World, before: Seen, limit: Option<nat>, uuid: string, s: Sweep)
    requires Counted(w, before, limit, s) && !s.failed && !AtLimit(limit, s.added)
    requires uuid in w.state.notes && uuid !in s.seen
    ensures Counted(w, before, limit, Noted(w, uuid, s))
  {
    hide SavedEveryFifty, ObserveAt, Observed, Fetched;
    var seen := s.seen[uuid := ObserveAt(w, uuid)];
    OneMoreObserved(w, before, s.seen, uuid, ObserveAt(w, uuid));
    SavedGrows(w, before, s.added, s.marks, seen);
  }

  lemma {:induction false} OneMoreObserved(w: World, before: Seen, seen: Seen, uuid: string, o: Observation)
    requires before.Keys <= seen.Keys && uuid !in seen && uuid in w.state.notes
    ensures |Observed(before, seen[uuid := o])| == |Observed(before, seen)| + 1
    ensures |Fetched(w, before, seen[uuid := o])| == |Fetched(w, before, seen)| + if Missing(w, uuid) then 0 else 1
  {
    var more := seen[uuid := o];
    assert Observed(before, more) == Observed(before, seen) + {uuid};
    OneMoreFetched(w, before, seen, uuid, more);
  }

  lemma {:induction false} OneMoreFetched(w: World, before: Seen, seen: Seen, uuid: string, more: Seen)
    requires Observed(before, more) == Observed(before, seen) + {uuid}
    requires uuid !in Observed(before, seen) && uuid in w.state.notes
    ensures |Fetched(w, before, more)| == |Fetched(w, before, seen)| + if Missing(w, uuid) then 0 else 1
  {
    hide Observed;
    if Missing(w, uuid) {
      assert Fetched(w, before, more) == Fetched(w, before, seen);
    } else {
      assert Fetched(w, before, more) == Fetched(w, before, seen) + {uuid};
    }
  }

  lemma {:induction false} SavedGrows(w: World, before: Seen, added: nat, marks: seq<Mark>, seen: Seen)
    requires SavedEveryFifty(w, before, added, marks)
    requires before.Keys <= seen.Keys && |Observed(before, seen)| == added + 1
    ensures SavedEveryFifty(w, before, added + 1, if (added + 1) % 50 == 0 then marks + [Saving(w, seen)] else marks)
  {
    hide Observed;
    if (added + 1) % 50 == 0 {
      assert (added + 1) / 50 == added / 50 + 1 && added + 1 == 50 * (added / 50 + 1);
    } else {
      assert (added + 1) / 50 == added / 50;
    }
  }

  lemma {:induction false} SweepIsCounted(w: World, before: Seen, limit: Option<nat>, keys: seq<string>, s: Sweep)
    requires Counted(w, before, limit, s) && !s.failed
    ensures Counted(w, before, limit, ReconcileScan.SweepFrom(w, limit, keys, s))
    decreases |keys|
  {
    hide Counted, Noted;
    if keys != [] && !s.cut {
      var uuid, next := keys[0], SweepOne(w, limit, keys[0], s);
      if uuid !in s.seen && uuid in w.state.notes && s.budget > 0 && !AtLimit(limit, s.added)
         && w.state.notes[uuid].path !in w.unreadable {
        BudgetIsNotCounted(w, before, limit, s, s.(budget := s.budget - 1));
        NotedIsCounted(w, before, limit, uuid, s.(budget := s.budget - 1));
      } else {
        BudgetIsNotCounted(w, before, limit, s, next);
      }
      if !next.failed { SweepIsCounted(w, before, limit, keys[1..], next); }
    }
  }

  lemma {:induction false} BudgetIsNotCounted(w: World, before: Seen, limit: Option<nat>, s: Sweep, next: Sweep)
    requires Counted(w, before, limit, s) && !s.failed
    requires next.seen == s.seen && next.added == s.added && next.fetched == s.fetched
    requires next.failed || next.marks == s.marks
    ensures Counted(w, before, limit, next)
  {
  }

  function Start(seen: Seen, budget: nat): Sweep {
    Sweep(seen, 0, 0, budget, [], false, false)
  }

  lemma {:induction false} StartIsCounted(w: World, before: Seen, limit: Option<nat>, budget: nat)
    requires before.Keys <= w.state.notes.Keys
    ensures Counted(w, before, limit, Start(before, budget))
  {
    assert Observed(before, before) == {} && Fetched(w, before, before) == {};
  }

  /** An invocation that reaches the vault is one sweep. */
  lemma {:induction false} ScanIsOneSweep(w: World, file: Option<Checkpoint>, limit: Option<nat>, budget: nat)
    returns (apple: Apple, s: Sweep)
    requires FaithfulFile(w, file) && budget >= 4
    requires AppleFrom(w.lib, w.state, w.lib.notes, map[], budget - 4).Known?
    ensures Scan(w, file, limit, budget) == Finished(w, apple, s) && Counted(w, Resumed(w, file), limit, s)
    ensures AppleFrom(w.lib, w.state, w.lib.notes, map[], budget - 4).apple == apple
    ensures var left := AppleFrom(w.lib, w.state, w.lib.notes, map[], budget - 4).budget;
            s == ReconcileScan.SweepFrom(w, limit, w.order, Start(Resumed(w, file), left))
  {
    var before, left := Resumed(w, file), AppleFrom(w.lib, w.state, w.lib.notes, map[], budget - 4).budget;
    apple := AppleFrom(w.lib, w.state, w.lib.notes, map[], budget - 4).apple;
    hide Counted;
    StartIsCounted(w, before, limit, left);
    SweepIsCounted(w, before, limit, w.order, Start(before, left));
    s := ReconcileScan.SweepFrom(w, limit, w.order, Start(before, left));
  }

  /**
   * What an invocation that reached the vault reports and saves: it observed no more new notes than
   * its limit, read the files of those that have one, and saved after every fiftieth, so that a kill
   * costs at most forty-nine observations.
   */
  lemma {:induction false} InvocationCounts(w: World, file: Option<Checkpoint>, limit: Option<nat>, budget: nat)
    returns (seen: Seen)
    requires FaithfulFile(w, file)
    requires var scanned := Scan(w, file, limit, budget); scanned.outcome.Ok? && scanned.outcome.value.phase == AtVault
    ensures var before, scanned := Resumed(w, file), Scan(w, file, limit, budget);
            var report, news := scanned.outcome.value, |Observed(before, seen)|;
            && before.Keys <= seen.Keys && report.observed == |seen| && report.fetched == |Fetched(w, before, seen)|
            && (limit.Some? ==> news <= limit.value)
            && |scanned.marks| > 0 && SavedEveryFifty(w, before, news, scanned.marks[..|scanned.marks| - 1])
            && scanned.marks[|scanned.marks| - 1]
               == if report.complete then ClearMark else SaveMark(Checkpoint(1, ScopeOf(w), seen))
  {
    hide SavedEveryFifty;
    assert budget >= 4 && AppleFrom(w.lib, w.state, w.lib.notes, map[], budget - 4).Known?;
    var apple, s := ScanIsOneSweep(w, file, limit, budget);
    hide Scan, AppleFrom;
    seen := s.seen;
    var scanned := Finished(w, apple, s);
    assert scanned.marks[..|scanned.marks| - 1] == s.marks;
  }

  // ---- How far it gets ----------------------------------------------------------------------------

  /** The notes of `keys` still to be observed. */
  function OpenIn(w: World, keys: seq<string>, seen: Seen): set<string> {
    set uuid | uuid in keys && uuid !in seen && uuid in w.state.notes
  }

  lemma {:induction false} OpenStep(w: World, keys: seq<string>, seen: Seen, o: Observation)
    requires keys != [] && forall i, j | 0 <= i < j < |keys| :: keys[i] != keys[j]
    ensures forall i, j | 0 <= i < j < |keys[1..]| :: keys[1..][i] != keys[1..][j]
    ensures if keys[0] in seen || keys[0] !in w.state.notes then OpenIn(w, keys, seen) == OpenIn(w, keys[1..], seen)
            else |OpenIn(w, keys, seen)| == |OpenIn(w, keys[1..], seen[keys[0] := o])| + 1
  {
    var first, rest := keys[0], keys[1..];
    assert keys == [first] + rest;
    assert forall i | 0 <= i < |rest| :: rest[i] == keys[i + 1];
    if first in seen || first !in w.state.notes {
      assert OpenIn(w, keys, seen) == OpenIn(w, rest, seen);
    } else {
      assert first !in rest;
      assert OpenIn(w, keys, seen) == OpenIn(w, rest, seen[first := o]) + {first};
    }
  }

  lemma {:induction false} LimitedSweep(w: World, limit: nat, keys: seq<string>, s: Sweep)
    requires !s.failed && !s.cut && s.budget > |keys| && w.unreadable == {} && s.added <= limit
    requires forall i, j | 0 <= i < j < |keys| :: keys[i] != keys[j]
    ensures var next, open := ReconcileScan.SweepFrom(w, Some(limit), keys, s), |OpenIn(w, keys, s.seen)|;
            && !next.failed && next.budget > 0
            && next.added - s.added == if open <= limit - s.added then open else limit - s.added
    decreases |keys|
  {
    hide OpenIn, ObserveAt;
    if keys != [] {
      var uuid, next := keys[0], SweepOne(w, Some(limit), keys[0], s);
      if uuid in w.state.notes {
        OpenStep(w, keys, s.seen, ObserveAt(w, uuid));
      } else {
        OpenStep(w, keys, s.seen, Observation(false, false, None));
      }
      if uuid in s.seen || uuid !in w.state.notes || s.added < limit {
        LimitedSweep(w, limit, keys[1..], next);
      }
    } else {
      NothingOpen(w, s.seen);
    }
  }

  lemma {:induction false} NothingOpen(w: World, seen: Seen)
    ensures OpenIn(w, [], seen) == {}
  {
  }

  /** An invocation with time enough and readable files observes as many new notes as its limit, or all there are. */
  lemma {:induction false} LimitedScanAdvances(w: World, file: Option<Checkpoint>, limit: nat, budget: nat)
    requires FaithfulFile(w, file) && Lists(w.order, w.state.notes) && w.unreadable == {}
    requires forall n | n in w.lib.notes :: n.markdown.Some?
    requires budget > 4 + |w.lib.notes| + |w.order|
    ensures var outcome, before := Scan(w, file, Some(limit), budget).outcome, |Resumed(w, file)|;
            && outcome.Ok? && outcome.value.phase == AtVault
            && outcome.value.observed == (if |w.state.notes| - before <= limit then |w.state.notes| else before + limit)
            && (outcome.value.complete <==> |w.state.notes| - before <= limit)
  {
    var seen := Resumed(w, file);
    AppleFromIsEvidence(w.lib, w.state, w.lib.notes, map[], budget - 4);
    var apple, s := ScanIsOneSweep(w, file, Some(limit), budget);
    var left := AppleFrom(w.lib, w.state, w.lib.notes, map[], budget - 4).budget;
    hide Scan, AppleFrom, OpenIn, SavedEveryFifty, Resumed, Observed, Fetched;
    LimitedSweep(w, limit, w.order, Start(seen, left));
    OpenNotes(w, seen);
    KeysCount(seen, s.seen);
  }

  lemma {:induction false} OpenNotes(w: World, seen: Seen)
    requires Lists(w.order, w.state.notes) && seen.Keys <= w.state.notes.Keys
    ensures |OpenIn(w, w.order, seen)| == |w.state.notes| - |seen|
  {
    assert forall uuid :: uuid in w.order <==> uuid in (set u | u in w.order);
    assert OpenIn(w, w.order, seen) == w.state.notes.Keys - seen.Keys;
    assert |w.state.notes.Keys - seen.Keys| == |w.state.notes.Keys| - |seen.Keys|;
  }

  lemma {:induction false} KeysCount(before: Seen, after: Seen)
    requires before.Keys <= after.Keys
    ensures |after| == |before| + |Observed(before, after)|
  {
    assert after.Keys == before.Keys + Observed(before, after);
  }
}
