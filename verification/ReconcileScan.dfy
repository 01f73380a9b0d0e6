/**
 * The resumable reconcile scan (packages/apple-notes/fulcra_apple_notes/sync.py, `_scan_reconcile`;
 * reconcile_checkpoint.py): bounded, killable invocations that together refine one unbounded pass.
 */
module ReconcileScan {
  import opened Wrappers
  import opened NoteRender
  import opened NoteSync
  import opened NoteReconcile

  const VERSION := 1
  const CHECKPOINT_EVERY := 50

  /** What a checkpoint is bound to: the container and the sync baseline. */
  datatype Scope = Scope(container: string, version: nat, notes: map<string, Entry>, media: map<string, Media>)

  type Seen = map<string, Observation>

  datatype Checkpoint = Checkpoint(version: nat, scope: Scope, seen: Seen)

  /** Everything an invocation reads; `order` is the order of the state's notes. */
  datatype World = World(
    lib: Library, container: string, version: nat, state: State, order: seq<string>, files: Files,
    unreadable: set<string>)

  /** A change of the checkpoint file. */
  datatype Mark = SaveMark(checkpoint: Checkpoint) | ClearMark

  datatype Phase = AtState | AtSnapshot | AtApple | AtVault

  datatype Report = Report(complete: bool, phase: Phase, observed: nat, fetched: nat, summary: map<Status, nat>,
                           changes: seq<Change>)

  datatype ScanError = Undecodable | VaultUnreadable

  datatype Scanned = Scanned(outcome: Result<Report, ScanError>, marks: seq<Mark>)

  function ScopeOf(w: World): Scope {
    Scope(w.container, w.version, w.state.notes, w.state.media)
  }

  // ---- The checkpoint file --------------------------------------------------------------------------

  predicate ValidObservation(o: Observation) {
    (!o.present ==> !o.hasFence) && (o.hasFence <==> o.bodyHash.Some?)
  }

  /** `reconcile_checkpoint.load`: anything stale or malformed counts as nothing. */
  function Load(file: Option<Checkpoint>, scope: Scope): Seen {
    match file
    case None => map[]
    case Some(c) =>
      if c.version != VERSION || c.scope != scope
        || (exists uuid | uuid in c.seen :: !ValidObservation(c.seen[uuid])) then
        map[]
      else c.seen
  }

  function Restrict(seen: Seen, entries: map<string, Entry>): Seen {
    map uuid | uuid in seen && uuid in entries :: seen[uuid]
  }

  /** `load`, then only the notes the state still has. */
  function Resumed(w: World, file: Option<Checkpoint>): Seen {
    Restrict(Load(file, ScopeOf(w)), w.state.notes)
  }

  function Saving(w: World, seen: Seen): Mark {
    SaveMark(Checkpoint(VERSION, ScopeOf(w), seen))
  }

  function ApplyMarks(file: Option<Checkpoint>, marks: seq<Mark>): Option<Checkpoint> {
    if marks == [] then file
    else match marks[|marks| - 1]
         case SaveMark(checkpoint) => Some(checkpoint)
         case ClearMark => None
  }

  // ---- The Apple side -----------------------------------------------------------------------------

  type Apple = map<string, Evidence>

  datatype AppleRead = Expired | Broken | Known(apple: Apple, budget: nat)

  function AppleFrom(lib: Library, state: State, notes: seq<AppleNote>, apple: Apple, budget: nat): AppleRead
    decreases |notes|
  {
    if notes == [] then Known(apple, budget)
    else if budget == 0 then Expired
    else if notes[0].markdown.None? then Broken
    else AppleFrom(lib, state, notes[1..], apple[notes[0].uuid := EvidenceOf(lib, state, notes[0])], budget - 1)
  }

  method ReadApple(w: World, budget: nat) returns (read: AppleRead)
    ensures read == AppleFrom(w.lib, w.state, w.lib.notes, map[], budget)
  {
    var apple: Apple, left := map[], budget;
    var notes := w.lib.notes;
    for i := 0 to |notes|
      invariant AppleFrom(w.lib, w.state, notes[i..], apple, left) == AppleFrom(w.lib, w.state, notes, map[], budget)
    {
      assert notes[i..][1..] == notes[i + 1..];
      if left == 0 { return Expired; }
      left := left - 1;
      if notes[i].markdown.None? { return Broken; }
      var links := LinksFromState(w.lib.attachments(notes[i].uuid), w.state);
      apple := apple[notes[i].uuid := Evidence(w.lib.hash(w.lib.resolve(notes[i].markdown.value, links)),
                                               ModifiedOf(notes[i]))];
    }
    assert notes[|notes|..] == [];
    read := Known(apple, left);
  }

  // ---- The vault side -----------------------------------------------------------------------------

  datatype Sweep = Sweep(seen: Seen, added: nat, fetched: nat, budget: nat, marks: seq<Mark>, failed: bool, cut: bool)

  function ObserveAt(w: World, uuid: string): Observation
    requires uuid in w.state.notes
  {
    Observe(w.lib, if w.state.notes[uuid].path in w.files then Some(w.files[w.state.notes[uuid].path]) else None)
  }

  predicate Missing(w: World, uuid: string)
    requires uuid in w.state.notes
  {
    w.state.notes[uuid].path !in w.files
  }

  predicate AtLimit(limit: Option<nat>, added: nat) {
    limit.Some? && added >= limit.value
  }

  function Noted(w: World, uuid: string, s: Sweep): Sweep
    requires uuid in w.state.notes
  {
    var seen := s.seen[uuid := ObserveAt(w, uuid)];
    var marks := if (s.added + 1) % CHECKPOINT_EVERY == 0 then s.marks + [Saving(w, seen)] else s.marks;
    s.(seen := seen, added := s.added + 1, fetched := if Missing(w, uuid) then s.fetched else s.fetched + 1,
       marks := marks)
  }

  /** One turn of the loop over the state's notes. */
  function SweepOne(w: World, limit: Option<nat>, uuid: string, s: Sweep): Sweep {
    if uuid in s.seen || uuid !in w.state.notes then s
    else if s.budget == 0 then s.(cut := true)
    else
      var s1 := s.(budget := s.budget - 1);
      if AtLimit(limit, s.added) then s1.(cut := true)
      else if w.state.notes[uuid].path in w.unreadable then s1.(failed := true, marks := s.marks + [Saving(w, s.seen)])
      else Noted(w, uuid, s1)
  }

  function SweepFrom(w: World, limit: Option<nat>, keys: seq<string>, s: Sweep): Sweep
    decreases |keys|
  {
    if keys == [] || s.failed || s.cut then s else SweepFrom(w, limit, keys[1..], SweepOne(w, limit, keys[0], s))
  }

  // ---- Classification -------------------------------------------------------------------------------

  function LookupApple(apple: Apple, uuid: string): Option<Evidence> {
    if uuid in apple then Some(apple[uuid]) else None
  }

  function KnownChanges(w: World, apple: Apple, seen: Seen, keys: seq<string>): seq<Change>
    decreases |keys|
  {
    if keys == [] then []
    else (if keys[0] in seen && keys[0] in w.state.notes
          then [Classify(keys[0], LookupApple(apple, keys[0]), seen[keys[0]], Some(w.state.notes[keys[0]]))] else [])
         + KnownChanges(w, apple, seen, keys[1..])
  }

  function NewChanges(state: State, notes: seq<AppleNote>): seq<Change>
    decreases |notes|
  {
    if notes == [] then []
    else (if notes[0].uuid in state.notes then [] else [Change(notes[0].uuid, NewInApple, "", notes[0].title)])
         + NewChanges(state, notes[1..])
  }

  function AllChanges(w: World, apple: Apple, seen: Seen): seq<Change> {
    KnownChanges(w, apple, seen, w.order) + NewChanges(w.state, w.lib.notes)
  }

  function CountOf(changes: seq<Change>, status: Status): nat {
    if changes == [] then 0 else (if changes[0].status == status then 1 else 0) + CountOf(changes[1..], status)
  }

  const STATUSES := {Unchanged, AppleChanged, VaultEdited, Conflict, NewInApple, MissingInVault, DeletedInApple}

  /** `summarize`. */
  function Summary(changes: seq<Change>): map<Status, nat> {
    map status | status in STATUSES :: CountOf(changes, status)
  }

  /** The changes a report lists: all but the unchanged notes. */
  function Listed(changes: seq<Change>): seq<Change> {
    if changes == [] then [] else (if changes[0].status == Unchanged then [] else [changes[0]]) + Listed(changes[1..])
  }

  // ---- The invocation -------------------------------------------------------------------------------

  function Stopped(w: World, phase: Phase, seen: Seen): Scanned {
    Scanned(Ok(Report(false, phase, |seen|, 0, Summary([]), [])), [Saving(w, seen)])
  }

  function Finished(w: World, apple: Apple, s: Sweep): Scanned {
    if s.failed then Scanned(Err(VaultUnreadable), s.marks)
    else
      var changes := AllChanges(w, apple, s.seen);
      var complete := |s.seen| == |w.state.notes| && s.budget > 0;
      Scanned(Ok(Report(complete, AtVault, |s.seen|, s.fetched, Summary(changes), Listed(changes))),
              s.marks + [if complete then ClearMark else Saving(w, s.seen)])
  }

  /** One invocation; `budget` counts the deadline checks that still pass. */
  function Scan(w: World, file: Option<Checkpoint>, limit: Option<nat>, budget: nat): Scanned {
    if budget == 0 then Scanned(Ok(Report(false, AtState, 0, 0, Summary([]), [])), [])
    else
      var seen := Resumed(w, file);
      if budget < 4 then Stopped(w, AtSnapshot, seen)
      else match AppleFrom(w.lib, w.state, w.lib.notes, map[], budget - 4)
           case Expired => Stopped(w, AtApple, seen)
           case Broken => Scanned(Err(Undecodable), [Saving(w, seen)])
           case Known(apple, left) =>
             Finished(w, apple, SweepFrom(w, limit, w.order, Sweep(seen, 0, 0, left, [], false, false)))
  }

  /** `_scan_reconcile`. */
  method ScanReconcile(w: World, file: Option<Checkpoint>, limit: Option<nat>, budget: nat) returns (scanned: Scanned)
    ensures scanned == Scan(w, file, limit, budget)
  {
    if budget == 0 { return Scanned(Ok(Report(false, AtState, 0, 0, Summary([]), [])), []); }
    var seen := Resumed(w, file);
    if budget < 4 { return Stopped(w, AtSnapshot, seen); }
    var read := ReadApple(w, budget - 4);
    match read {
      case Expired => return Stopped(w, AtApple, seen);
      case Broken => return Scanned(Err(Undecodable), [Saving(w, seen)]);
      case Known(apple, left) =>
        var s := Sweep(seen, 0, 0, left, [], false, false);
        ghost var start := s;
        var i := 0;
        while i < |w.order| && !s.failed && !s.cut
          invariant i <= |w.order|
          invariant SweepFrom(w, limit, w.order[i..], s) == SweepFrom(w, limit, w.order, start)
          decreases |w.order| - i
        {
          assert w.order[i..][1..] == w.order[i + 1..];
          s := SweepOne(w, limit, w.order[i], s);
          i := i + 1;
        }
        scanned := Finished(w, apple, s);
    }
  }

  // ---- One pass -------------------------------------------------------------------------------------

  /** The state's notes, each once. */
  ghost predicate Lists(order: seq<string>, entries: map<string, Entry>) {
    && (set uuid | uuid in order) == entries.Keys
    && forall i, j | 0 <= i < j < |order| :: order[i] != order[j]
  }

  /** Every note observed now. */
  function FullView(w: World): Seen {
    map uuid | uuid in w.state.notes :: ObserveAt(w, uuid)
  }

  function AppleNow(w: World): Apple
    requires forall n | n in w.lib.notes :: n.markdown.Some?
  {
    EvidenceFrom(w.lib, w.state, w.lib.notes, map[])
  }

  function EvidenceFrom(lib: Library, state: State, notes: seq<AppleNote>, apple: Apple): Apple
    requires forall n | n in notes :: n.markdown.Some?
    decreases |notes|
  {
    if notes == [] then apple
    else EvidenceFrom(lib, state, notes[1..], apple[notes[0].uuid := EvidenceOf(lib, state, notes[0])])
  }

  /** What one unbounded pass over the whole vault reports. */
  function OnePass(w: World): seq<Change>
    requires forall n | n in w.lib.notes :: n.markdown.Some?
  {
    AllChanges(w, AppleNow(w), FullView(w))
  }

  lemma {:induction false} AppleFromIsEvidence(lib: Library, state: State, notes: seq<AppleNote>, apple: Apple,
                                               budget: nat)
    ensures match AppleFrom(lib, state, notes, apple, budget)
            case Known(read, left) =>
              (forall n | n in notes :: n.markdown.Some?) && read == EvidenceFrom(lib, state, notes, apple)
              && budget >= |notes| && left == budget - |notes|
            case Broken => exists n | n in notes :: n.markdown.None?
            case Expired => budget < |notes|
    decreases |notes|
  {
    if notes != [] && budget > 0 {
      if notes[0].markdown.Some? {
        AppleFromIsEvidence(lib, state, notes[1..], apple[notes[0].uuid := EvidenceOf(lib, state, notes[0])],
                            budget - 1);
      } else {
        assert notes[0] in notes;
      }
    }
  }

  // ---- Observations stay true -----------------------------------------------------------------------

  /** Every observation is what the vault still shows. */
  predicate Faithful(w: World, seen: Seen) {
    seen.Keys <= w.state.notes.Keys && forall uuid | uuid in seen :: seen[uuid] == FullView(w)[uuid]
  }

  predicate FaithfulFile(w: World, file: Option<Checkpoint>) {
    Faithful(w, Resumed(w, file))
  }

  lemma ObservationsAreValid(lib: Library, text: Option<string>)
    ensures ValidObservation(Observe(lib, text))
  {
  }

  /** What an invocation saves it can resume. */
  lemma {:induction false} SavedIsResumed(w: World, seen: Seen)
    requires Faithful(w, seen)
    ensures Resumed(w, Some(Checkpoint(VERSION, ScopeOf(w), seen))) == seen
  {
    forall uuid | uuid in seen ensures ValidObservation(seen[uuid]) {
      ObservationsAreValid(w.lib,
                           if w.state.notes[uuid].path in w.files then Some(w.files[w.state.notes[uuid].path])
                           else None);
    }
  }

  /** The marks of an invocation: each saves observations that are true and hold those before it. */
  ghost predicate GoodMarks(w: World, before: Seen, marks: seq<Mark>, seen: Seen) {
    && Faithful(w, seen) && Faithful(w, before) && before.Keys <= seen.Keys
    && (forall i | 0 <= i < |marks| :: GoodMark(w, before, marks[i]))
    && (forall i | 0 <= i < |marks| :: MarkSeen(w, marks[i]) <= seen.Keys)
    && (forall i, j | 0 <= i < j < |marks| :: MarkSeen(w, marks[i]) <= MarkSeen(w, marks[j]))
  }

  ghost predicate GoodMark(w: World, before: Seen, mark: Mark) {
    mark.SaveMark? && mark == Saving(w, mark.checkpoint.seen) && Faithful(w, mark.checkpoint.seen)
    && before.Keys <= mark.checkpoint.seen.Keys
  }

  /** The notes a mark leaves observed; a clear only follows a complete scan. */
  function MarkSeen(w: World, mark: Mark): set<string> {
    match mark case SaveMark(c) => c.seen.Keys case ClearMark => w.state.notes.Keys
  }

  lemma MoreMarks(w: World, before: Seen, marks: seq<Mark>, seen: Seen, next: Seen)
    requires GoodMarks(w, before, marks, seen) && Faithful(w, next) && seen.Keys <= next.Keys
    ensures GoodMarks(w, before, marks, next) && GoodMarks(w, before, marks + [Saving(w, next)], next)
  {
  }

  lemma {:induction false} NotedKeeps(w: World, before: Seen, uuid: string, s: Sweep)
    requires GoodMarks(w, before, s.marks, s.seen) && uuid in w.state.notes && uuid !in s.seen
    ensures GoodMarks(w, before, Noted(w, uuid, s).marks, Noted(w, uuid, s).seen)
            && s.seen.Keys <= Noted(w, uuid, s).seen.Keys
  {
    var next := s.seen[uuid := ObserveAt(w, uuid)];
    assert Faithful(w, next);
    MoreMarks(w, before, s.marks, s.seen, next);
  }

  lemma {:induction false} SweepOneKeeps(w: World, limit: Option<nat>, before: Seen, uuid: string, s: Sweep)
    requires GoodMarks(w, before, s.marks, s.seen)
    ensures var next := SweepOne(w, limit, uuid, s);
            GoodMarks(w, before, next.marks, next.seen) && s.seen.Keys <= next.seen.Keys
  {
    hide Noted, ObserveAt, GoodMark;
    if uuid !in s.seen && uuid in w.state.notes && s.budget > 0 && !AtLimit(limit, s.added) {
      if w.state.notes[uuid].path in w.unreadable {
        MoreMarks(w, before, s.marks, s.seen, s.seen);
      } else {
        NotedKeeps(w, before, uuid, s.(budget := s.budget - 1));
      }
    }
  }

  lemma {:induction false} SweepKeeps(w: World, limit: Option<nat>, before: Seen, keys: seq<string>, s: Sweep)
    requires GoodMarks(w, before, s.marks, s.seen)
    ensures var next := SweepFrom(w, limit, keys, s);
            GoodMarks(w, before, next.marks, next.seen) && s.seen.Keys <= next.seen.Keys
    decreases |keys|
  {
    if keys != [] && !s.failed && !s.cut {
      SweepOneKeeps(w, limit, before, keys[0], s);
      SweepKeeps(w, limit, before, keys[1..], SweepOne(w, limit, keys[0], s));
    }
  }

  // ---- Invocations and kills --------------------------------------------------------------------------

  /** What the checkpoint file holds after the first `cut` marks. */
  function AfterMarks(file: Option<Checkpoint>, marks: seq<Mark>, cut: nat): Option<Checkpoint> {
    ApplyMarks(file, if cut <= |marks| then marks[..cut] else marks)
  }

  lemma {:induction false} MarksAreFaithful(w: World, file: Option<Checkpoint>, marks: seq<Mark>, seen: Seen, cut: nat)
    requires FaithfulFile(w, file) && GoodMarks(w, Resumed(w, file), marks, seen)
    ensures var after := Resumed(w, AfterMarks(file, marks, cut));
            Faithful(w, after) && Resumed(w, file).Keys <= after.Keys <= seen.Keys
  {
    var kept := if cut <= |marks| then marks[..cut] else marks;
    if kept != [] {
      var last := marks[|kept| - 1];
      assert kept[|kept| - 1] == last && GoodMark(w, Resumed(w, file), last);
      SavedIsResumed(w, last.checkpoint.seen);
      assert MarkSeen(w, last) <= seen.Keys;
    }
  }

  /** The marks an invocation leaves, all but a final clear. */
  lemma {:induction false} ScanMarks(w: World, file: Option<Checkpoint>, limit: Option<nat>,
                                     budget: nat) returns (marks: seq<Mark>, seen: Seen)
    requires FaithfulFile(w, file)
    ensures GoodMarks(w, Resumed(w, file), marks, seen)
    ensures var scanned := Scan(w, file, limit, budget);
            scanned.marks == marks
              || (scanned.marks == marks + [ClearMark] && scanned.outcome.Ok? && scanned.outcome.value.complete)
  {
    var before := Resumed(w, file);
    MoreMarks(w, before, [], before, before);
    assert [] + [Saving(w, before)] == [Saving(w, before)];
    if budget == 0 { return [], before; }
    if budget < 4 { return [Saving(w, before)], before; }
    match AppleFrom(w.lib, w.state, w.lib.notes, map[], budget - 4) {
      case Expired => return [Saving(w, before)], before;
      case Broken => return [Saving(w, before)], before;
      case Known(apple, left) =>
        var start := Sweep(before, 0, 0, left, [], false, false);
        SweepKeeps(w, limit, before, w.order, start);
        var s := SweepFrom(w, limit, w.order, start);
        MoreMarks(w, before, s.marks, s.seen, s.seen);
        if !s.failed && !(|s.seen| == |w.state.notes| && s.budget > 0) { return s.marks + [Saving(w, s.seen)], s.seen; }
        return s.marks, s.seen;
    }
  }

  /**
   * Wherever an invocation is killed, what it leaves is true and holds all that was there before;
   * only an invocation that reported a complete scan gives its progress up.
   */
  lemma {:induction false} ProgressNeverShrinks(w: World, file: Option<Checkpoint>, limit: Option<nat>, budget: nat,
                                                cut: nat)
    requires FaithfulFile(w, file)
    ensures var scanned := Scan(w, file, limit, budget);
            var after := AfterMarks(file, scanned.marks, cut);
            && FaithfulFile(w, after)
            && (Resumed(w, file).Keys <= Resumed(w, after).Keys
                || (after == None && cut >= |scanned.marks| && scanned.outcome.Ok? && scanned.outcome.value.complete))
  {
    var scanned := Scan(w, file, limit, budget);
    var marks, seen := ScanMarks(w, file, limit, budget);
    if scanned.marks == marks {
      MarksAreFaithful(w, file, marks, seen, cut);
    } else if cut <= |marks| {
      MarksAreFaithful(w, file, marks, seen, cut);
      assert scanned.marks[..cut] == marks[..cut];
    } else {
      assert scanned.marks[..|scanned.marks|] == scanned.marks;
    }
  }

  /** A checkpoint of another scope is never used: the invocation does what it does without one. */
  lemma {:induction false} OtherScopeIsIgnored(w: World, file: Option<Checkpoint>, limit: Option<nat>, budget: nat)
    requires file.Some? && file.value.scope != ScopeOf(w)
    ensures Scan(w, file, limit, budget) == Scan(w, None, limit, budget)
  {
    assert Resumed(w, file) == Resumed(w, None);
  }

  datatype Invocation = Invocation(limit: Option<nat>, budget: nat, cut: nat)

  function AfterInvocations(w: World, file: Option<Checkpoint>, runs: seq<Invocation>): Option<Checkpoint>
    decreases |runs|
  {
    if runs == [] then file
    else
      var before := AfterInvocations(w, file, runs[..|runs| - 1]);
      var run := runs[|runs| - 1];
      AfterMarks(before, Scan(w, before, run.limit, run.budget).marks, run.cut)
  }

  lemma {:induction false} InvocationsKeepFaith(w: World, file: Option<Checkpoint>, runs: seq<Invocation>)
    requires FaithfulFile(w, file)
    ensures FaithfulFile(w, AfterInvocations(w, file, runs))
    decreases |runs|
  {
    if runs != [] {
      InvocationsKeepFaith(w, file, runs[..|runs| - 1]);
      var run := runs[|runs| - 1];
      ProgressNeverShrinks(w, AfterInvocations(w, file, runs[..|runs| - 1]), run.limit, run.budget, run.cut);
    }
  }

  // ---- Completeness ---------------------------------------------------------------------------------

  lemma {:induction false} SubsetOfSameSize<T>(a: set<T>, b: set<T>)
    requires a <= b && |a| == |b|
    ensures a == b
  {
    if x :| x in b && x !in a {
      assert a <= b - {x};
      CardinalityOfSubset(a, b - {x});
    }
  }

  lemma {:induction false} CardinalityOfSubset<T>(a: set<T>, b: set<T>)
    requires a <= b
    ensures |a| <= |b|
    decreases a
  {
    if x :| x in a { CardinalityOfSubset(a - {x}, b - {x}); }
  }

  lemma {:induction false} FullIsFullView(w: World, seen: Seen)
    requires Faithful(w, seen) && |seen| == |w.state.notes|
    ensures seen == FullView(w)
  {
    assert |seen.Keys| == |seen| && |w.state.notes.Keys| == |w.state.notes|;
    SubsetOfSameSize(seen.Keys, w.state.notes.Keys);
  }

  /**
   * Any sequence of invocations, with any limits, deadlines and kills, that reaches a complete
   * report returns exactly what one unbounded pass returns.
   */
  lemma {:induction false} CompleteIsOnePass(w: World, file: Option<Checkpoint>, runs: seq<Invocation>,
                                             limit: Option<nat>, budget: nat)
    requires FaithfulFile(w, file)
    requires var scanned := Scan(w, AfterInvocations(w, file, runs), limit, budget);
             scanned.outcome.Ok? && scanned.outcome.value.complete
    ensures forall n | n in w.lib.notes :: n.markdown.Some?
    ensures var report := Scan(w, AfterInvocations(w, file, runs), limit, budget).outcome.value;
            report.changes == Listed(OnePass(w)) && report.summary == Summary(OnePass(w))
              && report.observed == |w.state.notes|
  {
    var before := AfterInvocations(w, file, runs);
    InvocationsKeepFaith(w, file, runs);
    AppleFromIsEvidence(w.lib, w.state, w.lib.notes, map[], budget - 4);
    var seen := Resumed(w, before);
    MoreMarks(w, seen, [], seen, seen);
    var left := AppleFrom(w.lib, w.state, w.lib.notes, map[], budget - 4).budget;
    SweepKeeps(w, limit, seen, w.order, Sweep(seen, 0, 0, left, [], false, false));
    FullIsFullView(w, SweepFrom(w, limit, w.order, Sweep(seen, 0, 0, left, [], false, false)).seen);
  }

  lemma {:induction false} UnboundedSweep(w: World, keys: seq<string>, s: Sweep)
    requires !s.failed && !s.cut && s.budget > |keys| && w.unreadable == {}
    ensures var next := SweepFrom(w, None, keys, s);
            && !next.failed && next.budget > 0
            && next.seen.Keys == s.seen.Keys + (set uuid | uuid in keys && uuid in w.state.notes)
    decreases |keys|
  {
    if keys != [] {
      UnboundedSweep(w, keys[1..], SweepOne(w, None, keys[0], s));
      assert forall uuid :: uuid in keys <==> uuid == keys[0] || uuid in keys[1..];
    }
  }

  lemma {:induction false} UnboundedSweepSeesAll(w: World, seen: Seen, left: nat)
    requires Faithful(w, seen) && Lists(w.order, w.state.notes) && w.unreadable == {} && left > |w.order|
    ensures var s := SweepFrom(w, None, w.order, Sweep(seen, 0, 0, left, [], false, false));
            !s.failed && s.budget > 0 && |s.seen| == |w.state.notes|
  {
    hide SweepFrom, ObserveAt;
    UnboundedSweep(w, w.order, Sweep(seen, 0, 0, left, [], false, false));
    var s := SweepFrom(w, None, w.order, Sweep(seen, 0, 0, left, [], false, false));
    assert (set uuid | uuid in w.order && uuid in w.state.notes) == w.state.notes.Keys by {
      assert forall uuid :: uuid in w.order <==> uuid in (set u | u in w.order);
    }
    assert s.seen.Keys == w.state.notes.Keys;
    assert |s.seen.Keys| == |s.seen| && |w.state.notes.Keys| == |w.state.notes|;
  }

  /** One unlimited invocation with time enough completes: the pass the others are measured by exists. */
  lemma {:induction false} UnboundedScanCompletes(w: World, file: Option<Checkpoint>, budget: nat)
    requires FaithfulFile(w, file) && Lists(w.order, w.state.notes) && w.unreadable == {}
    requires forall n | n in w.lib.notes :: n.markdown.Some?
    requires budget > 4 + |w.lib.notes| + |w.order|
    ensures var scanned := Scan(w, file, None, budget);
            scanned.outcome.Ok? && scanned.outcome.value.complete && scanned.outcome.value.changes == Listed(OnePass(w))
  {
    hide SweepFrom, Scan, ObserveAt, Listed, OnePass, Load;
    AppleFromIsEvidence(w.lib, w.state, w.lib.notes, map[], budget - 4);
    UnboundedSweepSeesAll(w, Resumed(w, file), budget - 4 - |w.lib.notes|);
    ScanCompletes(w, file, budget);
    CompleteIsOnePass(w, file, [], None, budget);
  }

  lemma ScanCompletes(w: World, file: Option<Checkpoint>, budget: nat)
    requires budget > 4 && AppleFrom(w.lib, w.state, w.lib.notes, map[], budget - 4).Known?
    requires var left := AppleFrom(w.lib, w.state, w.lib.notes, map[], budget - 4).budget;
             var s := SweepFrom(w, None, w.order, Sweep(Resumed(w, file), 0, 0, left, [], false, false));
             !s.failed && s.budget > 0 && |s.seen| == |w.state.notes|
    ensures Scan(w, file, None, budget).outcome.Ok? && Scan(w, file, None, budget).outcome.value.complete
  {
  }
}
