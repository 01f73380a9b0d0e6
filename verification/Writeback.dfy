/**
 * Guarded writeback (packages/apple-notes/fulcra_apple_notes/collect_plugin.py, `_run_writeback`
 * and `_revalidated_body_for`; writeback.py, `plan_writeback`). Both sides may change at any
 * moment: the vault and the store are functions of time.
 */
module Writeback {
  import opened Wrappers
  import opened NoteText
  import opened NoteReader
  import opened NoteRender
  import opened NoteSync
  import opened NoteReconcile
  import opened Picking

  datatype StoreNote = StoreNote(pk: int, note: AppleNote)

  datatype Snapshot = Snapshot(notes: seq<StoreNote>, attachments: string -> seq<Attachment>)

  type VaultAt = nat -> Files
  type StoreAt = nat -> Snapshot

  function FindNote(notes: seq<StoreNote>, uuid: string): (found: Option<StoreNote>)
    ensures found.Some? ==> found.value in notes && found.value.note.uuid == uuid
    ensures found.None? ==> forall n | n in notes :: n.note.uuid != uuid
  {
    if notes == [] then None else if notes[0].note.uuid == uuid then Some(notes[0]) else FindNote(notes[1..], uuid)
  }

  // ---- Planning ---------------------------------------------------------------------------------

  datatype Reason =
    | NotAVaultEdit | NoteGone | HasAttachments
    | BaselineChanged | FenceAmbiguous | FenceMissing | IdentityChanged | Undecodable | Stale(status: Status)

  datatype Candidate = Candidate(change: Change, pk: int)

  function PlanReason(snap: Snapshot, allowLoss: bool, change: Change): Option<Reason> {
    if change.status != VaultEdited then Some(NotAVaultEdit)
    else if FindNote(snap.notes, change.uuid).None? then Some(NoteGone)
    else if snap.attachments(change.uuid) != [] && !allowLoss then Some(HasAttachments)
    else None
  }

  function AllowedOne(snap: Snapshot, allowLoss: bool, change: Change): seq<Candidate> {
    if PlanReason(snap, allowLoss, change).None? then [Candidate(change, FindNote(snap.notes, change.uuid).value.pk)]
    else []
  }

  function RefusedOne(snap: Snapshot, allowLoss: bool, change: Change): seq<(Change, Reason)> {
    match PlanReason(snap, allowLoss, change) case Some(reason) => [(change, reason)] case None => []
  }

  function Allowed(snap: Snapshot, allowLoss: bool, changes: seq<Change>): seq<Candidate>
    decreases |changes|
  {
    if changes == [] then []
    else Allowed(snap, allowLoss, changes[..|changes| - 1]) + AllowedOne(snap, allowLoss, changes[|changes| - 1])
  }

  function Refused(snap: Snapshot, allowLoss: bool, changes: seq<Change>): seq<(Change, Reason)>
    decreases |changes|
  {
    if changes == [] then []
    else Refused(snap, allowLoss, changes[..|changes| - 1]) + RefusedOne(snap, allowLoss, changes[|changes| - 1])
  }

  /** `plan_writeback`. */
  method PlanWriteback(changes: seq<Change>, snap: Snapshot, allowLoss: bool)
    returns (allowed: seq<Candidate>, refused: seq<(Change, Reason)>)
    ensures allowed == Allowed(snap, allowLoss, changes) && refused == Refused(snap, allowLoss, changes)
  {
    allowed, refused := [], [];
    for i := 0 to |changes|
      invariant allowed == Allowed(snap, allowLoss, changes[..i])
      invariant refused == Refused(snap, allowLoss, changes[..i])
    {
      assert changes[..i + 1][..i] == changes[..i];
      var found := FindNote(snap.notes, changes[i].uuid);
      var reason: Option<Reason> := None;
      if changes[i].status != VaultEdited {
        reason := Some(NotAVaultEdit);
      } else if found.None? {
        reason := Some(NoteGone);
      } else if snap.attachments(changes[i].uuid) != [] && !allowLoss {
        reason := Some(HasAttachments);
      }
      if reason.Some? {
        refused := refused + [(changes[i], reason.value)];
      } else {
        allowed := allowed + [Candidate(changes[i], found.value.pk)];
      }
    }
    assert changes[..|changes|] == changes;
  }

  /** Every change is either allowed or refused, and only vault edits of notes still there are allowed. */
  lemma {:induction false} PlanPartitions(changes: seq<Change>, snap: Snapshot, allowLoss: bool, change: Change)
    requires change in changes
    ensures IsAllowed(snap, allowLoss, changes, change) <==>
            change.status == VaultEdited && FindNote(snap.notes, change.uuid).Some?
              && (snap.attachments(change.uuid) == [] || allowLoss)
    ensures IsRefused(snap, allowLoss, changes, change) <==> !IsAllowed(snap, allowLoss, changes, change)
    ensures |Allowed(snap, allowLoss, changes)| + |Refused(snap, allowLoss, changes)| == |changes|
  {
    PlanMembers(changes, snap, allowLoss, change);
    PlanCounts(changes, snap, allowLoss);
  }

  ghost predicate IsAllowed(snap: Snapshot, allowLoss: bool, changes: seq<Change>, change: Change) {
    exists c :: c in Allowed(snap, allowLoss, changes) && c.change == change
  }

  ghost predicate IsRefused(snap: Snapshot, allowLoss: bool, changes: seq<Change>, change: Change) {
    exists r :: r in Refused(snap, allowLoss, changes) && r.0 == change
  }

  lemma {:induction false} PlanCounts(changes: seq<Change>, snap: Snapshot, allowLoss: bool)
    ensures |Allowed(snap, allowLoss, changes)| + |Refused(snap, allowLoss, changes)| == |changes|
    decreases |changes|
  {
    if changes != [] { PlanCounts(changes[..|changes| - 1], snap, allowLoss); }
  }

  lemma {:induction false} PlanMembers(changes: seq<Change>, snap: Snapshot, allowLoss: bool, change: Change)
    ensures IsAllowed(snap, allowLoss, changes, change) <==>
              change in changes && PlanReason(snap, allowLoss, change).None?
    ensures IsRefused(snap, allowLoss, changes, change) <==>
              change in changes && PlanReason(snap, allowLoss, change).Some?
    decreases |changes|
  {
    if changes != [] {
      var rest, last := changes[..|changes| - 1], changes[|changes| - 1];
      PlanMembers(rest, snap, allowLoss, change);
      assert changes == rest + [last];
      var a, r := AllowedOne(snap, allowLoss, last), RefusedOne(snap, allowLoss, last);
      assert IsAllowed(snap, allowLoss, changes, change) <==>
               IsAllowed(snap, allowLoss, rest, change) || (a != [] && last == change) by {
        if a != [] { assert a[0] in Allowed(snap, allowLoss, changes); }
      }
      assert IsRefused(snap, allowLoss, changes, change) <==>
               IsRefused(snap, allowLoss, rest, change) || (r != [] && last == change) by {
        if r != [] { assert r[0] in Refused(snap, allowLoss, changes); }
      }
    }
  }

  // ---- The plan, in order ---------------------------------------------------------------------------

  /** A vault edit of a note still there, without attachments unless they may be lost. */
  ghost predicate MayWrite(snap: Snapshot, allowLoss: bool, change: Change) {
    && change.status == VaultEdited && (exists n :: n in snap.notes && n.note.uuid == change.uuid)
    && (snap.attachments(change.uuid) == [] || allowLoss)
  }

  function ChangesOf(allowed: seq<Candidate>): seq<Change> {
    seq(|allowed|, i requires 0 <= i < |allowed| => allowed[i].change)
  }

  /** Why the plan refuses a change. */
  ghost predicate RefusedFor(snap: Snapshot, change: Change, reason: Reason) {
    match reason
    case NotAVaultEdit => change.status != VaultEdited
    case NoteGone => change.status == VaultEdited && forall n | n in snap.notes :: n.note.uuid != change.uuid
    case HasAttachments => && change.status == VaultEdited && snap.attachments(change.uuid) != []
                           && exists n :: n in snap.notes && n.note.uuid == change.uuid
    case _ => false
  }

  /** The first note of that uuid has the key. */
  ghost predicate IsKey(notes: seq<StoreNote>, uuid: string, pk: int) {
    exists i | 0 <= i < |notes| :: notes[i].note.uuid == uuid && notes[i].pk == pk
                                   && forall j | 0 <= j < i :: notes[j].note.uuid != uuid
  }

  lemma {:induction false} FindsFirst(notes: seq<StoreNote>, uuid: string)
    ensures FindNote(notes, uuid).Some? <==> exists n :: n in notes && n.note.uuid == uuid
    ensures FindNote(notes, uuid).Some? ==> IsKey(notes, uuid, FindNote(notes, uuid).value.pk)
  {
    if notes != [] && notes[0].note.uuid != uuid {
      FindsFirst(notes[1..], uuid);
      if FindNote(notes, uuid).Some? {
        var pk := FindNote(notes, uuid).value.pk;
        var i :| 0 <= i < |notes[1..]| && notes[1..][i].note.uuid == uuid && notes[1..][i].pk == pk
                 && forall j | 0 <= j < i :: notes[1..][j].note.uuid != uuid;
        assert notes[i + 1] == notes[1..][i];
        forall j | 0 <= j < i + 1 ensures notes[j].note.uuid != uuid {
          if j > 0 { assert notes[j] == notes[1..][j - 1]; }
        }
      }
    }
  }

  ghost function Writes(snap: Snapshot, allowLoss: bool, changes: seq<Change>): set<int> {
    set i | 0 <= i < |changes| && MayWrite(snap, allowLoss, changes[i])
  }

  ghost function Others(snap: Snapshot, allowLoss: bool, changes: seq<Change>): set<int> {
    set i | 0 <= i < |changes| && !MayWrite(snap, allowLoss, changes[i])
  }

  function RefusedChanges(refused: seq<(Change, Reason)>): seq<Change> {
    seq(|refused|, i requires 0 <= i < |refused| => refused[i].0)
  }

  lemma {:induction false} OneOfPlan(snap: Snapshot, allowLoss: bool, change: Change)
    ensures if MayWrite(snap, allowLoss, change) then
              && RefusedOne(snap, allowLoss, change) == []
              && exists pk :: AllowedOne(snap, allowLoss, change) == [Candidate(change, pk)]
                              && IsKey(snap.notes, change.uuid, pk)
            else
              && AllowedOne(snap, allowLoss, change) == []
              && exists reason :: RefusedOne(snap, allowLoss, change) == [(change, reason)]
                                  && RefusedFor(snap, change, reason)
  {
    hide IsKey;
    FindsFirst(snap.notes, change.uuid);
    if MayWrite(snap, allowLoss, change) {
      assert AllowedOne(snap, allowLoss, change) == [Candidate(change, FindNote(snap.notes, change.uuid).value.pk)];
    } else {
      assert RefusedFor(snap, change, PlanReason(snap, allowLoss, change).value);
    }
  }

  /** The allowed changes are those that may be written, in order, each with its note's key. */
  lemma {:induction false} AllowedInOrder(changes: seq<Change>, snap: Snapshot, allowLoss: bool)
    ensures Picked(changes, Writes(snap, allowLoss, changes), ChangesOf(Allowed(snap, allowLoss, changes)))
    ensures forall c | c in Allowed(snap, allowLoss, changes) :: IsKey(snap.notes, c.change.uuid, c.pk)
    decreases |changes|
  {
    hide Picked, IsKey, MayWrite, AllowedOne;
    if changes == [] {
      NothingPicked(changes);
      assert Writes(snap, allowLoss, changes) == {};
    } else {
      var rest, last := changes[..|changes| - 1], changes[|changes| - 1];
      AllowedInOrder(rest, snap, allowLoss);
      OneOfPlan(snap, allowLoss, last);
      var keep, picked := Writes(snap, allowLoss, rest), ChangesOf(Allowed(snap, allowLoss, rest));
      PickedSnoc(rest, keep, picked, last);
      assert changes == rest + [last];
      if MayWrite(snap, allowLoss, last) {
        assert Writes(snap, allowLoss, changes) == keep + {|rest|};
        assert ChangesOf(Allowed(snap, allowLoss, changes)) == picked + [last];
      } else {
        assert Writes(snap, allowLoss, changes) == keep;
        assert Allowed(snap, allowLoss, changes) == Allowed(snap, allowLoss, rest);
      }
    }
  }

  /** The refused changes are the others, in order, each for its reason. */
  lemma {:induction false} RefusedInOrder(changes: seq<Change>, snap: Snapshot, allowLoss: bool)
    ensures Picked(changes, Others(snap, allowLoss, changes), RefusedChanges(Refused(snap, allowLoss, changes)))
    ensures forall r | r in Refused(snap, allowLoss, changes) :: RefusedFor(snap, r.0, r.1)
    decreases |changes|
  {
    hide Picked, RefusedFor, MayWrite, RefusedOne;
    if changes == [] {
      NothingPicked(changes);
      assert Others(snap, allowLoss, changes) == {};
    } else {
      var rest, last := changes[..|changes| - 1], changes[|changes| - 1];
      RefusedInOrder(rest, snap, allowLoss);
      OneOfPlan(snap, allowLoss, last);
      var keep, picked := Others(snap, allowLoss, rest), RefusedChanges(Refused(snap, allowLoss, rest));
      PickedSnoc(rest, keep, picked, last);
      assert changes == rest + [last];
      if MayWrite(snap, allowLoss, last) {
        assert Others(snap, allowLoss, changes) == keep;
        assert Refused(snap, allowLoss, changes) == Refused(snap, allowLoss, rest);
      } else {
        assert Others(snap, allowLoss, changes) == keep + {|rest|};
        assert RefusedChanges(Refused(snap, allowLoss, changes)) == picked + [last];
      }
    }
  }

  // ---- Revalidation -------------------------------------------------------------------------------

  /** `_revalidated_body_for`: the vault text is read first, the snapshot is taken after it. */
  function Revalidated(lib: Library, state: State, allowLoss: bool, c: Candidate, text: string,
                       snap: Snapshot): Result<string, Reason> {
    if c.change.uuid !in state.notes || state.notes[c.change.uuid].path != c.change.path then Err(BaselineChanged)
    else if FenceSpan(lib.fence, text).None? then Err(FenceAmbiguous)
    else match ParseBody(lib.reader, text)
         case None => Err(FenceMissing)
         case Some(body) =>
           match FindNote(snap.notes, c.change.uuid)
           case None => Err(NoteGone)
           case Some(found) =>
             var atts := snap.attachments(c.change.uuid);
             if found.pk != c.pk then Err(IdentityChanged)
             else if atts != [] && !allowLoss then Err(HasAttachments)
             else match found.note.markdown
                  case None => Err(Undecodable)
                  case Some(markdown) =>
                    var apple := Evidence(lib.hash(lib.resolve(markdown, StateLinksFrom(state.media, atts, map[]))),
                                          ModifiedOf(found.note));
                    var status := Classify(c.change.uuid, Some(apple), Observe(lib, Some(text)),
                                           Some(state.notes[c.change.uuid])).status;
                    if status != VaultEdited then Err(Stale(status)) else Ok(body)
  }

  /** The Apple body a snapshot shows, as the sync would hash it. */
  function AppleBody(lib: Library, state: State, snap: Snapshot, found: StoreNote): string
    requires found.note.markdown.Some?
  {
    lib.resolve(found.note.markdown.value, StateLinksFrom(state.media, snap.attachments(found.note.uuid), map[]))
  }

  /**
   * The evidence a write needs: the vault text has one ordered fence pair around a body that is
   * not the synced one; the snapshot shows the very note that was planned, decodable, without
   * attachments unless overridden, and its body and date are the sync baseline's.
   */
  ghost predicate Justified(lib: Library, state: State, allowLoss: bool, c: Candidate, text: string, snap: Snapshot,
                            body: string) {
    && c.change.uuid in state.notes && state.notes[c.change.uuid].path == c.change.path
    && FenceSpan(lib.fence, text).Some? && ParseBody(lib.reader, text) == Some(body)
    && lib.hash(body) != state.notes[c.change.uuid].hash
    && (snap.attachments(c.change.uuid) == [] || allowLoss)
    && FindNote(snap.notes, c.change.uuid).Some?
    && var found := FindNote(snap.notes, c.change.uuid).value;
       && found.pk == c.pk && found.note.markdown.Some?
       && lib.hash(AppleBody(lib, state, snap, found)) == state.notes[c.change.uuid].hash
       && ModifiedOf(found.note) == state.notes[c.change.uuid].modified
  }

  /** A body is authorized exactly on that evidence. */
  lemma {:induction false} RevalidatedIffJustified(lib: Library, state: State, allowLoss: bool, c: Candidate,
                                                   text: string, snap: Snapshot, body: string)
    ensures Revalidated(lib, state, allowLoss, c, text, snap) == Ok(body) <==>
              Justified(lib, state, allowLoss, c, text, snap, body)
  {
    if c.change.uuid in state.notes && FindNote(snap.notes, c.change.uuid).Some? {
      var found := FindNote(snap.notes, c.change.uuid).value;
      if found.note.markdown.Some? {
        ClassifySound(lib, c.change.uuid,
                      Some(Evidence(lib.hash(AppleBody(lib, state, snap, found)), ModifiedOf(found.note))),
                      Some(text), Some(state.notes[c.change.uuid]));
      }
    }
  }

  /** What a refused body was refused for. */
  ghost predicate RefusedAs(lib: Library, state: State, allowLoss: bool, c: Candidate, text: string, snap: Snapshot,
                            reason: Reason) {
    var uuid, found := c.change.uuid, FindNote(snap.notes, c.change.uuid);
    match reason
    case BaselineChanged => uuid !in state.notes || state.notes[uuid].path != c.change.path
    case FenceAmbiguous => FenceSpan(lib.fence, text).None?
    case FenceMissing => ParseBody(lib.reader, text).None?
    case NoteGone => found.None?
    case IdentityChanged => found.Some? && found.value.pk != c.pk
    case HasAttachments => snap.attachments(uuid) != [] && !allowLoss
    case Undecodable => found.Some? && found.value.note.markdown.None?
    case Stale(status) =>
      && uuid in state.notes && ParseBody(lib.reader, text).Some? && found.Some? && found.value.note.markdown.Some?
      && var appleMoved := lib.hash(AppleBody(lib, state, snap, found.value)) != state.notes[uuid].hash
                           || ModifiedOf(found.value.note) != state.notes[uuid].modified;
         var vaultMoved := lib.hash(ParseBody(lib.reader, text).value) != state.notes[uuid].hash;
         status == (if !appleMoved then Unchanged else if vaultMoved then Conflict else AppleChanged)
         && (appleMoved || !vaultMoved)
    case NotAVaultEdit => false
  }

  /** Every refusal says what is the case. */
  lemma {:induction false} RefusalIsTrue(lib: Library, state: State, allowLoss: bool, c: Candidate, text: string,
                                         snap: Snapshot)
    requires Revalidated(lib, state, allowLoss, c, text, snap).Err?
    ensures RefusedAs(lib, state, allowLoss, c, text, snap, Revalidated(lib, state, allowLoss, c, text, snap).error)
  {
    hide ParseBody, FenceSpan, StateLinksFrom, FindNote;
    if c.change.uuid in state.notes && FindNote(snap.notes, c.change.uuid).Some? {
      var found := FindNote(snap.notes, c.change.uuid).value;
      if found.note.markdown.Some? {
        ClassifySound(lib, c.change.uuid,
                      Some(Evidence(lib.hash(AppleBody(lib, state, snap, found)), ModifiedOf(found.note))),
                      Some(text), Some(state.notes[c.change.uuid]));
      }
    }
  }

  /** A file without its fence is classified as edited in the vault, and still refused. */
  lemma {:induction false} FencelessIsRefused(lib: Library, state: State, allowLoss: bool, c: Candidate,
                                              text: string, snap: Snapshot, apple: Evidence)
    requires c.change.uuid in state.notes && ParseBody(lib.reader, text).None?
    ensures Classify(c.change.uuid, Some(apple), Observe(lib, Some(text)), Some(state.notes[c.change.uuid])).status
            == VaultEdited
    ensures Revalidated(lib, state, allowLoss, c, text, snap).Err?
  {
    ClassifySound(lib, c.change.uuid, Some(apple), Some(text), Some(state.notes[c.change.uuid]));
  }

  // ---- The run --------------------------------------------------------------------------------------

  const TIME_BUDGET_S := 600

  /** When a candidate's turn comes: the clock at the top of the loop, and its two reads. */
  datatype Turn = Turn(clock: nat, read: nat, snap: nat)

  /** How long a turn takes: to read the vault, then to read the store, then to write. */
  datatype Spent = Spent(read: nat, snap: nat, write: nat)

  /** The clock when a turn starts. */
  function ClockAt(start: nat, spent: seq<Spent>, i: nat): nat
    requires i <= |spent|
  {
    if i == 0 then start else ClockAt(start, spent, i - 1) + spent[i - 1].read + spent[i - 1].snap + spent[i - 1].write
  }

  /** The vault file is read first, the snapshot is taken after it. */
  function TurnAt(clock: nat, spent: Spent): Turn {
    Turn(clock, clock + spent.read, clock + spent.read + spent.snap)
  }

  function Turns(start: nat, spent: seq<Spent>): seq<Turn> {
    seq(|spent|, i requires 0 <= i < |spent| => TurnAt(ClockAt(start, spent, i), spent[i]))
  }

  datatype Written = Written(index: nat, pk: int, body: string)

  datatype Tally = Tally(written: seq<Written>, refused: seq<(Change, Reason)>, failures: seq<string>, remaining: nat)

  /** What a turn decides: None when the vault file could not be read. */
  function Decide(lib: Library, state: State, allowLoss: bool, vault: VaultAt, store: StoreAt, c: Candidate,
                  turn: Turn): Option<Result<string, Reason>> {
    if c.change.uuid !in state.notes || state.notes[c.change.uuid].path != c.change.path then Some(Err(BaselineChanged))
    else if c.change.path !in vault(turn.read) then None
    else Some(Revalidated(lib, state, allowLoss, c, vault(turn.read)[c.change.path], store(turn.snap)))
  }

  ghost predicate Authorized(lib: Library, state: State, allowLoss: bool, vault: VaultAt, store: StoreAt,
                             allowed: seq<Candidate>, turns: seq<Turn>, w: Written)
    requires |turns| >= |allowed|
  {
    && w.index < |allowed| && w.pk == allowed[w.index].pk
    && allowed[w.index].change.path in vault(turns[w.index].read)
    && Justified(lib, state, allowLoss, allowed[w.index], vault(turns[w.index].read)[allowed[w.index].change.path],
                 store(turns[w.index].snap), w.body)
  }

  predicate Due(lib: Library, state: State, allowLoss: bool, vault: VaultAt, store: StoreAt, c: Candidate, turn: Turn) {
    match Decide(lib, state, allowLoss, vault, store, c, turn) case Some(Ok(_)) => true case _ => false
  }

  /** One candidate's turn. */
  function TakeTurn(lib: Library, state: State, allowLoss: bool, dryRun: bool, vault: VaultAt, store: StoreAt,
                    c: Candidate, turn: Turn, i: nat, accepts: int -> bool, t: Tally): Tally {
    match Decide(lib, state, allowLoss, vault, store, c, turn)
    case None => t.(failures := t.failures + [c.change.uuid])
    case Some(Err(reason)) => t.(refused := t.refused + [(c.change, reason)])
    case Some(Ok(body)) =>
      if dryRun then t
      else if accepts(c.pk) then t.(written := t.written + [Written(i, c.pk, body)])
      else t.(failures := t.failures + [c.change.uuid])
  }

  /** Every write so far was authorized by what its own turn read, in order; what was due was written. */
  ghost predicate Sound(lib: Library, state: State, allowLoss: bool, vault: VaultAt, store: StoreAt,
                        allowed: seq<Candidate>, turns: seq<Turn>, accepts: int -> bool, t: Tally, done: nat)
    requires |turns| >= |allowed|
  {
    && (forall w | w in t.written ::
          Authorized(lib, state, allowLoss, vault, store, allowed, turns, w) && w.index < done && accepts(w.pk))
    && (forall j, k | 0 <= j < k < |t.written| :: t.written[j].index < t.written[k].index)
  }

  ghost predicate Thorough(lib: Library, state: State, allowLoss: bool, vault: VaultAt, store: StoreAt,
                           allowed: seq<Candidate>, turns: seq<Turn>, accepts: int -> bool, t: Tally, done: nat)
    requires |turns| >= |allowed| >= done
  {
    forall i | 0 <= i < done ::
      Due(lib, state, allowLoss, vault, store, allowed[i], turns[i]) && accepts(allowed[i].pk) ==>
        WrittenAt(t.written, i)
  }

  lemma {:induction false} DecidedIsAuthorized(lib: Library, state: State, allowLoss: bool, vault: VaultAt,
                                               store: StoreAt,
                            allowed: seq<Candidate>, turns: seq<Turn>, i: nat, body: string)
    requires |turns| >= |allowed| > i
             && Decide(lib, state, allowLoss, vault, store, allowed[i], turns[i]) == Some(Ok(body))
    ensures Authorized(lib, state, allowLoss, vault, store, allowed, turns, Written(i, allowed[i].pk, body))
  {
    var c := allowed[i];
    RevalidatedIffJustified(lib, state, allowLoss, c, vault(turns[i].read)[c.change.path], store(turns[i].snap), body);
  }

  lemma {:induction false} TurnIsSound(lib: Library, state: State, allowLoss: bool, dryRun: bool, vault: VaultAt,
                                       store: StoreAt,
                    allowed: seq<Candidate>, turns: seq<Turn>, accepts: int -> bool, t: Tally, i: nat)
    requires |turns| >= |allowed| > i && Sound(lib, state, allowLoss, vault, store, allowed, turns, accepts, t, i)
    ensures Sound(lib, state, allowLoss, vault, store, allowed, turns, accepts,
                  TakeTurn(lib, state, allowLoss, dryRun, vault, store, allowed[i], turns[i], i, accepts, t), i + 1)
  {
    var next := TakeTurn(lib, state, allowLoss, dryRun, vault, store, allowed[i], turns[i], i, accepts, t);
    if next.written != t.written {
      var body := next.written[|t.written|].body;
      DecidedIsAuthorized(lib, state, allowLoss, vault, store, allowed, turns, i, body);
      OneMoreWrite(lib, state, allowLoss, vault, store, allowed, turns, accepts, t, next,
                   Written(i, allowed[i].pk, body));
    }
  }

  lemma OneMoreWrite(lib: Library, state: State, allowLoss: bool, vault: VaultAt, store: StoreAt,
                     allowed: seq<Candidate>, turns: seq<Turn>, accepts: int -> bool, t: Tally, next: Tally, w: Written)
    requires |turns| >= |allowed| && Sound(lib, state, allowLoss, vault, store, allowed, turns, accepts, t, w.index)
    requires Authorized(lib, state, allowLoss, vault, store, allowed, turns, w) && accepts(w.pk)
             && next.written == t.written + [w]
    ensures Sound(lib, state, allowLoss, vault, store, allowed, turns, accepts, next, w.index + 1)
  {
  }

  lemma {:induction false} TurnIsThorough(lib: Library, state: State, allowLoss: bool, vault: VaultAt, store: StoreAt,
                       allowed: seq<Candidate>, turns: seq<Turn>, accepts: int -> bool, t: Tally, next: Tally, i: nat)
    requires |turns| >= |allowed| > i && Thorough(lib, state, allowLoss, vault, store, allowed, turns, accepts, t, i)
    requires next == TakeTurn(lib, state, allowLoss, false, vault, store, allowed[i], turns[i], i, accepts, t)
    ensures Thorough(lib, state, allowLoss, vault, store, allowed, turns, accepts, next, i + 1)
  {
    assert t.written <= next.written;
    forall j | 0 <= j < i && WrittenAt(t.written, j) ensures WrittenAt(next.written, j) {
      var k :| 0 <= k < |t.written| && t.written[k].index == j;
      assert next.written[k] == t.written[k];
    }
    if |next.written| > |t.written| { assert next.written[|t.written|].index == i; }
  }

  /** The tally after the first `n` candidates. */
  function TallyUpTo(lib: Library, state: State, allowLoss: bool, dryRun: bool, vault: VaultAt, store: StoreAt,
                     allowed: seq<Candidate>, turns: seq<Turn>, accepts: int -> bool, n: nat): Tally
    requires |turns| >= |allowed| >= n
  {
    if n == 0 then Tally([], [], [], 0)
    else TakeTurn(lib, state, allowLoss, dryRun, vault, store, allowed[n - 1], turns[n - 1], n - 1, accepts,
                  TallyUpTo(lib, state, allowLoss, dryRun, vault, store, allowed, turns, accepts, n - 1))
  }

  /** One turn of the loop. */
  method OneTurn(lib: Library, state: State, allowLoss: bool, dryRun: bool, vault: VaultAt, store: StoreAt,
                 c: Candidate, turn: Turn, i: nat, accepts: int -> bool, t: Tally) returns (tally: Tally)
    ensures tally == TakeTurn(lib, state, allowLoss, dryRun, vault, store, c, turn, i, accepts, t)
    ensures tally.remaining == t.remaining
  {
    tally := t;
    match Decide(lib, state, allowLoss, vault, store, c, turn) {
      case None => tally := tally.(failures := tally.failures + [c.change.uuid]);
      case Some(Err(reason)) => tally := tally.(refused := tally.refused + [(c.change, reason)]);
      case Some(Ok(body)) =>
        if !dryRun {
          if accepts(c.pk) {
            tally := tally.(written := tally.written + [Written(i, c.pk, body)]);
          } else {
            tally := tally.(failures := tally.failures + [c.change.uuid]);
          }
        }
    }
  }

  lemma TurnsAreMany(start: nat, spent: seq<Spent>)
    ensures |Turns(start, spent)| == |spent|
  {
  }

  lemma TurnOf(start: nat, spent: seq<Spent>, i: nat)
    requires i < |spent|
    ensures |Turns(start, spent)| == |spent| && Turns(start, spent)[i] == TurnAt(ClockAt(start, spent, i), spent[i])
  {
  }

  /**
   * `_run_writeback` after planning: candidates are taken in order until the time budget is used up,
   * the clock running on through each turn's vault read, store read and write.
   */
  method RunWriteback(lib: Library, state: State, allowLoss: bool, dryRun: bool, vault: VaultAt, store: StoreAt,
                      allowed: seq<Candidate>, spent: seq<Spent>, started: nat, start: nat, accepts: int -> bool)
    returns (tally: Tally)
    requires |spent| >= |allowed|
    ensures tally.remaining <= |allowed|
    ensures tally
            == TallyUpTo(lib, state, allowLoss, dryRun, vault, store, allowed, Turns(start, spent), accepts,
                         |allowed| - tally.remaining)
                     .(remaining := tally.remaining)
    ensures forall i | 0 <= i < |allowed| - tally.remaining :: ClockAt(start, spent, i) - started < TIME_BUDGET_S
    ensures tally.remaining > 0 ==> ClockAt(start, spent, |allowed| - tally.remaining) - started >= TIME_BUDGET_S
  {
    hide TakeTurn, Turns;
    tally := Tally([], [], [], 0);
    var now := start;
    ghost var turns := Turns(start, spent);
    TurnsAreMany(start, spent);
    for i := 0 to |allowed|
      invariant tally.remaining == 0 && now == ClockAt(start, spent, i)
      invariant forall j | 0 <= j < i :: ClockAt(start, spent, j) - started < TIME_BUDGET_S
      invariant tally == TallyUpTo(lib, state, allowLoss, dryRun, vault, store, allowed, turns, accepts, i)
    {
      if now - started >= TIME_BUDGET_S { return tally.(remaining := |allowed| - i); }
      var c, turn := allowed[i], TurnAt(now, spent[i]);
      TurnOf(start, spent, i);
      tally := OneTurn(lib, state, allowLoss, dryRun, vault, store, c, turn, i, accepts, tally);
      now := turn.snap + spent[i].write;
    }
  }

  /** Every write was authorized by what its own turn read, each candidate at most once; a dry run writes nothing. */
  lemma {:induction false} WritesAreAuthorized(lib: Library, state: State, allowLoss: bool, dryRun: bool,
                                               vault: VaultAt, store: StoreAt,
                                               allowed: seq<Candidate>, turns: seq<Turn>, accepts: int -> bool, n: nat)
    requires |turns| >= |allowed| >= n
    ensures var t := TallyUpTo(lib, state, allowLoss, dryRun, vault, store, allowed, turns, accepts, n);
            Sound(lib, state, allowLoss, vault, store, allowed, turns, accepts, t, n) && (dryRun ==> t.written == [])
  {
    if n > 0 {
      WritesAreAuthorized(lib, state, allowLoss, dryRun, vault, store, allowed, turns, accepts, n - 1);
      TurnIsSound(lib, state, allowLoss, dryRun, vault, store, allowed, turns, accepts,
                  TallyUpTo(lib, state, allowLoss, dryRun, vault, store, allowed, turns, accepts, n - 1), n - 1);
    }
  }

  /** Every authorized candidate reached in time is written, unless Notes refuses. */
  lemma {:induction false} AuthorizedIsWritten(lib: Library, state: State, allowLoss: bool, vault: VaultAt,
                                               store: StoreAt, allowed: seq<Candidate>, turns: seq<Turn>,
                                               accepts: int -> bool, n: nat, t: Tally)
    requires |turns| >= |allowed| >= n
    requires t == TallyUpTo(lib, state, allowLoss, false, vault, store, allowed, turns, accepts, n)
    ensures Thorough(lib, state, allowLoss, vault, store, allowed, turns, accepts, t, n)
    decreases n
  {
    if n > 0 {
      var before := TallyUpTo(lib, state, allowLoss, false, vault, store, allowed, turns, accepts, n - 1);
      AuthorizedIsWritten(lib, state, allowLoss, vault, store, allowed, turns, accepts, n - 1, before);
      TurnIsThorough(lib, state, allowLoss, vault, store, allowed, turns, accepts, before, t, n - 1);
    }
  }

  /** The candidates so far whose write is due: in a dry run they are counted nowhere. */
  function DueUpTo(lib: Library, state: State, allowLoss: bool, vault: VaultAt, store: StoreAt,
                   allowed: seq<Candidate>, turns: seq<Turn>, n: nat): nat
    requires |turns| >= |allowed| >= n
  {
    if n == 0 then 0
    else DueUpTo(lib, state, allowLoss, vault, store, allowed, turns, n - 1)
         + if Due(lib, state, allowLoss, vault, store, allowed[n - 1], turns[n - 1]) then 1 else 0
  }

  /** Every candidate whose turn came is written, refused or failed, or due in a dry run: none is lost. */
  lemma {:induction false} CandidatesAddUp(lib: Library, state: State, allowLoss: bool, dryRun: bool, vault: VaultAt,
                                           store: StoreAt, allowed: seq<Candidate>, turns: seq<Turn>,
                                           accepts: int -> bool, n: nat)
    requires |turns| >= |allowed| >= n
    ensures var t := TallyUpTo(lib, state, allowLoss, dryRun, vault, store, allowed, turns, accepts, n);
            |t.written| + |t.refused| + |t.failures|
            + (if dryRun then DueUpTo(lib, state, allowLoss, vault, store, allowed, turns, n) else 0) == n
  {
    hide Decide;
    if n > 0 { CandidatesAddUp(lib, state, allowLoss, dryRun, vault, store, allowed, turns, accepts, n - 1); }
  }

  predicate WrittenAt(written: seq<Written>, i: nat) {
    exists k | 0 <= k < |written| :: written[k].index == i
  }

  lemma {:induction false} ClockRunsOn(start: nat, spent: seq<Spent>, i: nat, j: nat)
    requires i < j <= |spent|
    ensures TurnAt(ClockAt(start, spent, i), spent[i]).snap <= ClockAt(start, spent, j)
    decreases j
  {
    if i < j - 1 { ClockRunsOn(start, spent, i, j - 1); }
  }

  /**
   * In every run the first turn comes at the start and each other right after the write of the one
   * before; within a turn the snapshot is taken after the vault is read, and both take their time.
   */
  lemma {:induction false} TurnsAreInOrder(start: nat, spent: seq<Spent>)
    ensures var turns := Turns(start, spent);
            && |turns| == |spent| && (spent != [] ==> turns[0].clock == start)
            && (forall i | 0 <= i < |turns| ::
                  turns[i].read == turns[i].clock + spent[i].read && turns[i].snap == turns[i].read + spent[i].snap)
            && (forall i, j | 0 <= i && j == i + 1 < |turns| :: turns[j].clock == turns[i].snap + spent[i].write)
            && (forall i | 0 <= i < |turns| :: turns[i].clock <= turns[i].read <= turns[i].snap)
            && (forall i, j | 0 <= i < j < |turns| :: turns[i].snap <= turns[j].read)
  {
    forall i, j | 0 <= i < j < |spent| ensures Turns(start, spent)[i].snap <= Turns(start, spent)[j].read {
      ClockRunsOn(start, spent, i, j);
    }
  }

  /**
   * No unseen Apple edit is overwritten: whenever a run replaces the body of a note, its turn read
   * the new body from a vault file with one ordered fence pair, and a snapshot taken after that
   * showed, under the planned key, exactly the body sync last wrote.
   */
  lemma {:induction false} ReplacedBodyIsTheSyncedOne(lib: Library, state: State, allowLoss: bool, dryRun: bool,
                                                      vault: VaultAt, store: StoreAt, allowed: seq<Candidate>,
                                                      start: nat, spent: seq<Spent>,
                                                      accepts: int -> bool, n: nat, w: Written, synced: string)
    requires |spent| >= |allowed| >= n && Injective(lib.hash)
    requires w in TallyUpTo(lib, state, allowLoss, dryRun, vault, store, allowed, Turns(start, spent), accepts,
                            n).written
    ensures w.index < n && allowed[w.index].change.uuid in state.notes
    ensures var turn, change := Turns(start, spent)[w.index], allowed[w.index].change;
            && turn.read <= turn.snap && change.path in vault(turn.read)
            && FenceSpan(lib.fence, vault(turn.read)[change.path]).Some?
            && ParseBody(lib.reader, vault(turn.read)[change.path]) == Some(w.body)
    ensures var turn, change := Turns(start, spent)[w.index], allowed[w.index].change;
            state.notes[change.uuid].hash == lib.hash(synced) ==>
              var found := FindNote(store(turn.snap).notes, change.uuid);
              && found.Some? && found.value.pk == w.pk && found.value.note.markdown.Some?
              && AppleBody(lib, state, store(turn.snap), found.value) == synced && w.body != synced
  {
    WritesAreAuthorized(lib, state, allowLoss, dryRun, vault, store, allowed, Turns(start, spent), accepts, n);
    TurnsAreInOrder(start, spent);
  }
}
