/**
 * Crash convergence of `run_sync` (packages/apple-notes/fulcra_apple_notes/sync.py): however often
 * passes are killed or run into their deadline, the next complete pass over the same snapshot
 * leaves what one uninterrupted pass leaves.
 */
module NoteCrash {
  import opened Wrappers
  import opened TextLines
  import opened NoteHeader
  import opened NoteText
  import opened NoteMerge
  import opened NoteLayout
  import opened NoteRender
  import opened NoteRemerge
  import opened NoteSync

  // ---- What a pass is meant to write ------------------------------------------------------------

  ghost predicate AttOf(lib: Library, a: Attachment) {
    exists n :: n in lib.notes && a in lib.attachments(n.uuid)
  }

  /** A media id has one file name. */
  ghost predicate MediaConsistent(lib: Library) {
    forall a, b | AttOf(lib, a) && AttOf(lib, b) && HasFile(a) && HasFile(b) && a.media == b.media ::
      a.filename == b.filename
  }

  function LinkAll(lib: Library, media: map<string, Media>, atts: seq<Attachment>, links: Links): Links
    decreases |atts|
  {
    if atts == [] then links else LinkAll(lib, media, atts[1..], WithLink(links, atts[0], Linked(lib, media, atts[0])))
  }

  function BodyFor(lib: Library, d: Durable, n: AppleNote): string
    requires n.markdown.Some?
  {
    lib.resolve(n.markdown.value, LinkAll(lib, d.saved.media, lib.attachments(n.uuid), map[]))
  }

  function Home(lib: Library, d: Durable, n: AppleNote): string {
    PathOf(lib, n, Lookup(d.saved.notes, n.uuid))
  }

  const EPOCH := Moment("", "")

  function PlannedFile(lib: Library, d: Durable, n: AppleNote): Note
    requires n.markdown.Some?
  {
    FileOfNote(lib, n, BodyFor(lib, d, n), EPOCH)
  }

  function PlannedEntry(lib: Library, d: Durable, n: AppleNote): Entry
    requires n.markdown.Some?
  {
    EntryOf(n, Home(lib, d, n), lib.hash(BodyFor(lib, d, n)))
  }

  ghost predicate NotCurrent(lib: Library, d: Durable, n: AppleNote) {
    n.markdown.Some? && !Current(n, Lookup(d.saved.notes, n.uuid), lib.hash(BodyFor(lib, d, n)))
  }

  /** The first write of the note, or the merge into the file that is there, goes through. */
  ghost predicate Accepted(lib: Library, d: Durable, n: AppleNote)
    requires n.markdown.Some?
  {
    Home(lib, d, n) in d.files ==>
      Merged(lib.fence, d.files[Home(lib, d, n)], Text(lib.fence, PlannedFile(lib, d, n))).Ok?
  }

  /** The notes a pass from `d` writes. */
  ghost predicate Writable(lib: Library, d: Durable, n: AppleNote) {
    NotCurrent(lib, d, n) && Accepted(lib, d, n)
  }

  /**
   * The condition for convergence, told from the start: a note that has no file yet renders without
   * a fence of its own, and a file that is there can be merged into again.
   */
  ghost predicate Settles(lib: Library, d: Durable, n: AppleNote)
    requires n.markdown.Some?
  {
    var home := Home(lib, d, n);
    if home !in d.files then NoteOk(lib.fence, PlannedFile(lib, d, n))
    else FenceSpan(lib.fence, d.files[home]).Some? && Remerges(lib.fence, d.files[home], PlannedFile(lib, d, n))
  }

  /** The section a pass from `d` writes. */
  function PlannedSection(lib: Library, d: Durable, n: AppleNote): string
    requires n.markdown.Some?
  {
    var home, plan := Home(lib, d, n), PlannedFile(lib, d, n);
    if home !in d.files then plan.inner
    else match Merged(lib.fence, d.files[home], Text(lib.fence, plan))
         case Ok(text) => (match Section(lib.fence, text) case Some(section) => section case None => "")
         case Err(_) => ""
  }

  /** No `<` in the note's metadata, nor above the fence of its file: it can be told before the sync. */
  ghost predicate PlainStart(lib: Library, d: Durable, n: AppleNote)
    requires n.markdown.Some?
  {
    && PlainNote(PlannedFile(lib, d, n))
    && (Home(lib, d, n) in d.files ==> PlainFront(lib.fence, d.files[Home(lib, d, n)]))
  }

  /** A file with the planned section that later passes can merge into. */
  ghost predicate Good(lib: Library, d: Durable, n: AppleNote, text: string)
    requires n.markdown.Some?
  {
    && Stable(lib.fence, text, PlannedFile(lib, d, n), PlannedSection(lib, d, n))
    && Section(lib.fence, text) == Some(PlannedSection(lib, d, n))
    && (PlainStart(lib, d, n) ==> PlainStable(lib.fence, text, PlannedFile(lib, d, n)))
  }

  // ---- Conditions on the start --------------------------------------------------------------------

  ghost predicate LibraryOk(lib: Library) {
    && IsFence(lib.fence) && IsWording(lib.wording) && MediaConsistent(lib)
    && forall m, n | m in lib.notes && n in lib.notes && m.uuid == n.uuid :: m == n
  }

  ghost predicate OwnHomes(lib: Library, d: Durable) {
    forall m, n | m in lib.notes && n in lib.notes && m != n :: Home(lib, d, m) != Home(lib, d, n)
  }

  predicate IsLive(lib: Library, uuid: string) {
    exists n | n in lib.notes :: n.uuid == uuid
  }

  ghost predicate AbsentApart(lib: Library, d: Durable) {
    forall uuid, n | uuid in d.saved.notes && !IsLive(lib, uuid) && n in lib.notes ::
      d.saved.notes[uuid].path != Home(lib, d, n)
  }

  /** The notes have distinct files, apart from those of notes the store no longer has. */
  ghost predicate StartOk(lib: Library, d: Durable) {
    LibraryOk(lib) && OwnHomes(lib, d) && AbsentApart(lib, d)
  }

  // ---- The invariant ------------------------------------------------------------------------------

  function FileAt(files: Files, path: string): Option<string> {
    if path in files then Some(files[path]) else None
  }

  ghost predicate Untouched(lib: Library, d0: Durable, n: AppleNote, files: Files, state: State) {
    && FileAt(files, Home(lib, d0, n)) == FileAt(d0.files, Home(lib, d0, n))
    && Lookup(state.notes, n.uuid) == Lookup(d0.saved.notes, n.uuid)
  }

  ghost predicate Written(lib: Library, d0: Durable, n: AppleNote, files: Files) {
    Writable(lib, d0, n) && Home(lib, d0, n) in files
      && (Settles(lib, d0, n) ==> Good(lib, d0, n, files[Home(lib, d0, n)]))
  }

  ghost predicate Done(lib: Library, d0: Durable, n: AppleNote, files: Files, state: State) {
    Written(lib, d0, n, files) && Lookup(state.notes, n.uuid) == Some(PlannedEntry(lib, d0, n))
  }

  /** Untouched, written, or written and recorded. */
  ghost predicate NoteInv(lib: Library, d0: Durable, n: AppleNote, files: Files, state: State) {
    || Untouched(lib, d0, n, files, state)
    || (Written(lib, d0, n, files) && Lookup(state.notes, n.uuid) == Lookup(d0.saved.notes, n.uuid))
    || Done(lib, d0, n, files, state)
  }

  ghost predicate SameLinks(lib: Library, before: map<string, Media>, media: map<string, Media>) {
    forall a | AttOf(lib, a) :: Linked(lib, media, a) == Linked(lib, before, a)
  }

  /** An entry of a note the store no longer has changes in its flag alone. */
  ghost predicate AbsentInv(lib: Library, d0: Durable, state: State) {
    forall uuid | uuid in state.notes && !IsLive(lib, uuid) ::
      uuid in d0.saved.notes && state.notes[uuid].(deleted := d0.saved.notes[uuid].deleted) == d0.saved.notes[uuid]
  }

  ghost predicate Consistent(lib: Library, d0: Durable, files: Files, state: State) {
    && SameLinks(lib, d0.saved.media, state.media) && AbsentInv(lib, d0, state)
    && forall n | n in lib.notes :: NoteInv(lib, d0, n, files, state)
  }

  ghost predicate DurableInv(lib: Library, d0: Durable, d: Durable) {
    Consistent(lib, d0, d.files, d.saved)
  }

  /** A pass that started at `d` keeps the invariant in memory and at every point a kill could leave. */
  ghost predicate RunInv(lib: Library, d0: Durable, d: Durable, r: Run) {
    && Consistent(lib, d0, r.files, r.state)
    && Apply(d, r.events).files == r.files
    && forall k | 0 <= k <= |r.events| :: DurableInv(lib, d0, Apply(d, r.events[..k]))
  }

  lemma {:induction false} ApplyAppend(d: Durable, events: seq<Event>, event: Event)
    ensures Apply(d, events + [event]) == ApplyOne(Apply(d, events), event)
  {
    assert (events + [event])[..|events|] == events;
  }

  lemma {:induction false} OneMoreEvent(lib: Library, d0: Durable, d: Durable, r: Run, event: Event, next: Run)
    requires RunInv(lib, d0, d, r) && next.events == r.events + [event]
    requires Consistent(lib, d0, next.files, next.state)
    requires ApplyOne(Apply(d, r.events), event).files == next.files
    requires DurableInv(lib, d0, ApplyOne(Apply(d, r.events), event))
    ensures RunInv(lib, d0, d, next)
  {
    ApplyAppend(d, r.events, event);
    forall k | 0 <= k <= |next.events| ensures DurableInv(lib, d0, Apply(d, next.events[..k])) {
      if k <= |r.events| { assert next.events[..k] == r.events[..k]; } else { assert next.events[..k] == next.events; }
    }
  }

  lemma {:induction false} LastIsDurable(lib: Library, d0: Durable, d: Durable, r: Run)
    requires RunInv(lib, d0, d, r)
    ensures DurableInv(lib, d0, Apply(d, r.events))
  {
    assert r.events[..|r.events|] == r.events;
  }

  // ---- Attachments ----------------------------------------------------------------------------

  lemma {:induction false} UploadKeepsLinks(lib: Library, before: map<string, Media>, a: Attachment, r: Run)
    requires MediaConsistent(lib) && AttOf(lib, a) && SameLinks(lib, before, r.state.media)
    ensures SameLinks(lib, before, Uploaded(lib, a, r).state.media)
  {
    forall b | AttOf(lib, b) ensures Linked(lib, Uploaded(lib, a, r).state.media, b) == Linked(lib, r.state.media, b) {
    }
  }

  lemma {:induction false} UploadKeepsRun(lib: Library, d0: Durable, d: Durable, a: Attachment, r: Run)
    requires MediaConsistent(lib) && AttOf(lib, a) && RunInv(lib, d0, d, r)
    ensures RunInv(lib, d0, d, Uploaded(lib, a, r))
  {
    var next := Uploaded(lib, a, r);
    UploadKeepsLinks(lib, d0.saved.media, a, r);
    KeptByMedia(lib, d0, r.files, r.state, next.state);
    if next != r {
      LastIsDurable(lib, d0, d, r);
      OneMoreEvent(lib, d0, d, r, next.events[|r.events|], next);
    }
  }

  lemma {:induction false} KeptByMedia(lib: Library, d0: Durable, files: Files, state: State, next: State)
    requires Consistent(lib, d0, files, state) && next.notes == state.notes
             && SameLinks(lib, d0.saved.media, next.media)
    ensures Consistent(lib, d0, files, next)
  {
    forall n | n in lib.notes ensures NoteInv(lib, d0, n, files, next) { assert NoteInv(lib, d0, n, files, state); }
  }

  lemma {:induction false} AttachKeeps(lib: Library, d0: Durable, d: Durable, atts: seq<Attachment>, links: Links,
                                       r: Run)
    requires MediaConsistent(lib) && RunInv(lib, d0, d, r) && !r.stopped
    requires forall i | 0 <= i < |atts| :: AttOf(lib, atts[i])
    ensures var x := Attach(lib, atts, links, r);
            && RunInv(lib, d0, d, x.run) && x.run.files == r.files && x.run.state.notes == r.state.notes
            && (!x.run.stopped ==> x.links == LinkAll(lib, d0.saved.media, atts, links))
    decreases |atts|
  {
    if atts != [] && r.budget > 0 {
      var a, r1 := atts[0], r.(budget := r.budget - 1);
      assert RunInv(lib, d0, d, r1);
      UploadKeepsRun(lib, d0, d, a, r1);
      assert Linked(lib, r.state.media, a) == Linked(lib, d0.saved.media, a);
      assert forall i | 0 <= i < |atts[1..]| :: atts[1..][i] == atts[i + 1];
      AttachKeeps(lib, d0, d, atts[1..], WithLink(links, a, Linked(lib, r.state.media, a)), Uploaded(lib, a, r1));
    }
  }

  // ---- Renderings -----------------------------------------------------------------------------------

  /** The renderings of a note at two times. */
  lemma {:induction false} FilesAreKin(lib: Library, n: AppleNote, body: string, t1: Moment, t2: Moment)
    returns (s: nat)
    ensures Kin(FileOfNote(lib, n, body, t1), FileOfNote(lib, n, body, t2), s)
    ensures Gen(FileOfNote(lib, n, body, t1))[s] == FrontLine(STAMP, t1.iso)
    ensures Gen(FileOfNote(lib, n, body, t2))[s] == FrontLine(STAMP, t2.iso)
  {
    s := StampedAt(n, lib.hash(body), t1, t2);
    FileIsRendering(lib, n, body, t1);
    FileIsRendering(lib, n, body, t2);
  }

  lemma {:induction false} FileIsRendering(lib: Library, n: AppleNote, body: string, now: Moment)
    ensures IsRendering(FileOfNote(lib, n, body, now))
    ensures Gen(FileOfNote(lib, n, body, now)) == FrontLines(Fields(n, lib.hash(body), now))
    ensures FileOfNote(lib, n, body, now).inner == "\n" + ShownBody(lib.wording, body) + "\n"
  {
    var fields, g, shown := Fields(n, lib.hash(body), now), FileOfNote(lib, n, body, now), ShownBody(lib.wording, body);
    FieldsAreGood(n, lib.hash(body), now);
    RenderedSameKeys(n, lib.hash(body), lib.hash(body), now, now);
    FrontShape(fields);
    FrontLinesAreManaged(fields);
    FrontLinesArePlain(fields);
    assert g.inner[1..|g.inner| - 1] == shown;
    JoinSplit(shown);
  }

  lemma {:induction false} OkAnyTime(lib: Library, n: AppleNote, body: string, t1: Moment, t2: Moment)
    requires LibraryOk(lib) && IsMoment(t1) && IsMoment(t2)
    ensures NoteOk(lib.fence, FileOfNote(lib, n, body, t1)) <==> NoteOk(lib.fence, FileOfNote(lib, n, body, t2))
  {
    var f, missing, h := lib.fence, MissingOf(lib.attachments(n.uuid)), lib.hash(body);
    if NoteOk(f, FileOfNote(lib, n, body, t1)) {
      RenderedOkAnyTime(f, lib.wording, n, body, h, missing, missing, t1, t2);
    }
    if NoteOk(f, FileOfNote(lib, n, body, t2)) {
      RenderedOkAnyTime(f, lib.wording, n, body, h, missing, missing, t2, t1);
    }
  }

  // ---- One note ------------------------------------------------------------------------------------

  function Attempt(lib: Library, d0: Durable, n: AppleNote, files: Files, now: Moment): Option<string>
    requires n.markdown.Some?
  {
    TextToWrite(lib, files, Home(lib, d0, n), Text(lib.fence, FileOfNote(lib, n, BodyFor(lib, d0, n), now)))
  }

  /** Whether the start's file takes the note does not depend on when. */
  lemma {:induction false} AcceptedAnyTime(lib: Library, d0: Durable, n: AppleNote, files: Files, now: Moment)
    requires LibraryOk(lib) && IsMoment(now) && n.markdown.Some?
    requires FileAt(files, Home(lib, d0, n)) == FileAt(d0.files, Home(lib, d0, n))
    ensures Attempt(lib, d0, n, files, now).Some? <==> Accepted(lib, d0, n)
  {
    var body, path := BodyFor(lib, d0, n), Home(lib, d0, n);
    var s := FilesAreKin(lib, n, body, EPOCH, now);
    OkAnyTime(lib, n, body, EPOCH, now);
    if path in files {
      assert files[path] == d0.files[path];
      MergesAnyTime(lib.fence, files[path], PlannedFile(lib, d0, n), FileOfNote(lib, n, body, now), s);
    }
  }

  /** The start's own file is stable when the note settles. */
  lemma {:induction false} StartIsStable(lib: Library, d0: Durable, n: AppleNote)
    requires LibraryOk(lib) && Writable(lib, d0, n) && Settles(lib, d0, n) && Home(lib, d0, n) in d0.files
    ensures Stable(lib.fence, d0.files[Home(lib, d0, n)], PlannedFile(lib, d0, n), PlannedSection(lib, d0, n))
    ensures NoteOk(lib.fence, PlannedFile(lib, d0, n))
    ensures NoteOf(lib.fence, d0.files[Home(lib, d0, n)]).Some? ==>
              PlannedSection(lib, d0, n) == PlannedFile(lib, d0, n).inner
  {
    var text, plan := d0.files[Home(lib, d0, n)], PlannedFile(lib, d0, n);
    var s := FilesAreKin(lib, n, BodyFor(lib, d0, n), EPOCH, EPOCH);
    MergedHasFence(lib.fence, text, plan);
    RemergesIsStable(lib.fence, text, plan, s);
  }

  /** The write of a note that settles always goes through, and leaves a good file. */
  lemma {:induction false} WritableIsWritten(lib: Library, d0: Durable, n: AppleNote, files: Files, now: Moment)
    requires LibraryOk(lib) && IsMoment(now) && Writable(lib, d0, n) && Settles(lib, d0, n)
    requires FileAt(files, Home(lib, d0, n)) == FileAt(d0.files, Home(lib, d0, n)) || Written(lib, d0, n, files)
    ensures var text := Attempt(lib, d0, n, files, now); text.Some? && Good(lib, d0, n, text.value)
  {
    var f, body, path := lib.fence, BodyFor(lib, d0, n), Home(lib, d0, n);
    var g, plan := FileOfNote(lib, n, body, now), PlannedFile(lib, d0, n);
    var s := FilesAreKin(lib, n, body, EPOCH, now);
    OkAnyTime(lib, n, body, EPOCH, now);
    if path in d0.files { StartIsStable(lib, d0, n); }
    if path in files {
      StableMerges(f, files[path], plan, g, s, PlannedSection(lib, d0, n));
    } else {
      FirstIsStable(f, plan, g, s);
    }
    if PlainStart(lib, d0, n) { PlainIsWritten(lib, d0, n, files, now); }
  }

  lemma {:induction false} PlainIsRendered(lib: Library, d0: Durable, n: AppleNote, now: Moment)
    requires LibraryOk(lib) && IsMoment(now) && n.markdown.Some? && PlainNote(PlannedFile(lib, d0, n))
    ensures PlainNote(FileOfNote(lib, n, BodyFor(lib, d0, n), now))
  {
    var body := BodyFor(lib, d0, n);
    var s := FilesAreKin(lib, n, body, EPOCH, now);
    LastNamesArePlain();
    FrontLineIs(STAMP, now.iso);
    PlainKin(PlannedFile(lib, d0, n), FileOfNote(lib, n, body, now), s);
  }

  /** Off any `<` above the fence, none gets there. */
  lemma {:induction false} PlainIsWritten(lib: Library, d0: Durable, n: AppleNote, files: Files, now: Moment)
    requires LibraryOk(lib) && IsMoment(now) && Writable(lib, d0, n) && Settles(lib, d0, n) && PlainStart(lib, d0, n)
    requires FileAt(files, Home(lib, d0, n)) == FileAt(d0.files, Home(lib, d0, n)) || Written(lib, d0, n, files)
    ensures var text := Attempt(lib, d0, n, files, now);
            text.Some? ==> PlainStable(lib.fence, text.value, PlannedFile(lib, d0, n))
  {
    var f, body, path := lib.fence, BodyFor(lib, d0, n), Home(lib, d0, n);
    var g, plan := FileOfNote(lib, n, body, now), PlannedFile(lib, d0, n);
    var s := FilesAreKin(lib, n, body, EPOCH, now);
    OkAnyTime(lib, n, body, EPOCH, now);
    PlainIsRendered(lib, d0, n, now);
    if path in d0.files {
      StartIsStable(lib, d0, n);
      MergedHasFence(f, d0.files[path], plan);
      MergeDecides(f, d0.files[path], plan);
    }
    if path in files {
      PlainAgain(f, files[path], plan, g, s);
    } else {
      PlainFirst(f, plan, g, s);
    }
  }

  /** Writing a writable note's file keeps the invariant for every state it can meet. */
  lemma {:induction false} WriteKeeps(lib: Library, d0: Durable, n: AppleNote, files: Files, state: State, text: string)
    requires StartOk(lib, d0) && n in lib.notes && Consistent(lib, d0, files, state)
    requires Writable(lib, d0, n) && (Settles(lib, d0, n) ==> Good(lib, d0, n, text))
    ensures Consistent(lib, d0, files[Home(lib, d0, n) := text], state)
  {
    hide Home, Good, Writable, Settles, SameLinks, AbsentInv, PlannedEntry;
    var next := files[Home(lib, d0, n) := text];
    forall m | m in lib.notes ensures NoteInv(lib, d0, m, next, state) {
      assert NoteInv(lib, d0, m, files, state);
    }
  }

  lemma {:induction false} RecordKeeps(lib: Library, d0: Durable, n: AppleNote, files: Files, state: State, next: State)
    requires StartOk(lib, d0) && n in lib.notes && Consistent(lib, d0, files, state) && Written(lib, d0, n, files)
    requires next == state.(notes := state.notes[n.uuid := PlannedEntry(lib, d0, n)])
    ensures Consistent(lib, d0, files, next)
  {
    forall m | m in lib.notes ensures NoteInv(lib, d0, m, files, next) {
      assert NoteInv(lib, d0, m, files, state);
      if m == n { assert Done(lib, d0, m, files, next); }
    }
    forall uuid | uuid in next.notes && !IsLive(lib, uuid)
      ensures uuid in state.notes && next.notes[uuid] == state.notes[uuid]
    {
    }
  }

  lemma {:induction false} WriteEventKeeps(lib: Library, d0: Durable, d: Durable, n: AppleNote, r: Run,
                                           text: string, mid: Run)
    requires StartOk(lib, d0) && n in lib.notes && RunInv(lib, d0, d, r) && Writable(lib, d0, n)
             && (Settles(lib, d0, n) ==> Good(lib, d0, n, text))
    requires mid.files == r.files[Home(lib, d0, n) := text] && mid.events == r.events + [Write(Home(lib, d0, n), text)]
    requires mid.state == r.state.(notes := r.state.notes[n.uuid := PlannedEntry(lib, d0, n)])
    ensures RunInv(lib, d0, d, mid) && Done(lib, d0, n, mid.files, mid.state)
  {
    WriteKeeps(lib, d0, n, r.files, r.state, text);
    RecordKeeps(lib, d0, n, mid.files, r.state, mid.state);
    LastIsDurable(lib, d0, d, r);
    WriteKeeps(lib, d0, n, r.files, Apply(d, r.events).saved, text);
    OneMoreEvent(lib, d0, d, r, Write(Home(lib, d0, n), text), mid);
  }

  lemma {:induction false} SaveEventKeeps(lib: Library, d0: Durable, d: Durable, r: Run, next: Run)
    requires RunInv(lib, d0, d, r) && next.files == r.files && next.state == r.state
             && next.events == r.events + [Save(r.state)]
    ensures RunInv(lib, d0, d, next)
  {
    OneMoreEvent(lib, d0, d, r, Save(r.state), next);
  }

  lemma {:induction false} RecordedKeeps(lib: Library, d0: Durable, d: Durable, n: AppleNote, r: Run, text: string,
                                         every: nat)
    requires StartOk(lib, d0) && n in lib.notes && RunInv(lib, d0, d, r) && Writable(lib, d0, n)
             && (Settles(lib, d0, n) ==> Good(lib, d0, n, text))
    ensures var next := Recorded(r, n.uuid, PlannedEntry(lib, d0, n), text, every);
            RunInv(lib, d0, d, next) && Done(lib, d0, n, next.files, next.state)
  {
    var next := Recorded(r, n.uuid, PlannedEntry(lib, d0, n), text, every);
    var mid := r.(files := next.files, state := next.state, events := r.events + [Write(Home(lib, d0, n), text)]);
    WriteEventKeeps(lib, d0, d, n, r, text, mid);
    if r.unsaved + 1 >= every {
      SaveEventKeeps(lib, d0, d, mid, next);
    } else {
      assert next.events == mid.events;
    }
  }

  /** The outcome of a complete pass for one note; of a note that is written and does not settle, nothing is said. */
  ghost predicate Settled(lib: Library, d0: Durable, n: AppleNote, files: Files, state: State) {
    if !Writable(lib, d0, n) then Untouched(lib, d0, n, files, state)
    else Settles(lib, d0, n) ==> Done(lib, d0, n, files, state)
  }

  lemma HomeIsKept(lib: Library, d0: Durable, n: AppleNote, files: Files, state: State)
    requires NoteInv(lib, d0, n, files, state)
    ensures PathOf(lib, n, Lookup(state.notes, n.uuid)) == Home(lib, d0, n)
  {
  }

  /** What a pass does with a note, whatever earlier passes did: write it, or leave it as it is. */
  lemma {:induction false} SettleIs(lib: Library, d0: Durable, every: nat, now: Moment, n: AppleNote, r: Run)
    requires LibraryOk(lib) && n in lib.notes && IsMoment(now) && n.markdown.Some?
             && NoteInv(lib, d0, n, r.files, r.state)
    ensures var next, text := Settle(lib, every, now, n, BodyFor(lib, d0, n), r), Attempt(lib, d0, n, r.files, now);
            if Writable(lib, d0, n) && Lookup(r.state.notes, n.uuid) == Lookup(d0.saved.notes, n.uuid) && text.Some?
            then (Settles(lib, d0, n) ==> Good(lib, d0, n, text.value))
              && next == Recorded(r, n.uuid, PlannedEntry(lib, d0, n), text.value, every)
            else next == r && Settled(lib, d0, n, r.files, r.state)
  {
    hide Good, Settles, Accepted, Written;
    HomeIsKept(lib, d0, n, r.files, r.state);
    WrittenIsWritable(lib, d0, n, r.files);
    if Writable(lib, d0, n) {
      if Lookup(r.state.notes, n.uuid) == Lookup(d0.saved.notes, n.uuid) && Settles(lib, d0, n) {
        WritableIsWritten(lib, d0, n, r.files, now);
      }
    } else if NotCurrent(lib, d0, n) {
      AcceptedAnyTime(lib, d0, n, r.files, now);
    }
  }

  lemma WrittenIsWritable(lib: Library, d0: Durable, n: AppleNote, files: Files)
    ensures Written(lib, d0, n, files) ==> Writable(lib, d0, n)
  {
  }

  lemma RecordedTouches(lib: Library, d0: Durable, n: AppleNote, r: Run, text: string, every: nat)
    requires n.markdown.Some?
    ensures OnlyTouches(lib, d0, n, r, Recorded(r, n.uuid, PlannedEntry(lib, d0, n), text, every))
  {
  }

  lemma {:induction false} WrittenSettles(lib: Library, d0: Durable, d: Durable, every: nat, n: AppleNote, r: Run,
                                          text: string)
    requires StartOk(lib, d0) && n in lib.notes && RunInv(lib, d0, d, r) && Writable(lib, d0, n)
             && (Settles(lib, d0, n) ==> Good(lib, d0, n, text))
    ensures var next := Recorded(r, n.uuid, PlannedEntry(lib, d0, n), text, every);
            && RunInv(lib, d0, d, next) && Settled(lib, d0, n, next.files, next.state)
               && OnlyTouches(lib, d0, n, r, next)
  {
    RecordedKeeps(lib, d0, d, n, r, text, every);
    RecordedTouches(lib, d0, n, r, text, every);
  }

  lemma {:induction false} SettleSettles(lib: Library, d0: Durable, d: Durable, every: nat, now: Moment,
                                         n: AppleNote, r: Run)
    requires StartOk(lib, d0) && n in lib.notes && RunInv(lib, d0, d, r) && IsMoment(now) && n.markdown.Some?
    ensures var next := Settle(lib, every, now, n, BodyFor(lib, d0, n), r);
            && RunInv(lib, d0, d, next) && Settled(lib, d0, n, next.files, next.state)
            && OnlyTouches(lib, d0, n, r, next)
  {
    assert NoteInv(lib, d0, n, r.files, r.state);
    SettleIs(lib, d0, every, now, n, r);
    var text := Attempt(lib, d0, n, r.files, now);
    if Writable(lib, d0, n) && Lookup(r.state.notes, n.uuid) == Lookup(d0.saved.notes, n.uuid) && text.Some? {
      WrittenSettles(lib, d0, d, every, n, r, text.value);
    }
  }

  /** One turn of the loop: the invariant holds at every point a kill could leave, and the note is settled. */
  lemma {:induction false} NoteStepSettles(lib: Library, d0: Durable, d: Durable, every: nat, now: Moment,
                                           n: AppleNote, r: Run)
    requires StartOk(lib, d0) && n in lib.notes && RunInv(lib, d0, d, r) && IsMoment(now) && !r.stopped
    ensures var next := NoteStep(lib, every, now, n, r);
            && RunInv(lib, d0, d, next)
            && (!next.stopped ==> Settled(lib, d0, n, next.files, next.state))
            && OnlyTouches(lib, d0, n, r, next)
  {
    assert NoteInv(lib, d0, n, r.files, r.state);
    if r.budget > 0 {
      var r1 := r.(budget := r.budget - 1);
      assert RunInv(lib, d0, d, r1);
      if n.markdown.Some? {
        var atts := lib.attachments(n.uuid);
        forall i | 0 <= i < |atts| ensures AttOf(lib, atts[i]) {
          assert n in lib.notes && atts[i] in lib.attachments(n.uuid);
        }
        AttachKeeps(lib, d0, d, atts, map[], r1);
        var x := Attach(lib, atts, map[], r1);
        if !x.run.stopped { SettleSettles(lib, d0, d, every, now, n, x.run); }
      }
    }
  }

  /** A step for `n` changes no other note's file and entry. */
  ghost predicate OnlyTouches(lib: Library, d0: Durable, n: AppleNote, r: Run, next: Run) {
    && (forall path | path != Home(lib, d0, n) :: FileAt(next.files, path) == FileAt(r.files, path))
    && (forall uuid | uuid != n.uuid :: Lookup(next.state.notes, uuid) == Lookup(r.state.notes, uuid))
  }

  lemma {:induction false} SettledStays(lib: Library, d0: Durable, m: AppleNote, n: AppleNote, r: Run, next: Run)
    requires StartOk(lib, d0) && m in lib.notes && n in lib.notes && m != n
    requires OnlyTouches(lib, d0, n, r, next) && Settled(lib, d0, m, r.files, r.state)
    ensures Settled(lib, d0, m, next.files, next.state)
  {
    assert Home(lib, d0, m) != Home(lib, d0, n) && m.uuid != n.uuid;
    assert FileAt(next.files, Home(lib, d0, m)) == FileAt(r.files, Home(lib, d0, m));
    assert Lookup(next.state.notes, m.uuid) == Lookup(r.state.notes, m.uuid);
  }

  ghost predicate AllSettled(lib: Library, d0: Durable, notes: seq<AppleNote>, r: Run) {
    forall i | 0 <= i < |notes| :: Settled(lib, d0, notes[i], r.files, r.state)
  }

  ghost predicate Within(lib: Library, notes: seq<AppleNote>) {
    forall i | 0 <= i < |notes| :: notes[i] in lib.notes
  }

  lemma {:induction false} OneMoreSettled(lib: Library, d0: Durable, before: seq<AppleNote>, n: AppleNote, r: Run,
                                          next: Run)
    requires StartOk(lib, d0) && n in lib.notes && Within(lib, before)
    requires AllSettled(lib, d0, before, r) && OnlyTouches(lib, d0, n, r, next)
             && Settled(lib, d0, n, next.files, next.state)
    ensures AllSettled(lib, d0, before + [n], next) && Within(lib, before + [n])
  {
    forall i | 0 <= i < |before| ensures Settled(lib, d0, before[i], next.files, next.state) {
      if before[i] != n { SettledStays(lib, d0, before[i], n, r, next); }
    }
  }

  lemma {:induction false} StepSettlesOneMore(lib: Library, d0: Durable, d: Durable, every: nat, now: Moment,
                           before: seq<AppleNote>, n: AppleNote, r: Run, next: Run)
    requires StartOk(lib, d0) && RunInv(lib, d0, d, r) && IsMoment(now) && !r.stopped
    requires Within(lib, before) && n in lib.notes && AllSettled(lib, d0, before, r)
    requires next == NoteStep(lib, every, now, n, r)
    ensures RunInv(lib, d0, d, next) && Within(lib, before + [n])
    ensures !next.stopped ==> AllSettled(lib, d0, before + [n], next)
  {
    NoteStepSettles(lib, d0, d, every, now, n, r);
    if !next.stopped { OneMoreSettled(lib, d0, before, n, r, next); }
  }

  lemma {:induction false} NotesSettle(lib: Library, d0: Durable, d: Durable, every: nat, now: Moment,
                                       before: seq<AppleNote>, notes: seq<AppleNote>, r: Run)
    requires StartOk(lib, d0) && RunInv(lib, d0, d, r) && IsMoment(now)
    requires Within(lib, before) && Within(lib, notes)
    requires !r.stopped ==> AllSettled(lib, d0, before, r)
    ensures RunInv(lib, d0, d, NotesFrom(lib, every, now, notes, r))
    ensures !NotesFrom(lib, every, now, notes, r).stopped ==>
              AllSettled(lib, d0, before + notes, NotesFrom(lib, every, now, notes, r))
    decreases |notes|
  {
    hide RunInv, StartOk, Settled;
    if notes == [] || r.stopped {
      assert notes == [] ==> before + notes == before;
    } else {
      var n, next, rest := notes[0], NoteStep(lib, every, now, notes[0], r), notes[1..];
      StepSettlesOneMore(lib, d0, d, every, now, before, n, r, next);
      assert Within(lib, rest) by { assert forall i | 0 <= i < |rest| :: rest[i] == notes[i + 1]; }
      NotesSettle(lib, d0, d, every, now, before + [n], rest, next);
      assert before + [n] + rest == before + notes;
    }
  }

  // ---- The sweep ------------------------------------------------------------------------------------

  /** The sweep writes only files of notes the store no longer has. */
  lemma {:induction false} SweepStepKeeps(lib: Library, d0: Durable, d: Durable, now: Moment, uuid: string, r: Run)
    requires StartOk(lib, d0) && RunInv(lib, d0, d, r)
    ensures var next := SweepStep(lib, now, uuid, r);
            && RunInv(lib, d0, d, next) && KeepsLive(lib, d0, r, next)
  {
    hide MarkDeleted, NoteInv, SameLinks, Home;
    var next := SweepStep(lib, now, uuid, r);
    if next != r {
      var entry := r.state.notes[uuid];
      assert !IsLive(lib, uuid) && uuid in d0.saved.notes && entry.path == d0.saved.notes[uuid].path;
      var text := next.files[entry.path];
      SweptFileKeeps(lib, d0, uuid, r.files, r.state, text);
      SweptEntryKeeps(lib, d0, uuid, next.files, r.state, next.state);
      LastIsDurable(lib, d0, d, r);
      SweptFileKeeps(lib, d0, uuid, r.files, Apply(d, r.events).saved, text);
      OneMoreEvent(lib, d0, d, r, Write(entry.path, text), next);
    }
  }

  ghost predicate KeepsLive(lib: Library, d0: Durable, r: Run, next: Run) {
    && next.stopped == r.stopped
    && (forall n | n in lib.notes :: FileAt(next.files, Home(lib, d0, n)) == FileAt(r.files, Home(lib, d0, n)))
    && (forall n | n in lib.notes :: Lookup(next.state.notes, n.uuid) == Lookup(r.state.notes, n.uuid))
  }

  lemma {:induction false} SweptFileKeeps(lib: Library, d0: Durable, uuid: string, files: Files, state: State,
                                          text: string)
    requires StartOk(lib, d0) && Consistent(lib, d0, files, state) && !IsLive(lib, uuid) && uuid in d0.saved.notes
    ensures Consistent(lib, d0, files[d0.saved.notes[uuid].path := text], state)
  {
    var next := files[d0.saved.notes[uuid].path := text];
    forall m | m in lib.notes ensures NoteInv(lib, d0, m, next, state) {
      assert NoteInv(lib, d0, m, files, state);
      assert FileAt(next, Home(lib, d0, m)) == FileAt(files, Home(lib, d0, m));
    }
  }

  lemma {:induction false} SweptEntryKeeps(lib: Library, d0: Durable, uuid: string, files: Files, state: State,
                                           next: State)
    requires Consistent(lib, d0, files, state) && !IsLive(lib, uuid) && uuid in state.notes
    requires next == state.(notes := state.notes[uuid := state.notes[uuid].(deleted := true)])
    ensures Consistent(lib, d0, files, next)
  {
    forall m | m in lib.notes ensures NoteInv(lib, d0, m, files, next) {
      assert NoteInv(lib, d0, m, files, state);
      assert m.uuid != uuid;
    }
  }

  lemma {:induction false} SweepKeeps(lib: Library, d0: Durable, d: Durable, now: Moment, order: seq<string>, r: Run)
    requires StartOk(lib, d0) && RunInv(lib, d0, d, r)
    ensures RunInv(lib, d0, d, SweepFrom(lib, now, order, r)) && KeepsLive(lib, d0, r, SweepFrom(lib, now, order, r))
    decreases |order|
  {
    if order != [] {
      SweepStepKeeps(lib, d0, d, now, order[0], r);
      SweepKeeps(lib, d0, d, now, order[1..], SweepStep(lib, now, order[0], r));
    }
  }

  // ---- Passes ---------------------------------------------------------------------------------------

  lemma StartInv(lib: Library, d0: Durable)
    ensures DurableInv(lib, d0, d0)
  {
  }

  lemma RunStarts(lib: Library, d0: Durable, d: Durable, budget: nat)
    requires DurableInv(lib, d0, d)
    ensures RunInv(lib, d0, d, Started(d, budget))
  {
  }

  lemma LimitedWithin(lib: Library, limit: Option<nat>)
    ensures Within(lib, Limited(lib.notes, limit))
  {
  }

  /** A pass, limited, stopped at its deadline or complete, keeps the invariant wherever it is killed. */
  lemma {:induction false} SyncKeeps(lib: Library, d0: Durable, d: Durable, cfg: Config)
    requires StartOk(lib, d0) && DurableInv(lib, d0, d) && IsMoment(cfg.now)
    ensures RunInv(lib, d0, d, Sync(lib, cfg, d))
    ensures cfg.limit.None? && !Sync(lib, cfg, d).stopped ==> AllSettled(lib, d0, lib.notes, Sync(lib, cfg, d))
  {
    RunStarts(lib, d0, d, cfg.budget);
    LimitedWithin(lib, cfg.limit);
    var notes, start := Limited(lib.notes, cfg.limit), Started(d, cfg.budget);
    NotesSettle(lib, d0, d, cfg.every, cfg.now, [], notes, start);
    assert [] + notes == notes;
    var r := NotesFrom(lib, cfg.every, cfg.now, notes, start);
    SweepKeeps(lib, d0, d, cfg.now, cfg.order, r);
    var swept := Swept(lib, cfg, r);
    SaveEventKeeps(lib, d0, d, swept, Saved(swept));
    if cfg.limit.None? && !swept.stopped { SettledAfterSweep(lib, d0, r, swept); }
  }

  lemma {:induction false} SettledAfterSweep(lib: Library, d0: Durable, r: Run, swept: Run)
    requires AllSettled(lib, d0, lib.notes, r) && KeepsLive(lib, d0, r, swept)
    ensures AllSettled(lib, d0, lib.notes, swept) && AllSettled(lib, d0, lib.notes, Saved(swept))
  {
    forall i | 0 <= i < |lib.notes| ensures Settled(lib, d0, lib.notes[i], swept.files, swept.state) {
      var n := lib.notes[i];
      assert Settled(lib, d0, n, r.files, r.state);
      assert FileAt(swept.files, Home(lib, d0, n)) == FileAt(r.files, Home(lib, d0, n));
      assert Lookup(swept.state.notes, n.uuid) == Lookup(r.state.notes, n.uuid);
    }
  }

  /** An attempted pass, killed after `cut` durable events. */
  datatype Killed = Killed(cfg: Config, cut: nat)

  function AfterKill(lib: Library, d: Durable, kill: Killed): Durable {
    var events := Sync(lib, kill.cfg, d).events;
    Apply(d, if kill.cut <= |events| then events[..kill.cut] else events)
  }

  function AfterKills(lib: Library, d: Durable, kills: seq<Killed>): Durable
    decreases |kills|
  {
    if kills == [] then d else AfterKill(lib, AfterKills(lib, d, kills[..|kills| - 1]), kills[|kills| - 1])
  }

  lemma {:induction false} KillsKeep(lib: Library, d0: Durable, kills: seq<Killed>)
    requires StartOk(lib, d0) && forall i | 0 <= i < |kills| :: IsMoment(kills[i].cfg.now)
    ensures DurableInv(lib, d0, AfterKills(lib, d0, kills))
    decreases |kills|
  {
    if kills == [] {
      StartInv(lib, d0);
    } else {
      var before, kill := kills[..|kills| - 1], kills[|kills| - 1];
      KillsKeep(lib, d0, before);
      var d := AfterKills(lib, d0, before);
      SyncKeeps(lib, d0, d, kill.cfg);
      LastIsDurable(lib, d0, d, Sync(lib, kill.cfg, d));
    }
  }
}
