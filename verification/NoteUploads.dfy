/**
 * The uploads of `run_sync` (packages/apple-notes/fulcra_apple_notes/sync.py): which attachments a
 * pass uploads, and that nothing is recorded as uploaded before it was.
 */
module NoteUploads {
  import opened Wrappers
  import opened TextLines
  import opened NoteText
  import opened NoteRender
  import opened NoteSync
  import opened NoteCrash
  import opened NoteConverge
  import opened NoteReconcile

  // ---- A record has its upload ---------------------------------------------------------------------

  /** Every media record was there before, or the file it names was uploaded since. */
  ghost predicate Backed(before: map<string, Media>, events: seq<Event>, media: map<string, Media>) {
    forall id | id in media ::
      (id in before && before[id] == media[id]) || Upload(media[id].path, media[id].sha) in events
  }

  /** Every state saved so far held only such records when it was saved. */
  ghost predicate SavesBacked(before: map<string, Media>, events: seq<Event>) {
    forall i | 0 <= i < |events| && events[i].Save? :: Backed(before, events[..i], events[i].state.media)
  }

  ghost predicate RunBacked(before: map<string, Media>, r: Run) {
    Backed(before, r.events, r.state.media) && SavesBacked(before, r.events)
  }

  lemma {:induction false} OneMoreBacked(before: map<string, Media>, events: seq<Event>, event: Event)
    requires SavesBacked(before, events) && (event.Save? ==> Backed(before, events, event.state.media))
    ensures SavesBacked(before, events + [event])
  {
    var all := events + [event];
    forall i | 0 <= i < |all| && all[i].Save? ensures Backed(before, all[..i], all[i].state.media) {
      assert all[..i] == events[..i];
      assert events[..|events|] == events;
    }
  }

  lemma {:induction false} AttachBacked(lib: Library, before: map<string, Media>, atts: seq<Attachment>, links: Links,
                                        r: Run)
    requires RunBacked(before, r)
    ensures RunBacked(before, Attach(lib, atts, links, r).run)
    decreases |atts|
  {
    if atts != [] && r.budget > 0 {
      var a, r1 := atts[0], r.(budget := r.budget - 1);
      var next := Uploaded(lib, a, r1);
      if next.events != r.events {
        OneMoreBacked(before, r.events, next.events[|r.events|]);
        assert next.events == r.events + [next.events[|r.events|]];
        assert next.events[|r.events|] in next.events;
      }
      AttachBacked(lib, before, atts[1..], WithLink(links, a, Linked(lib, r.state.media, a)), next);
    }
  }

  lemma {:induction false} RecordedBacked(before: map<string, Media>, r: Run, uuid: string, entry: Entry, text: string,
                                          every: nat)
    requires RunBacked(before, r)
    ensures RunBacked(before, Recorded(r, uuid, entry, text, every))
  {
    var next, written := Recorded(r, uuid, entry, text, every), r.events + [Write(entry.path, text)];
    OneMoreBacked(before, r.events, Write(entry.path, text));
    assert Backed(before, written, r.state.media);
    if r.unsaved + 1 >= every {
      OneMoreBacked(before, written, Save(next.state));
      assert Backed(before, written + [Save(next.state)], r.state.media);
    }
  }

  lemma {:induction false} NotesBacked(lib: Library, before: map<string, Media>, every: nat, now: Moment,
                                       notes: seq<AppleNote>, r: Run)
    requires RunBacked(before, r)
    ensures RunBacked(before, NotesFrom(lib, every, now, notes, r))
    decreases |notes|
  {
    if notes != [] && !r.stopped {
      StepBacked(lib, before, every, now, notes[0], r);
      NotesBacked(lib, before, every, now, notes[1..], NoteStep(lib, every, now, notes[0], r));
    }
  }

  lemma {:induction false} StepBacked(lib: Library, before: map<string, Media>, every: nat, now: Moment, n: AppleNote,
                                      r: Run)
    requires RunBacked(before, r)
    ensures RunBacked(before, NoteStep(lib, every, now, n, r))
  {
    hide Recorded, Attach;
    if r.budget > 0 && n.markdown.Some? {
      var r1 := r.(budget := r.budget - 1);
      AttachBacked(lib, before, lib.attachments(n.uuid), map[], r1);
      var x := Attach(lib, lib.attachments(n.uuid), map[], r1);
      if !x.run.stopped {
        var body := lib.resolve(n.markdown.value, x.links);
        var path := PathOf(lib, n, Lookup(x.run.state.notes, n.uuid));
        match TextToWrite(lib, x.run.files, path, Text(lib.fence, FileOfNote(lib, n, body, now)))
        case Some(text) =>
          RecordedBacked(before, x.run, n.uuid, EntryOf(n, path, lib.hash(body)), text, every);
        case None =>
      }
    }
  }

  lemma {:induction false} SweepBacked(lib: Library, before: map<string, Media>, now: Moment, order: seq<string>,
                                       r: Run)
    requires RunBacked(before, r)
    ensures RunBacked(before, SweepFrom(lib, now, order, r))
    decreases |order|
  {
    hide MarkDeleted;
    if order != [] {
      var next := SweepStep(lib, now, order[0], r);
      if next != r {
        OneMoreBacked(before, r.events, next.events[|r.events|]);
        assert next.events == r.events + [next.events[|r.events|]];
      }
      SweepBacked(lib, before, now, order[1..], next);
    }
  }

  /**
   * Of any pass, limited, stopped or complete: every state it saves, and the one it ends in, names
   * only files recorded at its start or uploaded before in the same pass.
   */
  lemma {:induction false} RecordsAreUploaded(lib: Library, cfg: Config, d: Durable)
    ensures RunBacked(d.saved.media, Sync(lib, cfg, d))
  {
    var start := Started(d, cfg.budget);
    NotesBacked(lib, d.saved.media, cfg.every, cfg.now, Limited(lib.notes, cfg.limit), start);
    var r := NotesFrom(lib, cfg.every, cfg.now, Limited(lib.notes, cfg.limit), start);
    SweepBacked(lib, d.saved.media, cfg.now, cfg.order, r);
    var swept := Swept(lib, cfg, r);
    OneMoreBacked(d.saved.media, swept.events, Save(swept.state));
  }

  // ---- Over any kills ------------------------------------------------------------------------------

  lemma {:induction false} SavedIsBacked(d: Durable, events: seq<Event>)
    requires SavesBacked(d.saved.media, events)
    ensures Backed(d.saved.media, events, Apply(d, events).saved.media)
    decreases |events|
  {
    if events != [] {
      var init, last := events[..|events| - 1], events[|events| - 1];
      forall i | 0 <= i < |init| && init[i].Save? ensures Backed(d.saved.media, init[..i], init[i].state.media) {
        assert init[..i] == events[..i];
      }
      SavedIsBacked(d, init);
      assert forall e | e in init :: e in events;
    }
  }

  function CutEvents(lib: Library, d: Durable, kill: Killed): seq<Event> {
    var events := Sync(lib, kill.cfg, d).events;
    if kill.cut <= |events| then events[..kill.cut] else events
  }

  /** Everything that killed passes made durable, in order. */
  function History(lib: Library, d: Durable, kills: seq<Killed>): seq<Event>
    decreases |kills|
  {
    if kills == [] then []
    else
      var init := kills[..|kills| - 1];
      History(lib, d, init) + CutEvents(lib, AfterKills(lib, d, init), kills[|kills| - 1])
  }

  /** After any kills, at any point, the saved state names only files that were uploaded, or known at the start. */
  lemma {:induction false} KillsLoseNoUpload(lib: Library, d: Durable, kills: seq<Killed>)
    ensures Backed(d.saved.media, History(lib, d, kills), AfterKills(lib, d, kills).saved.media)
    decreases |kills|
  {
    if kills != [] {
      var init, kill := kills[..|kills| - 1], kills[|kills| - 1];
      KillsLoseNoUpload(lib, d, init);
      var now := AfterKills(lib, d, init);
      RecordsAreUploaded(lib, kill.cfg, now);
      var events, cut := Sync(lib, kill.cfg, now).events, CutEvents(lib, now, kill);
      forall i | 0 <= i < |cut| && cut[i].Save? ensures Backed(now.saved.media, cut[..i], cut[i].state.media) {
        assert cut[..i] == events[..i];
      }
      SavedIsBacked(now, cut);
      assert AfterKills(lib, d, kills) == Apply(now, cut);
    }
  }

  // ---- Which files are uploaded ----------------------------------------------------------------------

  /** A readable attachment of a note that decodes, recorded otherwise or not at all. */
  ghost predicate Pending(lib: Library, before: map<string, Media>, path: string, sha: string) {
    exists n, a :: n in lib.notes && n.markdown.Some? && a in lib.attachments(n.uuid)
                   && IsPending(lib, before, a, path, sha)
  }

  predicate IsPending(lib: Library, before: map<string, Media>, a: Attachment, path: string, sha: string) {
    && a.media != "" && a.filename != ""
    && lib.disk(a.media, a.filename) == Readable(path, sha)
    && !(a.media in before && before[a.media] == Media(path, sha))
  }

  ghost predicate OnlyPending(lib: Library, before: map<string, Media>, events: seq<Event>) {
    forall path, sha | Upload(path, sha) in events :: Pending(lib, before, path, sha)
  }

  predicate SameRecord(before: map<string, Media>, media: map<string, Media>, id: string) {
    (id in media <==> id in before) && (id in media ==> media[id] == before[id])
  }

  /** A record is the one at the start, or that of the file on disk. */
  ghost predicate OldOrNew(lib: Library, before: map<string, Media>, media: map<string, Media>) {
    forall a | AttOf(lib, a) && HasFile(a) ::
      SameRecord(before, media, a.media) || OneRecorded(lib, a, media)
  }

  ghost predicate RunPending(lib: Library, before: map<string, Media>, r: Run) {
    OnlyPending(lib, before, r.events) && OldOrNew(lib, before, r.state.media)
  }

  lemma {:induction false} UploadPending(lib: Library, before: map<string, Media>, n: AppleNote, a: Attachment, r: Run)
    requires MediaConsistent(lib) && n in lib.notes && n.markdown.Some? && a in lib.attachments(n.uuid)
    requires RunPending(lib, before, r)
    ensures RunPending(lib, before, Uploaded(lib, a, r))
  {
    var next := Uploaded(lib, a, r);
    assert AttOf(lib, a);
    if next != r {
      var e := lib.disk(a.media, a.filename);
      assert IsPending(lib, before, a, e.path, e.sha);
      assert next.events == r.events + [Upload(e.path, e.sha)];
    }
  }

  lemma {:induction false} AttachPending(lib: Library, before: map<string, Media>, n: AppleNote, atts: seq<Attachment>,
                                         links: Links, r: Run)
    requires MediaConsistent(lib) && n in lib.notes && n.markdown.Some? && RunPending(lib, before, r)
    requires forall i | 0 <= i < |atts| :: atts[i] in lib.attachments(n.uuid)
    ensures RunPending(lib, before, Attach(lib, atts, links, r).run)
    decreases |atts|
  {
    hide MediaConsistent, Uploaded;
    if atts != [] && r.budget > 0 {
      var a, r1 := atts[0], r.(budget := r.budget - 1);
      UploadPending(lib, before, n, a, r1);
      assert forall i | 0 <= i < |atts[1..]| :: atts[1..][i] == atts[i + 1];
      AttachPending(lib, before, n, atts[1..], WithLink(links, a, Linked(lib, r.state.media, a)),
                    Uploaded(lib, a, r1));
    }
  }

  /** Only writes and saves are added, and no media record is changed. */
  ghost predicate NoUploads(r: Run, next: Run) {
    && r.events <= next.events && next.state.media == r.state.media
    && forall i | |r.events| <= i < |next.events| :: !next.events[i].Upload?
  }

  lemma {:induction false} NoUploadsPending(lib: Library, before: map<string, Media>, r: Run, next: Run)
    requires RunPending(lib, before, r) && NoUploads(r, next)
    ensures RunPending(lib, before, next)
  {
    forall path, sha | Upload(path, sha) in next.events ensures Upload(path, sha) in r.events {
      var i :| 0 <= i < |next.events| && next.events[i] == Upload(path, sha);
      assert i < |r.events| && r.events[i] == next.events[i];
    }
  }

  lemma SettleUploadsNothing(lib: Library, every: nat, now: Moment, n: AppleNote, body: string, r: Run)
    ensures NoUploads(r, Settle(lib, every, now, n, body, r))
  {
    hide TextToWrite, FileOfNote, PathOf, Current;
  }

  lemma {:induction false} SweepUploadsNothing(lib: Library, now: Moment, order: seq<string>, r: Run)
    ensures NoUploads(r, SweepFrom(lib, now, order, r))
    decreases |order|
  {
    hide MarkDeleted;
    if order != [] {
      var mid := SweepStep(lib, now, order[0], r);
      SweepUploadsNothing(lib, now, order[1..], mid);
    }
  }

  lemma {:induction false} StepPending(lib: Library, before: map<string, Media>, every: nat, now: Moment, n: AppleNote,
                                       r: Run)
    requires MediaConsistent(lib) && n in lib.notes && RunPending(lib, before, r)
    ensures RunPending(lib, before, NoteStep(lib, every, now, n, r))
  {
    hide MediaConsistent, Settle, Attach;
    if r.budget > 0 && n.markdown.Some? {
      var r1 := r.(budget := r.budget - 1);
      AttachPending(lib, before, n, lib.attachments(n.uuid), map[], r1);
      var x := Attach(lib, lib.attachments(n.uuid), map[], r1);
      if !x.run.stopped {
        var body := lib.resolve(n.markdown.value, x.links);
        SettleUploadsNothing(lib, every, now, n, body, x.run);
        NoUploadsPending(lib, before, x.run, Settle(lib, every, now, n, body, x.run));
      }
    }
  }

  lemma {:induction false} NotesPending(lib: Library, before: map<string, Media>, every: nat, now: Moment,
                                        notes: seq<AppleNote>, r: Run)
    requires MediaConsistent(lib) && Within(lib, notes) && RunPending(lib, before, r)
    ensures RunPending(lib, before, NotesFrom(lib, every, now, notes, r))
    decreases |notes|
  {
    hide MediaConsistent, RunPending;
    if notes != [] && !r.stopped {
      StepPending(lib, before, every, now, notes[0], r);
      assert Within(lib, notes[1..]) by { assert forall i | 0 <= i < |notes[1..]| :: notes[1..][i] == notes[i + 1]; }
      NotesPending(lib, before, every, now, notes[1..], NoteStep(lib, every, now, notes[0], r));
    }
  }

  /** Whatever a pass uploads was pending at its start, limited, stopped or complete. */
  lemma {:induction false} UploadsWerePending(lib: Library, cfg: Config, d: Durable)
    requires MediaConsistent(lib)
    ensures OnlyPending(lib, d.saved.media, Sync(lib, cfg, d).events)
  {
    var start := Started(d, cfg.budget);
    LimitedWithin(lib, cfg.limit);
    NotesPending(lib, d.saved.media, cfg.every, cfg.now, Limited(lib.notes, cfg.limit), start);
    var r := NotesFrom(lib, cfg.every, cfg.now, Limited(lib.notes, cfg.limit), start);
    SweepUploadsNothing(lib, cfg.now, cfg.order, r);
    assert NoUploads(r, Saved(Swept(lib, cfg, r)));
    NoUploadsPending(lib, d.saved.media, r, Sync(lib, cfg, d));
  }

  /** A complete pass uploads a file exactly if it was pending at its start. */
  lemma {:induction false} UploadedIffPending(lib: Library, cfg: Config, d: Durable, path: string, sha: string)
    requires LibraryOk(lib) && cfg.limit.None? && !Sync(lib, cfg, d).stopped
    ensures Upload(path, sha) in Sync(lib, cfg, d).events <==> Pending(lib, d.saved.media, path, sha)
  {
    UploadsWerePending(lib, cfg, d);
    if Pending(lib, d.saved.media, path, sha) {
      var n, a :| n in lib.notes && n.markdown.Some? && a in lib.attachments(n.uuid)
                  && IsPending(lib, d.saved.media, a, path, sha);
      SyncRecords(lib, cfg, d, n);
      RecordsAreUploaded(lib, cfg, d);
      var i :| 0 <= i < |lib.attachments(n.uuid)| && lib.attachments(n.uuid)[i] == a;
      assert OneRecorded(lib, lib.attachments(n.uuid)[i], Sync(lib, cfg, d).state.media);
    }
  }

  // ---- Once each -------------------------------------------------------------------------------------

  /** An upload's path names its media id. */
  ghost predicate PathsApart(lib: Library) {
    forall a, b | AttOf(lib, a) && AttOf(lib, b) && SamePath(lib, a, b) :: a.media == b.media
  }

  predicate SamePath(lib: Library, a: Attachment, b: Attachment) {
    match (lib.disk(a.media, a.filename), lib.disk(b.media, b.filename))
    case (Readable(p, _), Readable(q, _)) => p == q
    case _ => false
  }

  /** What was uploaded is recorded, and no file was uploaded twice. */
  ghost predicate RunOnce(lib: Library, r: Run) {
    && (forall a | AttOf(lib, a) && HasFile(a) && WasUploaded(lib, a, r.events) :: OneRecorded(lib, a, r.state.media))
    && (forall i, j | 0 <= i < j < |r.events| && r.events[i].Upload? && r.events[j].Upload? ::
          r.events[i].path != r.events[j].path)
    && forall i | 0 <= i < |r.events| && r.events[i].Upload? :: IsOf(lib, r.events[i].path, r.events[i].sha)
  }

  predicate WasUploaded(lib: Library, a: Attachment, events: seq<Event>) {
    match lib.disk(a.media, a.filename)
    case Readable(path, sha) => Upload(path, sha) in events
    case _ => false
  }

  ghost predicate IsOf(lib: Library, path: string, sha: string) {
    exists a :: AttOf(lib, a) && HasFile(a) && lib.disk(a.media, a.filename) == Readable(path, sha)
  }

  lemma {:induction false} UploadOnce(lib: Library, a: Attachment, r: Run)
    requires MediaConsistent(lib) && PathsApart(lib) && AttOf(lib, a) && RunOnce(lib, r)
    ensures RunOnce(lib, Uploaded(lib, a, r))
  {
    var next := Uploaded(lib, a, r);
    if next != r {
      var e := lib.disk(a.media, a.filename);
      assert next.events == r.events + [Upload(e.path, e.sha)];
      assert IsOf(lib, e.path, e.sha);
      forall i | 0 <= i < |r.events| && r.events[i].Upload? ensures r.events[i].path != e.path {
        var u := r.events[i];
        var b :| AttOf(lib, b) && HasFile(b) && lib.disk(b.media, b.filename) == Readable(u.path, u.sha);
        assert r.events[i] in r.events;
        assert SamePath(lib, a, b) <==> r.events[i].path == e.path;
      }
      forall b | AttOf(lib, b) && HasFile(b) && WasUploaded(lib, b, next.events)
        ensures OneRecorded(lib, b, next.state.media)
      {
        if !WasUploaded(lib, b, r.events) { assert SamePath(lib, a, b); }
      }
    }
  }

  lemma {:induction false} AttachOnce(lib: Library, atts: seq<Attachment>, links: Links, r: Run)
    requires MediaConsistent(lib) && PathsApart(lib) && RunOnce(lib, r)
    requires forall i | 0 <= i < |atts| :: AttOf(lib, atts[i])
    ensures RunOnce(lib, Attach(lib, atts, links, r).run)
    decreases |atts|
  {
    hide MediaConsistent, PathsApart, Uploaded;
    if atts != [] && r.budget > 0 {
      var a, r1 := atts[0], r.(budget := r.budget - 1);
      UploadOnce(lib, a, r1);
      assert forall i | 0 <= i < |atts[1..]| :: atts[1..][i] == atts[i + 1];
      AttachOnce(lib, atts[1..], WithLink(links, a, Linked(lib, r.state.media, a)), Uploaded(lib, a, r1));
    }
  }

  lemma {:induction false} NoUploadsOnce(lib: Library, r: Run, next: Run)
    requires RunOnce(lib, r) && NoUploads(r, next)
    ensures RunOnce(lib, next)
  {
    forall i | 0 <= i < |next.events| && next.events[i].Upload?
      ensures i < |r.events| && next.events[i] == r.events[i]
    {
    }
    forall a | AttOf(lib, a) && HasFile(a) && WasUploaded(lib, a, next.events) ensures WasUploaded(lib, a, r.events) {
      var e := lib.disk(a.media, a.filename);
      var i :| 0 <= i < |next.events| && next.events[i] == Upload(e.path, e.sha);
      assert r.events[i] == Upload(e.path, e.sha);
    }
  }

  lemma {:induction false} NotesOnce(lib: Library, every: nat, now: Moment, notes: seq<AppleNote>, r: Run)
    requires MediaConsistent(lib) && PathsApart(lib) && Within(lib, notes) && RunOnce(lib, r)
    ensures RunOnce(lib, NotesFrom(lib, every, now, notes, r))
    decreases |notes|
  {
    hide MediaConsistent, PathsApart, RunOnce, Settle, Attach;
    if notes != [] && !r.stopped {
      var n := notes[0];
      if r.budget > 0 && n.markdown.Some? {
        var r1 := r.(budget := r.budget - 1);
        assert RunOnce(lib, r1) by { SameEvents(lib, r, r1); }
        AttachmentsOf(lib, n);
        AttachOnce(lib, lib.attachments(n.uuid), map[], r1);
        var x := Attach(lib, lib.attachments(n.uuid), map[], r1);
        if !x.run.stopped {
          var body := lib.resolve(n.markdown.value, x.links);
          SettleUploadsNothing(lib, every, now, n, body, x.run);
          NoUploadsOnce(lib, x.run, Settle(lib, every, now, n, body, x.run));
        }
      } else {
        SameEvents(lib, r, NoteStep(lib, every, now, n, r));
      }
      assert Within(lib, notes[1..]) by { assert forall i | 0 <= i < |notes[1..]| :: notes[1..][i] == notes[i + 1]; }
      NotesOnce(lib, every, now, notes[1..], NoteStep(lib, every, now, n, r));
    }
  }

  lemma SameEvents(lib: Library, r: Run, next: Run)
    requires RunOnce(lib, r) && next.events == r.events && next.state == r.state
    ensures RunOnce(lib, next)
  {
  }

  /** No pass uploads a file twice, however many notes share it. */
  lemma {:induction false} UploadedOnce(lib: Library, cfg: Config, d: Durable, i: nat, j: nat)
    requires MediaConsistent(lib) && PathsApart(lib)
    requires var events := Sync(lib, cfg, d).events;
             i < j < |events| && events[i].Upload? && events[j].Upload?
    ensures Sync(lib, cfg, d).events[i].path != Sync(lib, cfg, d).events[j].path
  {
    var start := Started(d, cfg.budget);
    LimitedWithin(lib, cfg.limit);
    NotesOnce(lib, cfg.every, cfg.now, Limited(lib.notes, cfg.limit), start);
    var r := NotesFrom(lib, cfg.every, cfg.now, Limited(lib.notes, cfg.limit), start);
    SweepUploadsNothing(lib, cfg.now, cfg.order, r);
    assert NoUploads(r, Saved(Swept(lib, cfg, r)));
    NoUploadsOnce(lib, r, Sync(lib, cfg, d));
  }
}
