/**
 * Whole passes of `run_sync` (packages/apple-notes/fulcra_apple_notes/sync.py): when the state is
 * saved, what a limited pass may write, and that a pass after a complete one changes nothing.
 */
module NotePasses {
  import opened Wrappers
  import opened TextLines
  import opened NoteText
  import opened NoteMerge
  import opened NoteRender
  import opened NoteSync
  import opened NoteCrash
  import opened NoteConverge
  import opened NoteReconcile
  import opened NoteSweep

  // ---- Checkpoints ---------------------------------------------------------------------------------

  /** The writes since the last save. */
  function Unsaved(events: seq<Event>): nat
    decreases |events|
  {
    if events == [] then 0
    else
      var init := events[..|events| - 1];
      match events[|events| - 1]
      case Save(_) => 0
      case Write(_, _) => Unsaved(init) + 1
      case Upload(_, _) => Unsaved(init)
  }

  /** The last event is a write, and it makes `every` of them. */
  predicate Due(every: nat, events: seq<Event>) {
    events != [] && events[|events| - 1].Write? && Unsaved(events) >= every
  }

  /** The state is saved when that is due, and not before. */
  ghost predicate Checkpointed(every: nat, events: seq<Event>) {
    forall i | 0 <= i < |events| :: events[i].Save? <==> Due(every, events[..i])
  }

  ghost predicate RunBetween(every: nat, r: Run) {
    Checkpointed(every, r.events) && r.unsaved == Unsaved(r.events) && !Due(every, r.events)
  }

  lemma {:induction false} OneMoreEventAt(every: nat, events: seq<Event>, event: Event)
    requires Checkpointed(every, events) && (event.Save? <==> Due(every, events))
    ensures Checkpointed(every, events + [event])
    ensures Unsaved(events + [event]) ==
            match event case Save(_) => 0 case Write(_, _) => Unsaved(events) + 1 case Upload(_, _) => Unsaved(events)
  {
    var all := events + [event];
    assert all[..|all| - 1] == events;
    forall i | 0 <= i < |all| ensures all[i].Save? <==> Due(every, all[..i]) {
      assert all[..i] == events[..i];
      assert events[..|events|] == events;
    }
  }

  lemma {:induction false} AttachBetween(lib: Library, every: nat, atts: seq<Attachment>, links: Links, r: Run)
    requires RunBetween(every, r)
    ensures RunBetween(every, Attach(lib, atts, links, r).run)
    decreases |atts|
  {
    if atts != [] && r.budget > 0 {
      var a, r1 := atts[0], r.(budget := r.budget - 1);
      var next := Uploaded(lib, a, r1);
      if next.events != r.events {
        OneMoreEventAt(every, r.events, next.events[|r.events|]);
        assert next.events == r.events + [next.events[|r.events|]];
      }
      AttachBetween(lib, every, atts[1..], WithLink(links, a, Linked(lib, r.state.media, a)), next);
    }
  }

  lemma {:induction false} RecordedBetween(every: nat, r: Run, uuid: string, entry: Entry, text: string)
    requires RunBetween(every, r)
    ensures RunBetween(every, Recorded(r, uuid, entry, text, every))
  {
    var next, written := Recorded(r, uuid, entry, text, every), r.events + [Write(entry.path, text)];
    OneMoreEventAt(every, r.events, Write(entry.path, text));
    if r.unsaved + 1 >= every { OneMoreEventAt(every, written, Save(next.state)); }
  }

  lemma SameBetween(every: nat, r: Run, next: Run)
    requires RunBetween(every, r) && next.events == r.events && next.unsaved == r.unsaved
    ensures RunBetween(every, next)
  {
  }

  lemma {:induction false} NotesBetween(lib: Library, every: nat, now: Moment, notes: seq<AppleNote>, r: Run)
    requires RunBetween(every, r)
    ensures RunBetween(every, NotesFrom(lib, every, now, notes, r))
    decreases |notes|
  {
    hide RunBetween, Recorded, Attach;
    if notes != [] && !r.stopped {
      var n := notes[0];
      var r1 := r.(budget := if r.budget == 0 then 0 else r.budget - 1);
      SameBetween(every, r, r1);
      SameBetween(every, r, r.(stopped := true));
      if r.budget > 0 && n.markdown.Some? {
        AttachBetween(lib, every, lib.attachments(n.uuid), map[], r1);
        var x := Attach(lib, lib.attachments(n.uuid), map[], r1);
        if !x.run.stopped {
          var body := lib.resolve(n.markdown.value, x.links);
          var path := PathOf(lib, n, Lookup(x.run.state.notes, n.uuid));
          match TextToWrite(lib, x.run.files, path, Text(lib.fence, FileOfNote(lib, n, body, now)))
          case Some(text) => RecordedBetween(every, x.run, n.uuid, EntryOf(n, path, lib.hash(body)), text);
          case None =>
        }
      }
      NotesBetween(lib, every, now, notes[1..], NoteStep(lib, every, now, n, r));
    }
  }

  /** However many writes a kill finds unsaved, they are no more than `every`. */
  lemma {:induction false} LossIsBounded(every: nat, events: seq<Event>, k: nat)
    requires Checkpointed(every, events) && k <= |events|
    ensures Unsaved(events[..k]) <= if every == 0 then 1 else every
    ensures Unsaved(events[..k]) > 0 && Unsaved(events[..k]) >= every ==> Due(every, events[..k])
  {
    if k > 0 {
      LossIsBounded(every, events, k - 1);
      assert events[..k][..k - 1] == events[..k - 1];
      assert events[k - 1].Save? <==> Due(every, events[..k - 1]);
    }
  }

  lemma StartBetween(every: nat, d: Durable, budget: nat)
    ensures RunBetween(every, Started(d, budget))
  {
  }

  /**
   * A pass saves its state right after each write that makes `every`, so a kill while the notes are
   * synced loses no more than `every` of them; then come the sweep's marks, in a complete pass
   * only, and the last save, of the state the pass ends in.
   */
  lemma {:induction false} PassCheckpoints(lib: Library, cfg: Config, d: Durable) returns (notes: nat)
    ensures var r := Sync(lib, cfg, d);
            && notes < |r.events| && r.events[|r.events| - 1] == Save(r.state)
            && (forall i | 0 <= i < notes :: r.events[i].Save? <==> Due(cfg.every, r.events[..i]))
            && (forall k | 0 <= k <= notes :: Unsaved(r.events[..k]) <= if cfg.every == 0 then 1 else cfg.every)
            && (forall i | notes <= i < |r.events| - 1 :: r.events[i].Write?)
            && (cfg.limit.Some? || r.stopped ==> notes == |r.events| - 1)
  {
    hide NotesFrom, SweepFrom, Due, Unsaved;
    var start := Started(d, cfg.budget);
    assert RunBetween(cfg.every, start) by { StartBetween(cfg.every, d, cfg.budget); }
    NotesBetween(lib, cfg.every, cfg.now, Limited(lib.notes, cfg.limit), start);
    var r := NotesFrom(lib, cfg.every, cfg.now, Limited(lib.notes, cfg.limit), start);
    SweepTouchesOnlyAbsent(lib, cfg.now, cfg.order, r);
    SweepStopsNothing(lib, cfg.now, cfg.order, r);
    notes := |r.events|;
    var events := Sync(lib, cfg, d).events;
    assert r.events <= events;
    forall i | 0 <= i < notes ensures events[i].Save? <==> Due(cfg.every, events[..i]) {
      assert events[i] == r.events[i] && events[..i] == r.events[..i];
    }
    forall k | 0 <= k <= notes ensures Unsaved(events[..k]) <= if cfg.every == 0 then 1 else cfg.every {
      assert events[..k] == r.events[..k];
      LossIsBounded(cfg.every, r.events, k);
    }
  }

  // ---- What is written -------------------------------------------------------------------------------

  ghost predicate Wrote(events: seq<Event>, file: string) {
    exists i :: 0 <= i < |events| && events[i].Write? && events[i].file == file
  }

  /** The state has the planned entry of every note written so far, and every other note's as it was. */
  ghost predicate Kept(lib: Library, d: Durable, events: seq<Event>, state: State) {
    forall n | n in lib.notes ::
      if Wrote(events, Home(lib, d, n)) then HasPlanned(lib, d, n, state) else HasOld(d, n, state)
  }

  ghost predicate HasPlanned(lib: Library, d: Durable, n: AppleNote, state: State) {
    n.markdown.Some? && Lookup(state.notes, n.uuid) == Some(PlannedEntry(lib, d, n))
  }

  predicate HasOld(d: Durable, n: AppleNote, state: State) {
    Lookup(state.notes, n.uuid) == Lookup(d.saved.notes, n.uuid)
  }

  /** A write is the first to its file, and that of a writable note of `notes`. */
  ghost predicate IsDueWrite(lib: Library, d: Durable, notes: seq<AppleNote>, events: seq<Event>, file: string) {
    !Wrote(events, file) && exists n :: n in notes && n.markdown.Some? && Writable(lib, d, n) && file == Home(lib, d, n)
  }

  ghost predicate FitsIn(lib: Library, d: Durable, notes: seq<AppleNote>, events: seq<Event>, event: Event) {
    match event
    case Write(file, _) => IsDueWrite(lib, d, notes, events, file)
    case Save(state) => Kept(lib, d, events, state)
    case Upload(_, _) => true
  }

  ghost predicate Log(lib: Library, d: Durable, notes: seq<AppleNote>, events: seq<Event>) {
    forall i | 0 <= i < |events| :: FitsIn(lib, d, notes, events[..i], events[i])
  }

  ghost predicate RunLog(lib: Library, d: Durable, notes: seq<AppleNote>, r: Run) {
    Log(lib, d, notes, r.events) && Kept(lib, d, r.events, r.state)
  }

  lemma {:induction false} OneMoreLog(lib: Library, d: Durable, notes: seq<AppleNote>, events: seq<Event>, event: Event)
    requires Log(lib, d, notes, events) && FitsIn(lib, d, notes, events, event)
    ensures Log(lib, d, notes, events + [event])
  {
    hide FitsIn;
    var all := events + [event];
    forall i | 0 <= i < |all| ensures FitsIn(lib, d, notes, all[..i], all[i]) {
      assert all[..i] == events[..i];
      assert events[..|events|] == events;
    }
  }

  lemma {:induction false} WroteMore(events: seq<Event>, event: Event, file: string)
    ensures Wrote(events + [event], file) <==> Wrote(events, file) || (event.Write? && event.file == file)
  {
    var all := events + [event];
    if Wrote(events, file) {
      var i :| 0 <= i < |events| && events[i].Write? && events[i].file == file;
      assert all[i] == events[i];
    }
    if event.Write? && event.file == file { assert all[|events|].Write? && all[|events|].file == file; }
  }

  lemma {:induction false} KeptMore(lib: Library, d: Durable, events: seq<Event>, event: Event, state: State,
                                    next: State)
    requires Kept(lib, d, events, state) && !event.Write? && next.notes == state.notes
    ensures Kept(lib, d, events + [event], next)
  {
    forall n | n in lib.notes ensures Wrote(events + [event], Home(lib, d, n)) <==> Wrote(events, Home(lib, d, n)) {
      WroteMore(events, event, Home(lib, d, n));
    }
  }

  lemma {:induction false} AttachLog(lib: Library, d: Durable, notes: seq<AppleNote>, atts: seq<Attachment>,
                                     links: Links, r: Run)
    requires RunLog(lib, d, notes, r)
    ensures RunLog(lib, d, notes, Attach(lib, atts, links, r).run)
    decreases |atts|
  {
    hide Log, Kept;
    if atts != [] && r.budget > 0 {
      var a, r1 := atts[0], r.(budget := r.budget - 1);
      var next := Uploaded(lib, a, r1);
      if next.events != r.events {
        var event := next.events[|r.events|];
        assert next.events == r.events + [event];
        OneMoreLog(lib, d, notes, r.events, event);
        KeptMore(lib, d, r.events, event, r.state, next.state);
      }
      AttachLog(lib, d, notes, atts[1..], WithLink(links, a, Linked(lib, r.state.media, a)), next);
    }
  }

  lemma {:induction false} RecordedLog(lib: Library, d: Durable, every: nat, notes: seq<AppleNote>, n: AppleNote,
                                       r: Run, text: string)
    requires StartOk(lib, d) && n in lib.notes && n in notes && Writable(lib, d, n) && RunLog(lib, d, notes, r)
    requires Lookup(r.state.notes, n.uuid) == Lookup(d.saved.notes, n.uuid)
    ensures RunLog(lib, d, notes, Recorded(r, n.uuid, PlannedEntry(lib, d, n), text, every))
  {
    hide Accepted, Log;
    var next, home := Recorded(r, n.uuid, PlannedEntry(lib, d, n), text, every), Home(lib, d, n);
    var write := Write(home, text);
    assert !HasPlanned(lib, d, n, r.state);
    assert IsDueWrite(lib, d, notes, r.events, home);
    OneMoreLog(lib, d, notes, r.events, write);
    forall m | m in lib.notes
      ensures Wrote(r.events + [write], Home(lib, d, m)) <==> m == n || Wrote(r.events, Home(lib, d, m))
      ensures m != n ==> Lookup(next.state.notes, m.uuid) == Lookup(r.state.notes, m.uuid)
    {
      WroteMore(r.events, write, Home(lib, d, m));
      assert m != n ==> Home(lib, d, m) != home && m.uuid != n.uuid;
    }
    assert Kept(lib, d, r.events + [write], next.state);
    if r.unsaved + 1 >= every {
      OneMoreLog(lib, d, notes, r.events + [write], Save(next.state));
      KeptMore(lib, d, r.events + [write], Save(next.state), next.state, next.state);
    }
  }

  lemma {:induction false} StepLog(lib: Library, d: Durable, every: nat, now: Moment, notes: seq<AppleNote>,
                                   n: AppleNote, r: Run)
    requires StartOk(lib, d) && IsMoment(now) && n in lib.notes && n in notes && !r.stopped
    requires RunInv(lib, d, d, r) && RunLog(lib, d, notes, r)
    ensures RunLog(lib, d, notes, NoteStep(lib, every, now, n, r))
  {
    hide RunLog, Settle, Attach, Recorded, StartOk, Writable, Settles, Settled, Good;
    var r1 := r.(budget := if r.budget == 0 then 0 else r.budget - 1);
    SameLog(lib, d, notes, r, r1);
    SameLog(lib, d, notes, r, r.(stopped := true));
    if r.budget > 0 && n.markdown.Some? {
      AttachedRun(lib, d, n, r);
      AttachLog(lib, d, notes, lib.attachments(n.uuid), map[], r1);
      var x := Attach(lib, lib.attachments(n.uuid), map[], r1).run;
      if !x.stopped { SettleLog(lib, d, every, now, notes, n, x); }
    }
  }

  lemma SameLog(lib: Library, d: Durable, notes: seq<AppleNote>, r: Run, next: Run)
    requires RunLog(lib, d, notes, r) && next.events == r.events && next.state == r.state
    ensures RunLog(lib, d, notes, next)
  {
  }

  lemma {:induction false} SettleLog(lib: Library, d: Durable, every: nat, now: Moment, notes: seq<AppleNote>,
                                     n: AppleNote, r: Run)
    requires StartOk(lib, d) && IsMoment(now) && n in lib.notes && n in notes && n.markdown.Some?
    requires RunInv(lib, d, d, r) && RunLog(lib, d, notes, r)
    ensures RunLog(lib, d, notes, Settle(lib, every, now, n, BodyFor(lib, d, n), r))
  {
    hide RunLog, Recorded, Settle, Writable, Settles, Settled, Good;
    assert NoteInv(lib, d, n, r.files, r.state);
    SettleIs(lib, d, every, now, n, r);
    var text := Attempt(lib, d, n, r.files, now);
    if Writable(lib, d, n) && Lookup(r.state.notes, n.uuid) == Lookup(d.saved.notes, n.uuid) && text.Some? {
      RecordedLog(lib, d, every, notes, n, r, text.value);
    }
  }

  lemma {:induction false} NotesLog(lib: Library, d: Durable, every: nat, now: Moment, all: seq<AppleNote>,
                                    notes: seq<AppleNote>, r: Run)
    requires StartOk(lib, d) && IsMoment(now) && Within(lib, notes) && forall i | 0 <= i < |notes| :: notes[i] in all
    requires RunInv(lib, d, d, r) && RunLog(lib, d, all, r)
    ensures RunLog(lib, d, all, NotesFrom(lib, every, now, notes, r))
    decreases |notes|
  {
    hide RunLog, RunInv, StartOk, Settled;
    if notes != [] && !r.stopped {
      NoteStepSettles(lib, d, d, every, now, notes[0], r);
      StepLog(lib, d, every, now, all, notes[0], r);
      assert forall i | 0 <= i < |notes[1..]| :: notes[1..][i] == notes[i + 1];
      NotesLog(lib, d, every, now, all, notes[1..], NoteStep(lib, every, now, notes[0], r));
    }
  }

  /** A file of the sweep's is no note's. */
  lemma {:induction false} AbsentWasAbsent(lib: Library, d: Durable, state: State, path: string)
    requires StartOk(lib, d) && AbsentInv(lib, d, state) && AbsentPath(lib, state, path)
    ensures AbsentPath(lib, d.saved, path) && forall n | n in lib.notes :: Home(lib, d, n) != path
  {
    var uuid :| uuid in state.notes && !IsLive(lib, uuid) && state.notes[uuid].path == path;
    assert d.saved.notes[uuid].path == path;
  }

  ghost predicate SweepMay(lib: Library, cfg: Config, d: Durable, file: string) {
    cfg.limit.None? && !Sync(lib, cfg, d).stopped && AbsentPath(lib, d.saved, file)
  }

  lemma {:induction false} StartLog(lib: Library, d: Durable, notes: seq<AppleNote>, budget: nat)
    ensures RunLog(lib, d, notes, Started(d, budget))
  {
  }

  /** The run after the notes, and that it is a log. */
  lemma {:induction false} NotesOfPass(lib: Library, cfg: Config, d: Durable) returns (r: Run)
    requires StartOk(lib, d) && IsMoment(cfg.now)
    ensures RunInv(lib, d, d, r) && RunLog(lib, d, Limited(lib.notes, cfg.limit), r)
    ensures Sync(lib, cfg, d) == Saved(Swept(lib, cfg, r)) && Sync(lib, cfg, d).stopped == r.stopped
  {
    hide RunLog, RunInv, StartOk, Settled;
    var notes, start := Limited(lib.notes, cfg.limit), Started(d, cfg.budget);
    StartInv(lib, d);
    RunStarts(lib, d, d, cfg.budget);
    LimitedWithin(lib, cfg.limit);
    StartLog(lib, d, notes, cfg.budget);
    NotesLog(lib, d, cfg.every, cfg.now, notes, notes, start);
    NotesSettle(lib, d, d, cfg.every, cfg.now, [], notes, start);
    r := NotesFrom(lib, cfg.every, cfg.now, notes, start);
    SweepStopsNothing(lib, cfg.now, cfg.order, r);
  }

  lemma {:induction false} WroteBefore(events: seq<Event>, more: seq<Event>, file: string)
    requires events <= more
    requires forall i | |events| <= i < |more| && more[i].Write? :: more[i].file != file
    ensures Wrote(more, file) <==> Wrote(events, file)
  {
    if Wrote(more, file) {
      var i :| 0 <= i < |more| && more[i].Write? && more[i].file == file;
      assert events[i] == more[i];
    }
    if Wrote(events, file) {
      var i :| 0 <= i < |events| && events[i].Write? && events[i].file == file;
      assert events[i] == more[i];
    }
  }

  /** The sweep's events are marks in files of vanished notes, and it keeps what is said of the notes. */
  lemma {:induction false} SweptLog(lib: Library, cfg: Config, d: Durable, r: Run)
    requires StartOk(lib, d) && RunInv(lib, d, d, r) && Kept(lib, d, r.events, r.state)
    ensures var swept := Swept(lib, cfg, r);
            && r.events <= swept.events && Kept(lib, d, swept.events, swept.state)
            && (forall i | |r.events| <= i < |swept.events| ::
                  swept.events[i].Write? && AbsentPath(lib, d.saved, swept.events[i].file)
                  && cfg.limit.None? && !r.stopped)
  {
    hide StartOk, Consistent, SweepFrom;
    var swept := Swept(lib, cfg, r);
    if swept != r {
      SweepTouchesOnlyAbsent(lib, cfg.now, cfg.order, r);
      SweepKeeps(lib, d, d, cfg.now, cfg.order, r);
      RunAbsent(lib, d, r);
      forall i | |r.events| <= i < |swept.events|
        ensures AbsentPath(lib, d.saved, swept.events[i].file)
        ensures forall n | n in lib.notes :: Home(lib, d, n) != swept.events[i].file
      {
        AbsentWasAbsent(lib, d, r.state, swept.events[i].file);
      }
      forall n | n in lib.notes ensures Wrote(swept.events, Home(lib, d, n)) <==> Wrote(r.events, Home(lib, d, n)) {
        WroteBefore(r.events, swept.events, Home(lib, d, n));
      }
    }
  }

  lemma RunAbsent(lib: Library, d: Durable, r: Run)
    requires RunInv(lib, d, d, r)
    ensures AbsentInv(lib, d, r.state)
  {
  }

  /**
   * Every write of a pass is the first to its file, and its file that of a writable note among the
   * first `limit`, or in a complete pass that of a vanished note; every save has the planned entry
   * of each note written so far, and of every other note the entry there was.
   */
  lemma {:induction false} PassLog(lib: Library, cfg: Config, d: Durable, i: nat)
    requires StartOk(lib, d) && IsMoment(cfg.now) && i < |Sync(lib, cfg, d).events|
    ensures var events := Sync(lib, cfg, d).events;
            match events[i]
            case Write(file, _) => || IsDueWrite(lib, d, Limited(lib.notes, cfg.limit), events[..i], file)
                                   || SweepMay(lib, cfg, d, file)
            case Save(state) => Kept(lib, d, events[..i], state)
            case Upload(_, _) => true
  {
    hide StartOk, RunInv, IsDueWrite, Kept;
    var r := NotesOfPass(lib, cfg, d);
    SweptLog(lib, cfg, d, r);
    var swept, events := Swept(lib, cfg, r), Sync(lib, cfg, d).events;
    assert events == swept.events + [Save(swept.state)];
    if i < |r.events| {
      assert events[i] == r.events[i] && events[..i] == r.events[..i];
      assert FitsIn(lib, d, Limited(lib.notes, cfg.limit), r.events[..i], r.events[i]);
    } else if i < |swept.events| {
      assert events[i] == swept.events[i];
    } else {
      assert events[..i] == swept.events;
    }
  }

  /** A complete pass writes a note's file exactly if the note is writable at its start. */
  lemma {:induction false} WrittenIffWritable(lib: Library, cfg: Config, d: Durable, n: AppleNote)
    requires StartOk(lib, d) && Complete(cfg) && !Sync(lib, cfg, d).stopped && n in lib.notes
    ensures Wrote(Sync(lib, cfg, d).events, Home(lib, d, n)) <==> Writable(lib, d, n)
  {
    hide Accepted, Settles, Good, FileOfNote, PlannedSection;
    var events, home := Sync(lib, cfg, d).events, Home(lib, d, n);
    if Wrote(events, home) {
      var i :| 0 <= i < |events| && events[i].Write? && events[i].file == home;
      PassLog(lib, cfg, d, i);
      assert !AbsentPath(lib, d.saved, home);
    }
    if Writable(lib, d, n) {
      var cut := PassWrites(lib, d, cfg, n);
      PassLog(lib, cfg, d, |events| - 1);
      WroteBefore(events[..|events| - 1], events, home);
    }
  }

  // ---- What is written for a note ----------------------------------------------------------------------

  /** The link of the attachment `uuid`: its readable file's place, else the place recorded for its media id. */
  predicate LinkIs(lib: Library, media: map<string, Media>, a: Attachment, path: string) {
    && a.media != "" && a.filename != ""
    && match lib.disk(a.media, a.filename)
       case Readable(place, _) => path == place
       case _ => a.media in media && media[a.media].path == path != ""
  }

  ghost predicate HasLink(lib: Library, media: map<string, Media>, a: Attachment) {
    exists path :: LinkIs(lib, media, a, path)
  }

  /** The link of an attachment id: that of its last attachment that has one. */
  ghost predicate LinkOfId(lib: Library, media: map<string, Media>, atts: seq<Attachment>, links: Links, uuid: string) {
    if uuid in links then exists i :: LastLinked(lib, media, atts, uuid, i) && LinkIs(lib, media, atts[i], links[uuid])
    else forall i | 0 <= i < |atts| && atts[i].uuid == uuid :: !HasLink(lib, media, atts[i])
  }

  ghost predicate LastLinked(lib: Library, media: map<string, Media>, atts: seq<Attachment>, uuid: string, i: int) {
    && 0 <= i < |atts| && atts[i].uuid == uuid
    && forall j | i < j < |atts| && atts[j].uuid == uuid :: !HasLink(lib, media, atts[j])
  }

  lemma {:induction false} LinkedIs(lib: Library, media: map<string, Media>, a: Attachment)
    ensures match Linked(lib, media, a)
            case Some(path) => LinkIs(lib, media, a, path)
            case None => !HasLink(lib, media, a)
  {
  }

  lemma {:induction false} LinkAllSnoc(lib: Library, media: map<string, Media>, atts: seq<Attachment>, a: Attachment,
                                       links: Links)
    ensures LinkAll(lib, media, atts + [a], links)
            == WithLink(LinkAll(lib, media, atts, links), a, Linked(lib, media, a))
    decreases |atts|
  {
    if atts == [] {
      assert [] + [a] == [a] && [a][1..] == [];
    } else {
      assert (atts + [a])[1..] == atts[1..] + [a];
      LinkAllSnoc(lib, media, atts[1..], a, WithLink(links, atts[0], Linked(lib, media, atts[0])));
    }
  }

  lemma {:induction false} OneMoreLink(lib: Library, media: map<string, Media>, init: seq<Attachment>, a: Attachment,
                                       links: Links, uuid: string)
    requires LinkOfId(lib, media, init, links, uuid)
    ensures LinkOfId(lib, media, init + [a], WithLink(links, a, Linked(lib, media, a)), uuid)
  {
    hide LinkIs, HasLink, Linked;
    LinkedIs(lib, media, a);
    var atts, next := init + [a], WithLink(links, a, Linked(lib, media, a));
    if uuid == a.uuid && Linked(lib, media, a).Some? {
      assert LastLinked(lib, media, atts, uuid, |init|) && atts[|init|] == a;
    } else if uuid in links {
      var i :| LastLinked(lib, media, init, uuid, i) && LinkIs(lib, media, init[i], links[uuid]);
      assert LastLinked(lib, media, atts, uuid, i) && atts[i] == init[i];
    } else {
      forall i | 0 <= i < |atts| && atts[i].uuid == uuid ensures !HasLink(lib, media, atts[i]) {
        assert i < |init| ==> atts[i] == init[i];
      }
    }
  }

  lemma NoLinks(lib: Library, media: map<string, Media>, uuid: string)
    ensures LinkOfId(lib, media, [], LinkAll(lib, media, [], map[]), uuid)
  {
  }

  /** The links a note is written with. */
  lemma {:induction false} LinksMean(lib: Library, media: map<string, Media>, atts: seq<Attachment>, uuid: string)
    ensures LinkOfId(lib, media, atts, LinkAll(lib, media, atts, map[]), uuid)
    decreases |atts|
  {
    if atts == [] {
      NoLinks(lib, media, uuid);
    } else {
      hide LinkOfId, LinkAll, WithLink, Linked;
      var init, a := atts[..|atts| - 1], atts[|atts| - 1];
      LinksMean(lib, media, init, uuid);
      LinkAllSnoc(lib, media, init, a, map[]);
      OneMoreLink(lib, media, init, a, LinkAll(lib, media, init, map[]), uuid);
      assert atts == init + [a];
    }
  }

  function Fileless(atts: seq<Attachment>): set<int> {
    set i | 0 <= i < |atts| && (atts[i].media == "" || atts[i].filename == "")
  }

  lemma {:induction false} MissingSnoc(atts: seq<Attachment>, a: Attachment)
    ensures MissingOf(atts + [a]) == MissingOf(atts) + if a.media == "" || a.filename == "" then 1 else 0
  {
    if atts == [] {
      assert [] + [a] == [a] && [a][1..] == [];
    } else {
      assert (atts + [a])[1..] == atts[1..] + [a];
      MissingSnoc(atts[1..], a);
    }
  }

  lemma NothingMissing()
    ensures MissingOf([]) == 0 && Fileless([]) == {}
  {
  }

  lemma {:induction false} FilelessSnoc(atts: seq<Attachment>, a: Attachment)
    ensures |Fileless(atts + [a])| == |Fileless(atts)| + if a.media == "" || a.filename == "" then 1 else 0
  {
    var more := if a.media == "" || a.filename == "" then {|atts|} else {};
    assert Fileless(atts + [a]) == Fileless(atts) + more;
    assert |atts| !in Fileless(atts);
  }

  /** The count that the notice of missing attachments gives: those without a file. */
  lemma {:induction false} MissingIs(atts: seq<Attachment>)
    ensures MissingOf(atts) == |Fileless(atts)|
    decreases |atts|
  {
    hide MissingOf;
    if atts == [] {
      NothingMissing();
    } else {
      hide Fileless;
      var init, a := atts[..|atts| - 1], atts[|atts| - 1];
      MissingIs(init);
      MissingSnoc(init, a);
      FilelessSnoc(init, a);
      assert atts == init + [a];
    }
  }

  /**
   * What a complete pass does for a note that decodes, told field by field: it writes the note's file
   * unless the entry is that of this body, date and flag, or the file refuses the merge; the file is
   * then the rendered text, merged into the one there was, and the entry says so.
   */
  lemma {:induction false} WriteMeans(lib: Library, cfg: Config, d: Durable, n: AppleNote)
    requires StartOk(lib, d) && Complete(cfg) && !Sync(lib, cfg, d).stopped && n in lib.notes && n.markdown.Some?
    ensures var r, was := Sync(lib, cfg, d), Lookup(d.saved.notes, n.uuid);
            var file := if was.Some? && was.value.path != "" then was.value.path else lib.filename(n.uuid, n.title);
            var body, stamp := BodyFor(lib, d, n), if n.modified.Some? then n.modified.value else "";
            var same := was.Some? && was.value.hash == lib.hash(body) && was.value.modified == stamp
                        && was.value.deleted == n.deleted;
            var text := Text(lib.fence, FileOfNote(lib, n, body, cfg.now));
            var merged := if file in d.files then Merged(lib.fence, d.files[file], text) else Ok(text);
            && (Wrote(r.events, file) <==> !same && merged.Ok?)
            && FileAt(r.files, file) == (if !same && merged.Ok? then Some(merged.value) else FileAt(d.files, file))
            && Lookup(r.state.notes, n.uuid)
               == (if !same && merged.Ok? then Some(Entry(file, lib.hash(body), stamp, n.title, n.deleted)) else was)
  {
    hide Settles, Good, Merged, FileOfNote, Text;
    WrittenIffWritable(lib, cfg, d, n);
    AcceptedAnyTime(lib, d, n, d.files, cfg.now);
    assert Home(lib, d, n) in d.files || Home(lib, d, n) !in d.files;
    if Writable(lib, d, n) {
      var cut := PassWrites(lib, d, cfg, n);
    } else {
      StartInv(lib, d);
      SyncKeeps(lib, d, d, cfg);
      var i :| 0 <= i < |lib.notes| && lib.notes[i] == n;
      assert Settled(lib, d, lib.notes[i], Sync(lib, cfg, d).files, Sync(lib, cfg, d).state);
    }
  }

  // ---- The pass after a complete one -----------------------------------------------------------------

  /** The sweep has nothing to mark for this entry. */
  predicate Spent(lib: Library, files: Files, state: State, uuid: string) {
    uuid in state.notes && !IsLive(lib, uuid) && !state.notes[uuid].deleted && state.notes[uuid].path in files ==>
      !Markable(files[state.notes[uuid].path])
  }

  lemma {:induction false} SweepStepSpends(lib: Library, now: Moment, uuid: string, other: string, r: Run)
    ensures var next := SweepStep(lib, now, uuid, r);
            && Spent(lib, next.files, next.state, uuid)
            && (Spent(lib, r.files, r.state, other) ==> Spent(lib, next.files, next.state, other))
  {
    hide MarkDeleted, IsMarked;
    var next := SweepStep(lib, now, uuid, r);
    if uuid in r.state.notes && r.state.notes[uuid].path in r.files {
      var text, log := r.files[r.state.notes[uuid].path], lib.deletionLog(now.date);
      MarksIff(text, log);
      if MarkDeleted(text, log).Some? { MarkedOnce(text, log, log); }
    }
  }

  lemma {:induction false} SweepSpends(lib: Library, now: Moment, order: seq<string>, uuid: string, r: Run)
    requires uuid in order || Spent(lib, r.files, r.state, uuid)
    ensures var next := SweepFrom(lib, now, order, r); Spent(lib, next.files, next.state, uuid)
    decreases |order|
  {
    hide Spent;
    if order != [] {
      SweepStepSpends(lib, now, order[0], uuid, r);
      assert uuid in order ==> uuid == order[0] || uuid in order[1..];
      SweepSpends(lib, now, order[1..], uuid, SweepStep(lib, now, order[0], r));
    }
  }

  /** The order lists every vanished note of the state. */
  ghost predicate SweepsAll(lib: Library, cfg: Config, d: Durable) {
    forall uuid | uuid in d.saved.notes && !IsLive(lib, uuid) :: uuid in cfg.order
  }

  /** Nothing is left to upload, to write or to mark. */
  ghost predicate AtRest(lib: Library, d: Durable) {
    && StartOk(lib, d)
    && (forall n | n in lib.notes :: !Writable(lib, d, n))
    && (forall n | n in lib.notes && n.markdown.Some? :: AllRecorded(lib, lib.attachments(n.uuid), d.saved.media))
    && (forall uuid | uuid in d.saved.notes :: Spent(lib, d.files, d.saved, uuid))
  }

  lemma {:induction false} StartsOver(lib: Library, d: Durable, after: Durable)
    requires StartOk(lib, d) && DurableInv(lib, d, after)
    ensures StartOk(lib, after)
  {
    if lib.notes != [] { StartsAgain(lib, d, after, lib.notes[0]); }
  }

  lemma {:induction false} NothingToWrite(lib: Library, cfg: Config, d: Durable, n: AppleNote)
    requires StartOk(lib, d) && Complete(cfg) && !Sync(lib, cfg, d).stopped && n in lib.notes
    requires DurableInv(lib, d, Outcome(lib, cfg, d)) && AllSettled(lib, d, lib.notes, Sync(lib, cfg, d))
    requires Outcome(lib, cfg, d) == Durable(Sync(lib, cfg, d).files, Sync(lib, cfg, d).state)
    ensures !Writable(lib, Outcome(lib, cfg, d), n)
  {
    hide Good, Settles, DurableInv, Sync, Outcome;
    var after := Outcome(lib, cfg, d);
    StartsAgain(lib, d, after, n);
    if Writable(lib, d, n) {
      var cut := PassWrites(lib, d, cfg, n);
    } else {
      var i :| 0 <= i < |lib.notes| && lib.notes[i] == n;
      assert Settled(lib, d, lib.notes[i], after.files, after.saved);
    }
  }

  lemma {:induction false} NothingToMark(lib: Library, cfg: Config, d: Durable, uuid: string)
    requires StartOk(lib, d) && Complete(cfg) && !Sync(lib, cfg, d).stopped && SweepsAll(lib, cfg, d)
    requires RunInv(lib, d, d, Sync(lib, cfg, d)) && uuid in Sync(lib, cfg, d).state.notes
    ensures Spent(lib, Sync(lib, cfg, d).files, Sync(lib, cfg, d).state, uuid)
  {
    if !IsLive(lib, uuid) {
      var r := NotesOfPass(lib, cfg, d);
      RunAbsent(lib, d, Sync(lib, cfg, d));
      SweepSpends(lib, cfg.now, cfg.order, uuid, r);
    }
  }

  /** A complete pass leaves nothing to do. */
  lemma {:induction false} CompleteIsAtRest(lib: Library, cfg: Config, d: Durable)
    requires StartOk(lib, d) && Complete(cfg) && !Sync(lib, cfg, d).stopped && SweepsAll(lib, cfg, d)
    ensures AtRest(lib, Outcome(lib, cfg, d))
  {
    hide RunInv, Settled, Spent, Writable, Sync, Outcome, StartOk, AllRecorded;
    var r, after := Sync(lib, cfg, d), Outcome(lib, cfg, d);
    StartInv(lib, d);
    SyncKeeps(lib, d, d, cfg);
    OutcomeIs(lib, d, d, cfg);
    LastIsDurable(lib, d, d, r);
    assert after == Apply(d, r.events) by { IsOutcome(lib, cfg, d); }
    StartsOver(lib, d, after);
    forall n | n in lib.notes ensures !Writable(lib, after, n) { NothingToWrite(lib, cfg, d, n); }
    forall n | n in lib.notes && n.markdown.Some?
      ensures AllRecorded(lib, lib.attachments(n.uuid), after.saved.media)
    {
      StartIsLibraryOk(lib, d);
      SyncRecords(lib, cfg, d, n);
    }
    forall uuid | uuid in after.saved.notes ensures Spent(lib, after.files, after.saved, uuid) {
      NothingToMark(lib, cfg, d, uuid);
    }
  }

  lemma IsOutcome(lib: Library, cfg: Config, d: Durable)
    ensures Outcome(lib, cfg, d) == Apply(d, Sync(lib, cfg, d).events)
  {
  }

  lemma StartIsLibraryOk(lib: Library, d: Durable)
    requires StartOk(lib, d)
    ensures LibraryOk(lib)
  {
  }

  ghost predicate Idle(d: Durable, r: Run) {
    r.files == d.files && r.state == d.saved && r.events == []
  }

  lemma {:induction false} AttachIdles(lib: Library, d: Durable, atts: seq<Attachment>, links: Links, r: Run)
    requires Idle(d, r) && AllRecorded(lib, atts, d.saved.media)
    ensures var x := Attach(lib, atts, links, r);
            Idle(d, x.run) && (r.stopped || x.run.stopped || x.links == LinkAll(lib, d.saved.media, atts, links))
    decreases |atts|
  {
    if atts != [] && r.budget > 0 {
      var a, r1 := atts[0], r.(budget := r.budget - 1);
      assert OneRecorded(lib, atts[0], d.saved.media);
      assert forall i | 0 <= i < |atts[1..]| :: atts[1..][i] == atts[i + 1];
      AttachIdles(lib, d, atts[1..], WithLink(links, a, Linked(lib, r.state.media, a)), Uploaded(lib, a, r1));
    }
  }

  lemma {:induction false} SettleIdles(lib: Library, d: Durable, every: nat, now: Moment, n: AppleNote, r: Run)
    requires LibraryOk(lib) && IsMoment(now) && n in lib.notes && n.markdown.Some? && !Writable(lib, d, n)
    requires Idle(d, r)
    ensures Settle(lib, every, now, n, BodyFor(lib, d, n), r) == r
  {
    if NotCurrent(lib, d, n) { AcceptedAnyTime(lib, d, n, r.files, now); }
  }

  lemma {:induction false} NotesIdle(lib: Library, d: Durable, every: nat, now: Moment, notes: seq<AppleNote>, r: Run)
    requires AtRest(lib, d) && IsMoment(now) && Within(lib, notes) && Idle(d, r)
    ensures Idle(d, NotesFrom(lib, every, now, notes, r))
    decreases |notes|
  {
    hide Settle, Attach, Writable, AllRecorded, StartOk;
    if notes != [] && !r.stopped {
      var n := notes[0];
      if r.budget > 0 && n.markdown.Some? {
        var r1 := r.(budget := r.budget - 1);
        AttachIdles(lib, d, lib.attachments(n.uuid), map[], r1);
        var x := Attach(lib, lib.attachments(n.uuid), map[], r1);
        if !x.run.stopped {
          StartIsLibraryOk(lib, d);
          SettleIdles(lib, d, every, now, n, x.run);
        }
      }
      assert Within(lib, notes[1..]) by { assert forall i | 0 <= i < |notes[1..]| :: notes[1..][i] == notes[i + 1]; }
      NotesIdle(lib, d, every, now, notes[1..], NoteStep(lib, every, now, n, r));
    }
  }

  lemma {:induction false} SweepIdles(lib: Library, d: Durable, now: Moment, order: seq<string>, r: Run)
    requires (forall uuid | uuid in d.saved.notes :: Spent(lib, d.files, d.saved, uuid)) && Idle(d, r)
    ensures Idle(d, SweepFrom(lib, now, order, r))
    decreases |order|
  {
    hide MarkDeleted, Markable;
    if order != [] {
      var uuid := order[0];
      if uuid in d.saved.notes && d.saved.notes[uuid].path in d.files {
        assert Spent(lib, d.files, d.saved, uuid);
        MarksIff(d.files[d.saved.notes[uuid].path], lib.deletionLog(now.date));
      }
      SweepIdles(lib, d, now, order[1..], SweepStep(lib, now, uuid, r));
    }
  }

  /** Where nothing is left to do a pass, limited, stopped or complete, only saves the state as it is. */
  lemma {:induction false} RestIsQuiet(lib: Library, cfg: Config, d: Durable)
    requires AtRest(lib, d) && IsMoment(cfg.now)
    ensures Sync(lib, cfg, d).events == [Save(d.saved)]
  {
    hide AtRest;
    LimitedWithin(lib, cfg.limit);
    var start := Started(d, cfg.budget);
    NotesIdle(lib, d, cfg.every, cfg.now, Limited(lib.notes, cfg.limit), start);
    var r := NotesFrom(lib, cfg.every, cfg.now, Limited(lib.notes, cfg.limit), start);
    RestIsSpent(lib, d);
    SweepIdles(lib, d, cfg.now, cfg.order, r);
  }

  lemma RestIsSpent(lib: Library, d: Durable)
    requires AtRest(lib, d)
    ensures forall uuid | uuid in d.saved.notes :: Spent(lib, d.files, d.saved, uuid)
  {
  }

  /**
   * A complete pass over a store that has not changed since the last one uploads nothing, writes
   * nothing and marks nothing, whatever kills came before that one.
   */
  lemma {:induction false} SecondPassIsQuiet(lib: Library, d: Durable, kills: seq<Killed>, first: Config,
                                             second: Config)
    requires StartOk(lib, d) && Legal(kills) && Complete(first) && IsMoment(second.now)
    requires var now := AfterKills(lib, d, kills); !Sync(lib, first, now).stopped && SweepsAll(lib, first, now)
    ensures var after := Outcome(lib, first, AfterKills(lib, d, kills));
            Sync(lib, second, after).events == [Save(after.saved)]
  {
    hide AtRest;
    var now := AfterKills(lib, d, kills);
    KillsKeep(lib, d, kills);
    StartsOver(lib, d, now);
    CompleteIsAtRest(lib, first, now);
    RestIsQuiet(lib, second, Outcome(lib, first, now));
  }
}
