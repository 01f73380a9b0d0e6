/**
 * Crash convergence of `run_sync` (packages/apple-notes/fulcra_apple_notes/sync.py): exactly which
 * notes end, after any kills and a complete pass, as one uninterrupted pass leaves them.
 */
module NoteConverge {
  import opened Wrappers
  import opened TextLines
  import opened NoteHeader
  import opened NoteText
  import opened NoteMerge
  import opened NoteLayout
  import opened NoteRender
  import opened NoteRemerge
  import opened NoteSync
  import opened NoteCrash

  predicate Complete(cfg: Config) {
    cfg.limit.None? && IsMoment(cfg.now)
  }

  ghost predicate Legal(kills: seq<Killed>) {
    forall i | 0 <= i < |kills| :: IsMoment(kills[i].cfg.now)
  }

  /** What a pass that is not killed leaves. */
  function Outcome(lib: Library, cfg: Config, d: Durable): Durable {
    Apply(d, Sync(lib, cfg, d).events)
  }

  lemma {:induction false} OutcomeIs(lib: Library, d0: Durable, d: Durable, cfg: Config)
    requires RunInv(lib, d0, d, Sync(lib, cfg, d))
    ensures Outcome(lib, cfg, d) == Durable(Sync(lib, cfg, d).files, Sync(lib, cfg, d).state)
  {
    var swept := Swept(lib, cfg,
                       NotesFrom(lib, cfg.every, cfg.now, Limited(lib.notes, cfg.limit), Started(d, cfg.budget)));
    ApplyAppend(d, swept.events, Save(swept.state));
  }

  function SectionAt(f: Fence, files: Files, path: string): Option<string> {
    if path in files then Section(f, files[path]) else None
  }

  /** The same section in the vault, and the same entry in the state. */
  ghost predicate Alike(lib: Library, d0: Durable, n: AppleNote, a: Durable, b: Durable) {
    && SectionAt(lib.fence, a.files, Home(lib, d0, n)) == SectionAt(lib.fence, b.files, Home(lib, d0, n))
    && Lookup(a.saved.notes, n.uuid) == Lookup(b.saved.notes, n.uuid)
  }

  /** After these kills a complete pass leaves the note as `once` leaves it. */
  ghost predicate ConvergesAfter(lib: Library, d0: Durable, once: Config, n: AppleNote, kills: seq<Killed>,
                                 last: Config) {
    Legal(kills) && Complete(last) && !Sync(lib, last, AfterKills(lib, d0, kills)).stopped ==>
      Alike(lib, d0, n, Outcome(lib, last, AfterKills(lib, d0, kills)), Outcome(lib, once, d0))
  }

  ghost predicate Converges(lib: Library, d0: Durable, once: Config, n: AppleNote) {
    forall kills, last :: ConvergesAfter(lib, d0, once, n, kills, last)
  }

  /** A note that settles, or is never written, converges. */
  lemma {:induction false} CrashConvergence(lib: Library, d0: Durable, kills: seq<Killed>, last: Config, once: Config,
                                            n: AppleNote)
    requires StartOk(lib, d0) && Legal(kills) && Complete(last) && Complete(once) && n in lib.notes
    requires !Sync(lib, last, AfterKills(lib, d0, kills)).stopped && !Sync(lib, once, d0).stopped
    requires Writable(lib, d0, n) ==> Settles(lib, d0, n)
    ensures Alike(lib, d0, n, Outcome(lib, last, AfterKills(lib, d0, kills)), Outcome(lib, once, d0))
  {
    var d := AfterKills(lib, d0, kills);
    KillsKeep(lib, d0, kills);
    StartInv(lib, d0);
    SyncKeeps(lib, d0, d, last);
    SyncKeeps(lib, d0, d0, once);
    OutcomeIs(lib, d0, d, last);
    OutcomeIs(lib, d0, d0, once);
    var i :| 0 <= i < |lib.notes| && lib.notes[i] == n;
    SettledAlike(lib, d0, n, Sync(lib, last, d), Sync(lib, once, d0));
  }

  lemma SettledAlike(lib: Library, d0: Durable, n: AppleNote, a: Run, b: Run)
    requires Writable(lib, d0, n) ==> Settles(lib, d0, n)
    requires Settled(lib, d0, n, a.files, a.state) && Settled(lib, d0, n, b.files, b.state)
    ensures Alike(lib, d0, n, Durable(a.files, a.state), Durable(b.files, b.state))
  {
  }

  /** A note that does not decode is never written, by any pass, killed or not. */
  lemma {:induction false} UndecodableIsNeverWritten(lib: Library, d0: Durable, kills: seq<Killed>, n: AppleNote)
    requires StartOk(lib, d0) && Legal(kills) && n in lib.notes && n.markdown.None?
    ensures var d := AfterKills(lib, d0, kills);
            && FileAt(d.files, Home(lib, d0, n)) == FileAt(d0.files, Home(lib, d0, n))
            && Lookup(d.saved.notes, n.uuid) == Lookup(d0.saved.notes, n.uuid)
  {
    var d := AfterKills(lib, d0, kills);
    KillsKeep(lib, d0, kills);
    assert NoteInv(lib, d0, n, d.files, d.saved);
  }

  // ---- Starting over --------------------------------------------------------------------------------

  lemma {:induction false} KillsConcat(lib: Library, d: Durable, a: seq<Killed>, b: seq<Killed>)
    ensures AfterKills(lib, AfterKills(lib, d, a), b) == AfterKills(lib, d, a + b)
    decreases |b|
  {
    hide AfterKill;
    if b == [] {
      assert a + b == a;
    } else {
      KillsConcat(lib, d, a, b[..|b| - 1]);
      assert (a + b)[..|a + b| - 1] == a + b[..|b| - 1];
    }
  }

  lemma {:induction false} SameLinksLinkAll(lib: Library, before: map<string, Media>, media: map<string, Media>,
                                            atts: seq<Attachment>, links: Links)
    requires SameLinks(lib, before, media) && forall i | 0 <= i < |atts| :: AttOf(lib, atts[i])
    ensures LinkAll(lib, media, atts, links) == LinkAll(lib, before, atts, links)
    decreases |atts|
  {
    if atts != [] {
      assert AttOf(lib, atts[0]);
      assert forall i | 0 <= i < |atts[1..]| :: atts[1..][i] == atts[i + 1];
      SameLinksLinkAll(lib, before, media, atts[1..], WithLink(links, atts[0], Linked(lib, media, atts[0])));
    }
  }

  /** What killed passes leave is a start again, with the same files and bodies planned. */
  lemma {:induction false} StartsAgain(lib: Library, d0: Durable, d: Durable, n: AppleNote)
    requires StartOk(lib, d0) && DurableInv(lib, d0, d) && n in lib.notes
    ensures StartOk(lib, d) && Home(lib, d, n) == Home(lib, d0, n)
    ensures n.markdown.Some? ==> BodyFor(lib, d, n) == BodyFor(lib, d0, n)
  {
    forall m | m in lib.notes ensures Home(lib, d, m) == Home(lib, d0, m) {
      assert NoteInv(lib, d0, m, d.files, d.saved);
      HomeIsKept(lib, d0, m, d.files, d.saved);
    }
    var atts := lib.attachments(n.uuid);
    forall i | 0 <= i < |atts| ensures AttOf(lib, atts[i]) {
      assert n in lib.notes && atts[i] in lib.attachments(n.uuid);
    }
    SameLinksLinkAll(lib, d0.saved.media, d.saved.media, atts, map[]);
  }

  /** A file without its fence pair is never merged into, by any later pass. */
  lemma {:induction false} LostForever(lib: Library, d0: Durable, d: Durable, n: AppleNote, more: seq<Killed>,
                                       last: Config)
    requires StartOk(lib, d0) && DurableInv(lib, d0, d) && n in lib.notes && NotCurrent(lib, d0, n)
    requires Home(lib, d0, n) in d.files && FenceSpan(lib.fence, d.files[Home(lib, d0, n)]).None?
    requires Lookup(d.saved.notes, n.uuid) == Lookup(d0.saved.notes, n.uuid)
    requires Legal(more) && IsMoment(last.now)
    ensures Lookup(Outcome(lib, last, AfterKills(lib, d, more)).saved.notes, n.uuid) == Lookup(d0.saved.notes, n.uuid)
    ensures Lookup(d0.saved.notes, n.uuid) != Some(PlannedEntry(lib, d0, n))
  {
    StartsAgain(lib, d0, d, n);
    assert !Accepted(lib, d, n);
    var now := AfterKills(lib, d, more);
    KillsKeep(lib, d, more);
    SyncKeeps(lib, d, now, last);
    OutcomeIs(lib, d, now, last);
    assert NoteInv(lib, d, n, Sync(lib, last, now).files, Sync(lib, last, now).state);
  }

  // ---- The write of one note ------------------------------------------------------------------------

  lemma {:induction false} AttachEvents(lib: Library, d: Durable, atts: seq<Attachment>, links: Links, r: Run)
    ensures var x := Attach(lib, atts, links, r).run; r.events <= x.events && Apply(d, x.events) == Apply(d, r.events)
    decreases |atts|
  {
    if atts != [] && r.budget > 0 {
      var a, r1 := atts[0], r.(budget := r.budget - 1);
      var next := Uploaded(lib, a, r1);
      if next.events != r.events { ApplyAppend(d, r.events, next.events[|r.events|]); }
      AttachEvents(lib, d, atts[1..], WithLink(links, a, Linked(lib, r.state.media, a)), next);
    }
  }

  /** No pass from `d0` has touched the note yet, or saved a change of its entry. */
  ghost predicate NotYet(lib: Library, d0: Durable, n: AppleNote, r: Run) {
    && Untouched(lib, d0, n, r.files, r.state)
    && Lookup(Apply(d0, r.events).saved.notes, n.uuid) == Lookup(d0.saved.notes, n.uuid)
  }

  lemma {:induction false} RecordedSaves(d: Durable, r: Run, uuid: string, entry: Entry, text: string, every: nat,
                                         other: string)
    requires other != uuid && Lookup(Apply(d, r.events).saved.notes, other) == Lookup(r.state.notes, other)
    ensures Lookup(Apply(d, Recorded(r, uuid, entry, text, every).events).saved.notes, other)
            == Lookup(r.state.notes, other)
    ensures r.events <= Recorded(r, uuid, entry, text, every).events
  {
    var next := Recorded(r, uuid, entry, text, every);
    var written := r.events + [Write(entry.path, text)];
    ApplyAppend(d, r.events, Write(entry.path, text));
    if r.unsaved + 1 >= every { ApplyAppend(d, written, Save(next.state)); }
  }

  lemma SettleGrows(lib: Library, every: nat, now: Moment, n: AppleNote, body: string, r: Run)
    ensures r.events <= Settle(lib, every, now, n, body, r).events
  {
  }

  lemma {:induction false} StepEvents(lib: Library, d0: Durable, every: nat, now: Moment, m: AppleNote, r: Run)
    requires StartOk(lib, d0) && RunInv(lib, d0, d0, r) && IsMoment(now) && m in lib.notes && !r.stopped
    ensures r.events <= NoteStep(lib, every, now, m, r).events
  {
    hide Settle, Attach;
    if r.budget > 0 && m.markdown.Some? {
      var r1 := r.(budget := r.budget - 1);
      AttachEvents(lib, d0, lib.attachments(m.uuid), map[], r1);
      var x := Attach(lib, lib.attachments(m.uuid), map[], r1);
      SettleGrows(lib, every, now, m, lib.resolve(m.markdown.value, x.links), x.run);
    }
  }

  /** The attachments of a note, synced in a run that has not reached its own turn. */
  lemma {:induction false} AttachedRun(lib: Library, d0: Durable, m: AppleNote, r: Run)
    requires StartOk(lib, d0) && RunInv(lib, d0, d0, r) && m in lib.notes && m.markdown.Some? && r.budget > 0
             && !r.stopped
    ensures var x := Attach(lib, lib.attachments(m.uuid), map[], r.(budget := r.budget - 1));
            && RunInv(lib, d0, d0, x.run) && x.run.files == r.files && x.run.state.notes == r.state.notes
            && r.events <= x.run.events && Apply(d0, x.run.events) == Apply(d0, r.events)
            && (!x.run.stopped ==> lib.resolve(m.markdown.value, x.links) == BodyFor(lib, d0, m))
  {
    var atts, r1 := lib.attachments(m.uuid), r.(budget := r.budget - 1);
    assert RunInv(lib, d0, d0, r1);
    forall i | 0 <= i < |atts| ensures AttOf(lib, atts[i]) {
      assert m in lib.notes && atts[i] in lib.attachments(m.uuid);
    }
    AttachKeeps(lib, d0, d0, atts, map[], r1);
    AttachEvents(lib, d0, atts, map[], r1);
  }

  lemma {:induction false} StepKeepsNotYet(lib: Library, d0: Durable, every: nat, now: Moment, m: AppleNote,
                                           n: AppleNote, r: Run)
    requires StartOk(lib, d0) && RunInv(lib, d0, d0, r) && IsMoment(now) && m in lib.notes && n in lib.notes
             && m != n && !r.stopped
    requires NotYet(lib, d0, n, r)
    ensures NotYet(lib, d0, n, NoteStep(lib, every, now, m, r))
  {
    hide RunInv, Consistent, NoteInv, Settle, Attach, Settled;
    NoteStepSettles(lib, d0, d0, every, now, m, r);
    if r.budget > 0 && m.markdown.Some? {
      AttachedRun(lib, d0, m, r);
      var x := Attach(lib, lib.attachments(m.uuid), map[], r.(budget := r.budget - 1)).run;
      if !x.stopped { SettleKeepsSaved(lib, d0, every, now, m, n.uuid, x); }
    }
  }

  lemma {:induction false} SettleKeepsSaved(lib: Library, d0: Durable, every: nat, now: Moment, m: AppleNote,
                                            other: string, r: Run)
    requires StartOk(lib, d0) && RunInv(lib, d0, d0, r) && IsMoment(now) && m in lib.notes && m.markdown.Some?
             && m.uuid != other
    requires Lookup(Apply(d0, r.events).saved.notes, other) == Lookup(d0.saved.notes, other)
             == Lookup(r.state.notes, other)
    ensures var next := Settle(lib, every, now, m, BodyFor(lib, d0, m), r);
            Lookup(Apply(d0, next.events).saved.notes, other) == Lookup(d0.saved.notes, other)
  {
    assert NoteInv(lib, d0, m, r.files, r.state);
    SettleIs(lib, d0, every, now, m, r);
    var text := Attempt(lib, d0, m, r.files, now);
    if text.Some? { RecordedSaves(d0, r, m.uuid, PlannedEntry(lib, d0, m), text.value, every, other); }
  }

  /** A kill at `cut` leaves the text of the note's first write, and no record of it. */
  ghost predicate CutAfterWrite(lib: Library, d0: Durable, n: AppleNote, now: Moment, events: seq<Event>, cut: nat)
    requires n.markdown.Some?
  {
    && cut <= |events|
    && var d := Apply(d0, events[..cut]);
       && Attempt(lib, d0, n, d0.files, now).Some?
       && FileAt(d.files, Home(lib, d0, n)) == Attempt(lib, d0, n, d0.files, now)
       && Lookup(d.saved.notes, n.uuid) == Lookup(d0.saved.notes, n.uuid)
  }

  /** The note was written by this pass and recorded. */
  ghost predicate WrittenNow(lib: Library, d0: Durable, n: AppleNote, now: Moment, r: Run)
    requires n.markdown.Some?
  {
    && FileAt(r.files, Home(lib, d0, n)) == Attempt(lib, d0, n, d0.files, now)
    && Lookup(r.state.notes, n.uuid) == Some(PlannedEntry(lib, d0, n))
  }

  /** Right after the write, before anything is saved. */
  lemma {:induction false} RecordedCut(d: Durable, r: Run, uuid: string, entry: Entry, text: string, every: nat)
    ensures var next := Recorded(r, uuid, entry, text, every);
            && |r.events| + 1 <= |next.events| && next.files == r.files[entry.path := text]
               && Lookup(next.state.notes, uuid) == Some(entry)
            && var cut := Apply(d, next.events[..|r.events| + 1]); var before := Apply(d, r.events);
               cut.files == before.files[entry.path := text] && cut.saved == before.saved
  {
    var write := Write(entry.path, text);
    assert Recorded(r, uuid, entry, text, every).events[..|r.events| + 1] == r.events + [write];
    ApplyAppend(d, r.events, write);
  }

  lemma {:induction false} SettleWrites(lib: Library, d0: Durable, every: nat, now: Moment, n: AppleNote, x: Run)
    requires StartOk(lib, d0) && IsMoment(now) && n in lib.notes && Writable(lib, d0, n)
    requires Untouched(lib, d0, n, x.files, x.state)
    ensures var text := Attempt(lib, d0, n, d0.files, now);
            text.Some? && Settle(lib, every, now, n, BodyFor(lib, d0, n), x)
              == Recorded(x, n.uuid, PlannedEntry(lib, d0, n), text.value, every)
  {
    hide Settles, Good;
    assert NoteInv(lib, d0, n, x.files, x.state);
    AcceptedAnyTime(lib, d0, n, x.files, now);
    SettleIs(lib, d0, every, now, n, x);
    assert Attempt(lib, d0, n, d0.files, now) == Attempt(lib, d0, n, x.files, now);
  }

  lemma {:induction false} WriteIsRecorded(lib: Library, d0: Durable, every: nat, now: Moment, n: AppleNote, r: Run)
    returns (cut: nat)
    requires StartOk(lib, d0) && RunInv(lib, d0, d0, r) && IsMoment(now) && n in lib.notes && Writable(lib, d0, n)
    requires NotYet(lib, d0, n, r) && !r.stopped && !NoteStep(lib, every, now, n, r).stopped
    ensures var next := NoteStep(lib, every, now, n, r);
            CutAfterWrite(lib, d0, n, now, next.events, cut) && WrittenNow(lib, d0, n, now, next)
  {
    hide RunInv, Settles, Good, Accepted, Settle, Recorded, Attach, StartOk, Attempt;
    AttachedRun(lib, d0, n, r);
    var x := Attach(lib, lib.attachments(n.uuid), map[], r.(budget := r.budget - 1)).run;
    SettleWrites(lib, d0, every, now, n, x);
    RecordedCut(d0, x, n.uuid, PlannedEntry(lib, d0, n), Attempt(lib, d0, n, d0.files, now).value, every);
    cut := |x.events| + 1;
  }

  lemma {:induction false} WrittenStays(lib: Library, d0: Durable, every: nat, now: Moment, m: AppleNote, n: AppleNote,
                                        r: Run)
    requires StartOk(lib, d0) && RunInv(lib, d0, d0, r) && IsMoment(now) && m in lib.notes && n in lib.notes
             && !r.stopped
    requires Writable(lib, d0, n) && WrittenNow(lib, d0, n, now, r)
    ensures WrittenNow(lib, d0, n, now, NoteStep(lib, every, now, m, r))
  {
    NoteStepSettles(lib, d0, d0, every, now, m, r);
    if m != n {
      assert Home(lib, d0, m) != Home(lib, d0, n) && m.uuid != n.uuid;
    } else if r.budget > 0 {
      AttachedRun(lib, d0, n, r);
      var x := Attach(lib, lib.attachments(n.uuid), map[], r.(budget := r.budget - 1)).run;
      assert NoteInv(lib, d0, n, x.files, x.state);
      SettleIs(lib, d0, every, now, n, x);
    }
  }

  lemma {:induction false} WrittenThroughout(lib: Library, d0: Durable, every: nat, now: Moment, notes: seq<AppleNote>,
                                             n: AppleNote, r: Run)
    requires StartOk(lib, d0) && RunInv(lib, d0, d0, r) && IsMoment(now) && Within(lib, notes) && n in lib.notes
    requires Writable(lib, d0, n) && WrittenNow(lib, d0, n, now, r)
    ensures WrittenNow(lib, d0, n, now, NotesFrom(lib, every, now, notes, r))
            && r.events <= NotesFrom(lib, every, now, notes, r).events
    decreases |notes|
  {
    hide WrittenNow, RunInv;
    if notes != [] && !r.stopped {
      NoteStepSettles(lib, d0, d0, every, now, notes[0], r);
      StepEvents(lib, d0, every, now, notes[0], r);
      WrittenStays(lib, d0, every, now, notes[0], n, r);
      assert Within(lib, notes[1..]) by { assert forall i | 0 <= i < |notes[1..]| :: notes[1..][i] == notes[i + 1]; }
      WrittenThroughout(lib, d0, every, now, notes[1..], n, NoteStep(lib, every, now, notes[0], r));
    }
  }

  lemma {:induction false} CutStays(lib: Library, d0: Durable, n: AppleNote, now: Moment, events: seq<Event>,
                                    more: seq<Event>, cut: nat)
    requires n.markdown.Some? && CutAfterWrite(lib, d0, n, now, events, cut) && events <= more
    ensures CutAfterWrite(lib, d0, n, now, more, cut)
  {
    assert more[..cut] == events[..cut];
  }

  lemma WritableDecodes(lib: Library, d0: Durable, n: AppleNote)
    requires Writable(lib, d0, n)
    ensures n.markdown.Some?
  {
  }

  lemma {:induction false} NotesWrite(lib: Library, d0: Durable, every: nat, now: Moment, notes: seq<AppleNote>,
                                      n: AppleNote, r: Run) returns (cut: nat)
    requires StartOk(lib, d0) && RunInv(lib, d0, d0, r) && IsMoment(now) && Within(lib, notes) && n in notes
    requires Writable(lib, d0, n) && NotYet(lib, d0, n, r) && !r.stopped
             && !NotesFrom(lib, every, now, notes, r).stopped
    ensures var last := NotesFrom(lib, every, now, notes, r);
            CutAfterWrite(lib, d0, n, now, last.events, cut) && WrittenNow(lib, d0, n, now, last)
    decreases |notes|
  {
    hide WrittenNow, RunInv, NotYet, CutAfterWrite, Writable, StartOk;
    var m, rest, next := notes[0], notes[1..], NoteStep(lib, every, now, notes[0], r);
    assert m in lib.notes && n in lib.notes;
    NoteStepSettles(lib, d0, d0, every, now, m, r);
    assert Within(lib, rest) by { assert forall i | 0 <= i < |rest| :: rest[i] == notes[i + 1]; }
    WritableDecodes(lib, d0, n);
    if m == n {
      cut := WriteIsRecorded(lib, d0, every, now, n, r);
      WrittenThroughout(lib, d0, every, now, rest, n, next);
      CutStays(lib, d0, n, now, next.events, NotesFrom(lib, every, now, rest, next).events, cut);
    } else {
      StepKeepsNotYet(lib, d0, every, now, m, n, r);
      cut := NotesWrite(lib, d0, every, now, rest, n, next);
    }
  }

  lemma {:induction false} SweepEvents(lib: Library, now: Moment, order: seq<string>, r: Run)
    ensures r.events <= SweepFrom(lib, now, order, r).events
    decreases |order|
  {
    if order != [] { SweepEvents(lib, now, order[1..], SweepStep(lib, now, order[0], r)); }
  }

  lemma {:induction false} SweepStopsNothing(lib: Library, now: Moment, order: seq<string>, r: Run)
    ensures SweepFrom(lib, now, order, r).stopped == r.stopped
    decreases |order|
  {
    if order != [] { SweepStopsNothing(lib, now, order[1..], SweepStep(lib, now, order[0], r)); }
  }

  /** A complete pass writes and records every writable note; a kill right after the write leaves it unrecorded. */
  lemma {:induction false} PassWrites(lib: Library, d0: Durable, once: Config, n: AppleNote) returns (cut: nat)
    requires StartOk(lib, d0) && Complete(once) && !Sync(lib, once, d0).stopped && n in lib.notes
             && Writable(lib, d0, n)
    ensures CutAfterWrite(lib, d0, n, once.now, Sync(lib, once, d0).events, cut)
    ensures WrittenNow(lib, d0, n, once.now, Sync(lib, once, d0))
  {
    hide Settles, Good, Accepted;
    var start := Started(d0, once.budget);
    StartInv(lib, d0);
    RunStarts(lib, d0, d0, once.budget);
    LimitedWithin(lib, once.limit);
    var r := NotesFrom(lib, once.every, once.now, lib.notes, start);
    SweepStopsNothing(lib, once.now, once.order, r);
    assert NotYet(lib, d0, n, start);
    cut := NotesWrite(lib, d0, once.every, once.now, lib.notes, n, start);
    NotesSettle(lib, d0, d0, once.every, once.now, [], lib.notes, start);
    SweepKeeps(lib, d0, d0, once.now, once.order, r);
    SweepEvents(lib, once.now, once.order, r);
    CutStays(lib, d0, n, once.now, r.events, Sync(lib, once, d0).events, cut);
  }

  // ---- Stopping -------------------------------------------------------------------------------------

  lemma {:induction false} AttachStops(lib: Library, atts: seq<Attachment>, l1: Links, l2: Links, r1: Run, r2: Run)
    requires r1.budget == r2.budget && r1.stopped == r2.stopped
    ensures var a, b := Attach(lib, atts, l1, r1).run, Attach(lib, atts, l2, r2).run;
            a.budget == b.budget && a.stopped == b.stopped
    decreases |atts|
  {
    if atts != [] && r1.budget > 0 {
      var a := atts[0];
      AttachStops(lib, atts[1..], WithLink(l1, a, Linked(lib, r1.state.media, a)),
                  WithLink(l2, a, Linked(lib, r2.state.media, a)),
                  Uploaded(lib, a, r1.(budget := r1.budget - 1)), Uploaded(lib, a, r2.(budget := r2.budget - 1)));
    }
  }

  lemma {:induction false} NotesStop(lib: Library, every: nat, t1: Moment, t2: Moment, notes: seq<AppleNote>, r1: Run,
                                     r2: Run)
    requires r1.budget == r2.budget && r1.stopped == r2.stopped
    ensures NotesFrom(lib, every, t1, notes, r1).stopped == NotesFrom(lib, every, t2, notes, r2).stopped
    decreases |notes|
  {
    hide Settle, Attach;
    if notes != [] && !r1.stopped {
      var n := notes[0];
      if r1.budget > 0 && n.markdown.Some? {
        var x1, x2 := r1.(budget := r1.budget - 1), r2.(budget := r2.budget - 1);
        AttachStops(lib, lib.attachments(n.uuid), map[], map[], x1, x2);
        var a1, a2 := Attach(lib, lib.attachments(n.uuid), map[], x1), Attach(lib, lib.attachments(n.uuid), map[], x2);
        SettleStops(lib, every, t1, n, lib.resolve(n.markdown.value, a1.links), a1.run);
        SettleStops(lib, every, t2, n, lib.resolve(n.markdown.value, a2.links), a2.run);
      }
      NotesStop(lib, every, t1, t2, notes[1..], NoteStep(lib, every, t1, n, r1), NoteStep(lib, every, t2, n, r2));
    }
  }

  lemma SettleStops(lib: Library, every: nat, now: Moment, n: AppleNote, body: string, r: Run)
    ensures var next := Settle(lib, every, now, n, body, r); next.budget == r.budget && next.stopped == r.stopped
  {
  }

  /** Whether a pass reaches its end depends on its budget alone. */
  lemma {:induction false} PassStops(lib: Library, cfg: Config, now: Moment, d1: Durable, d2: Durable)
    ensures Sync(lib, cfg, d1).stopped == Sync(lib, cfg.(now := now), d2).stopped
  {
    var notes, s1, s2 := Limited(lib.notes, cfg.limit), Started(d1, cfg.budget), Started(d2, cfg.budget);
    NotesStop(lib, cfg.every, cfg.now, now, notes, s1, s2);
    SweepStopsNothing(lib, cfg.now, cfg.order, NotesFrom(lib, cfg.every, cfg.now, notes, s1));
    SweepStopsNothing(lib, now, cfg.order, NotesFrom(lib, cfg.every, now, notes, s2));
  }

  // ---- Where it fails -------------------------------------------------------------------------------

  /** What the first write leaves has no fence pair: later merges refuse it. */
  ghost predicate LosesFence(lib: Library, d: Durable, n: AppleNote)
    requires n.markdown.Some?
  {
    var home := Home(lib, d, n);
    if home !in d.files then !NoteOk(lib.fence, PlannedFile(lib, d, n))
    else FenceSpan(lib.fence, d.files[home]).Some? && NoteOf(lib.fence, d.files[home]).None?
         && Pick(Gen(PlannedFile(lib, d, n)), LayoutOf(lib.fence, d.files[home]).left + lib.fence.open).Some?
  }

  lemma {:induction false} LostFence(lib: Library, d0: Durable, n: AppleNote, now: Moment)
    requires LibraryOk(lib) && Writable(lib, d0, n) && LosesFence(lib, d0, n) && IsMoment(now)
    ensures Attempt(lib, d0, n, d0.files, now).Some?
            && FenceSpan(lib.fence, Attempt(lib, d0, n, d0.files, now).value).None?
  {
    var f, home, plan, g := lib.fence, Home(lib, d0, n), PlannedFile(lib, d0, n),
      FileOfNote(lib, n, BodyFor(lib, d0, n), now);
    var s := FilesAreKin(lib, n, BodyFor(lib, d0, n), EPOCH, now);
    OkAnyTime(lib, n, BodyFor(lib, d0, n), EPOCH, now);
    AcceptedAnyTime(lib, d0, n, d0.files, now);
    if home !in d0.files {
      FirstIsStable(f, plan, g, s);
    } else {
      MergedHasFence(f, d0.files[home], plan);
      UnstableMerges(f, d0.files[home], plan, g, s);
    }
  }

  /**
   * Where the first write loses the fence, a pass killed right after it decides: whatever is killed
   * and whatever runs to its end after that, the note is never recorded.
   */
  lemma {:induction false} NeverRecorded(lib: Library, d0: Durable, once: Config, n: AppleNote) returns (cut: nat)
    requires StartOk(lib, d0) && Complete(once) && !Sync(lib, once, d0).stopped && n in lib.notes
    requires Writable(lib, d0, n) && LosesFence(lib, d0, n)
    ensures forall more, last: Config | Legal(more) && IsMoment(last.now) ::
              Lookup(Outcome(lib, last, AfterKills(lib, d0, [Killed(once, cut)] + more)).saved.notes, n.uuid)
                == Lookup(d0.saved.notes, n.uuid)
    ensures Lookup(d0.saved.notes, n.uuid) != Some(PlannedEntry(lib, d0, n))
    ensures Lookup(Outcome(lib, once, d0).saved.notes, n.uuid) == Some(PlannedEntry(lib, d0, n))
  {
    cut := PassWrites(lib, d0, once, n);
    var kill := Killed(once, cut);
    var d := AfterKill(lib, d0, kill);
    StartInv(lib, d0);
    SyncKeeps(lib, d0, d0, once);
    OutcomeIs(lib, d0, d0, once);
    LostFence(lib, d0, n, once.now);
    OneKill(lib, d0, kill);
    assert DurableInv(lib, d0, d);
    assert !Current(n, Lookup(d0.saved.notes, n.uuid), lib.hash(BodyFor(lib, d0, n)));
    forall more, last: Config | Legal(more) && IsMoment(last.now)
      ensures Lookup(Outcome(lib, last, AfterKills(lib, d0, [kill] + more)).saved.notes, n.uuid)
              == Lookup(d0.saved.notes, n.uuid)
    {
      KillsConcat(lib, d0, [kill], more);
      LostForever(lib, d0, d, n, more, last);
    }
  }

  lemma {:induction false} OneKill(lib: Library, d: Durable, kill: Killed)
    ensures AfterKills(lib, d, [kill]) == AfterKill(lib, d, kill)
  {
    assert [kill][..0] == [];
    assert AfterKills(lib, d, []) == d;
  }

  /** Where the time stamp falls inside the section, passes at two times leave two sections. */
  lemma {:induction false} TwoSections(lib: Library, d0: Durable, once: Config, n: AppleNote) returns (last: Config)
    requires StartOk(lib, d0) && Complete(once) && !Sync(lib, once, d0).stopped && n in lib.notes
    requires Writable(lib, d0, n) && !Settles(lib, d0, n) && !LosesFence(lib, d0, n)
    ensures Complete(last) && !Sync(lib, last, d0).stopped
    ensures !Alike(lib, d0, n, Outcome(lib, last, d0), Outcome(lib, once, d0))
  {
    var f, home, body := lib.fence, Home(lib, d0, n), BodyFor(lib, d0, n);
    var later := OtherTime(once.now);
    last := once.(now := later);
    PassStops(lib, once, later, d0, d0);
    var c1 := PassWrites(lib, d0, once, n);
    var c2 := PassWrites(lib, d0, last, n);
    StartInv(lib, d0);
    SyncKeeps(lib, d0, d0, once);
    SyncKeeps(lib, d0, d0, last);
    OutcomeIs(lib, d0, d0, once);
    OutcomeIs(lib, d0, d0, last);
    StampsDiffer(lib, d0, n, once.now, later);
  }

  lemma {:induction false} StampsDiffer(lib: Library, d0: Durable, n: AppleNote, t1: Moment, t2: Moment)
    requires LibraryOk(lib) && IsMoment(t1) && IsMoment(t2) && FrontLine(STAMP, t1.iso) != FrontLine(STAMP, t2.iso)
    requires Writable(lib, d0, n) && !Settles(lib, d0, n) && !LosesFence(lib, d0, n)
    ensures Home(lib, d0, n) in d0.files
    ensures var a, b := Attempt(lib, d0, n, d0.files, t1), Attempt(lib, d0, n, d0.files, t2);
            a.Some? && b.Some? && Section(lib.fence, a.value) != Section(lib.fence, b.value)
  {
    var f, home, body := lib.fence, Home(lib, d0, n), BodyFor(lib, d0, n);
    var g1, g2, plan := FileOfNote(lib, n, body, t1), FileOfNote(lib, n, body, t2), PlannedFile(lib, d0, n);
    var s := FilesAreKin(lib, n, body, t1, t2);
    var s1 := FilesAreKin(lib, n, body, EPOCH, t1);
    OkAnyTime(lib, n, body, EPOCH, t1);
    OkAnyTime(lib, n, body, EPOCH, t2);
    AcceptedAnyTime(lib, d0, n, d0.files, t1);
    AcceptedAnyTime(lib, d0, n, d0.files, t2);
    MergedHasFence(f, d0.files[home], plan);
    RemergesAlike(f, d0.files[home], plan, g1, s1);
    UnstableMerges(f, d0.files[home], g1, g2, s);
  }

  lemma {:induction false} RemergesAlike(f: Fence, text: string, g1: Note, g2: Note, s: nat)
    requires Kin(g1, g2, s) && FenceSpan(f, text).Some?
    ensures Remerges(f, text, g1) <==> Remerges(f, text, g2)
    ensures Pick(Gen(g1), LayoutOf(f, text).left + f.open).Some? <==>
              Pick(Gen(g2), LayoutOf(f, text).left + f.open).Some?
  {
    KeysOfKin(g1, g2, s);
    PickSameKeys(Gen(g1), Gen(g2), LayoutOf(f, text).left + f.open);
  }

  /**
   * Crash convergence, exactly: a note ends the same after any kills and any complete pass if and
   * only if, when it is written at all, it settles -- which its file and its rendering tell before.
   */
  lemma {:induction false} ConvergesIff(lib: Library, d0: Durable, once: Config, n: AppleNote)
    requires StartOk(lib, d0) && Complete(once) && !Sync(lib, once, d0).stopped && n in lib.notes
    ensures Converges(lib, d0, once, n) <==> (Writable(lib, d0, n) ==> Settles(lib, d0, n))
  {
    hide Alike;
    if Writable(lib, d0, n) ==> Settles(lib, d0, n) {
      forall kills, last ensures ConvergesAfter(lib, d0, once, n, kills, last) {
        if Legal(kills) && Complete(last) && !Sync(lib, last, AfterKills(lib, d0, kills)).stopped {
          CrashConvergence(lib, d0, kills, last, once, n);
        }
      }
    } else if LosesFence(lib, d0, n) {
      var cut := NeverRecorded(lib, d0, once, n);
      LostIsNotAlike(lib, d0, once, n, cut);
      assert !ConvergesAfter(lib, d0, once, n, [Killed(once, cut)], once);
    } else {
      var last := TwoSections(lib, d0, once, n);
      assert AfterKills(lib, d0, []) == d0;
      assert !ConvergesAfter(lib, d0, once, n, [], last);
    }
  }

  lemma {:induction false} LostIsNotAlike(lib: Library, d0: Durable, once: Config, n: AppleNote, cut: nat)
    requires Complete(once) && !Sync(lib, once, d0).stopped && n.markdown.Some?
    requires forall more, last: Config | Legal(more) && IsMoment(last.now) ::
               Lookup(Outcome(lib, last, AfterKills(lib, d0, [Killed(once, cut)] + more)).saved.notes, n.uuid)
                 == Lookup(d0.saved.notes, n.uuid)
    requires Lookup(d0.saved.notes, n.uuid) != Some(PlannedEntry(lib, d0, n))
    requires Lookup(Outcome(lib, once, d0).saved.notes, n.uuid) == Some(PlannedEntry(lib, d0, n))
    ensures Legal([Killed(once, cut)]) && !Sync(lib, once, AfterKills(lib, d0, [Killed(once, cut)])).stopped
    ensures !Alike(lib, d0, n, Outcome(lib, once, AfterKills(lib, d0, [Killed(once, cut)])), Outcome(lib, once, d0))
  {
    var kills := [Killed(once, cut)];
    assert kills + [] == kills && Legal([]);
    PassStops(lib, once, once.now, d0, AfterKills(lib, d0, kills));
    assert once.(now := once.now) == once;
  }

  /** A note without a file converges exactly if its rendering holds no fence of its own. */
  lemma {:induction false} NewNoteConvergesIff(lib: Library, d0: Durable, once: Config, n: AppleNote)
    requires StartOk(lib, d0) && Complete(once) && !Sync(lib, once, d0).stopped && n in lib.notes
    requires NotCurrent(lib, d0, n) && Home(lib, d0, n) !in d0.files
    ensures Converges(lib, d0, once, n) <==> NoteOk(lib.fence, PlannedFile(lib, d0, n))
  {
    ConvergesIff(lib, d0, once, n);
  }
}
