/**
 * The deletion sweep of `run_sync` (packages/apple-notes/fulcra_apple_notes/sync.py): which notes it
 * marks, and what a kill between the mark and the save leaves behind.
 */
module NoteSweep {
  import opened Wrappers
  import opened TextLines
  import opened NoteText
  import opened NoteRender
  import opened NoteSync
  import opened NoteCrash
  import opened NoteConverge

  // ---- The sweep touches only vanished notes, once -----------------------------------------------------

  ghost predicate AbsentPath(lib: Library, state: State, path: string) {
    exists uuid :: uuid in state.notes && !IsLive(lib, uuid) && state.notes[uuid].path == path
  }

  ghost predicate SweptOnly(lib: Library, r: Run, next: Run) {
    && r.events <= next.events
    && (forall i | |r.events| <= i < |next.events| ::
          next.events[i].Write? && AbsentPath(lib, r.state, next.events[i].file))
    && (forall uuid | IsLive(lib, uuid) :: Lookup(next.state.notes, uuid) == Lookup(r.state.notes, uuid))
    && (forall path | AbsentPath(lib, next.state, path) :: AbsentPath(lib, r.state, path))
  }

  lemma {:induction false} SweepStepTouches(lib: Library, now: Moment, uuid: string, r: Run)
    ensures SweptOnly(lib, r, SweepStep(lib, now, uuid, r))
  {
    hide MarkDeleted;
    var next := SweepStep(lib, now, uuid, r);
    if next != r {
      assert AbsentPath(lib, r.state, r.state.notes[uuid].path);
      forall path | AbsentPath(lib, next.state, path) ensures AbsentPath(lib, r.state, path) {
        var u :| u in next.state.notes && !IsLive(lib, u) && next.state.notes[u].path == path;
        assert r.state.notes[u].path == path;
      }
    }
  }

  /** Every file the sweep writes belongs to an entry whose uuid the full store read does not have. */
  lemma {:induction false} SweepTouchesOnlyAbsent(lib: Library, now: Moment, order: seq<string>, r: Run)
    ensures SweptOnly(lib, r, SweepFrom(lib, now, order, r))
    decreases |order|
  {
    if order != [] {
      var mid := SweepStep(lib, now, order[0], r);
      SweepStepTouches(lib, now, order[0], r);
      SweepTouchesOnlyAbsent(lib, now, order[1..], mid);
      var next := SweepFrom(lib, now, order[1..], mid);
      forall i | |r.events| <= i < |next.events|
        ensures next.events[i].Write? && AbsentPath(lib, r.state, next.events[i].file)
      {
        if i < |mid.events| { assert next.events[i] == mid.events[i]; }
      }
    }
  }

  lemma {:induction false} RStripKeeps(lines: seq<string>, k: nat)
    requires k < |lines| && lines[k] != ""
    ensures k < |RStripLines(lines)| <= |lines| && RStripLines(lines)[k] == lines[k]
    ensures RStripLines(lines) == lines[..|RStripLines(lines)|]
  {
    if |lines| > 1 && lines[|lines| - 1] == "" { RStripKeeps(lines[..|lines| - 1], k); }
  }

  lemma {:induction false} FlaggedIsTrue()
    ensures FLAG <= FLAGGED && Strip(FLAGGED[|FLAG|..]) == "true" && FLAGGED != "" && OneLine(FLAGGED)
  {
    assert FLAGGED[|FLAG|..] == " true";
    assert LTrim(" true") == LTrim("true") == "true" by { assert " true"[1..] == "true"; }
    assert RTrim("true") == "true";
  }

  lemma {:induction false} FlaggedIsClean(lines: seq<string>, k: nat)
    requires OneLiners(lines) && k < |lines| && IsFlag(lines, k)
    ensures OneLiners(Flagged(lines, k)) && k < |Flagged(lines, k)| && Flagged(lines, k)[k] == FLAGGED
  {
    hide IsFlag, FlagEnd;
    FlaggedIsTrue();
    var below := lines[FlagEnd(lines, k)..];
    assert forall i | 0 <= i < |below| :: below[i] == lines[FlagEnd(lines, k) + i];
  }

  lemma {:induction false} MarkedLines(text: string, log: string)
    requires MarkDeleted(text, log).Some?
    ensures var k := FirstFlag(Split(text), 0).value; var kept := RStripLines(Flagged(Split(text), k));
            && k < |kept| && kept[k] == FLAGGED
            && Split(MarkDeleted(text, log).value) == kept + Split(log + "\n")
  {
    hide Flagged, IsFlag;
    var lines, k := Split(text), FirstFlag(Split(text), 0).value;
    var kept := RStripLines(Flagged(lines, k));
    FlaggedIsTrue();
    SplitIsOneLiners(text);
    FlaggedIsClean(lines, k);
    RStripKeeps(Flagged(lines, k), k);
    SplitIsOneLiners(log + "\n");
    JoinSplit(log + "\n");
    JoinConcat(kept, Split(log + "\n"));
    assert OneLiners(kept + Split(log + "\n"));
    SplitJoin(kept + Split(log + "\n"));
    assert Join(kept) + "\n" + (log + "\n") == Join(kept) + "\n" + log + "\n";
  }

  /**
   * Setting the flag leaves every other line exactly if its value stands on its own line and the
   * next line is not blank: blank lines below are taken, and so is the line that holds the value.
   */
  lemma {:induction false} OnlyFlagMoves(lines: seq<string>, k: nat)
    requires k < |lines| && IsFlag(lines, k)
    ensures Flagged(lines, k) == lines[k := FLAGGED] <==>
              Strip(lines[k][|FLAG|..]) != "" && (k + 1 < |lines| ==> Strip(lines[k + 1]) != "")
  {
    var end, rest := FlagEnd(lines, k), AfterFlag(lines, k);
    assert |Flagged(lines, k)| == k + 1 + |lines| - end;
    assert end == k + 1 ==> Flagged(lines, k) == lines[k := FLAGGED];
    assert Blanks(rest) == 0 <==> Strip(rest[0]) != "";
  }

  /** An empty flag takes the rule below it for its value, and the frontmatter stays open. */
  lemma {:induction false} MarkTakesRule(log: string)
    ensures var lines := ["---", FLAG, "---", "x"];
            FirstFlag(lines, 0) == Some(1) && Flagged(lines, 1) == ["---", FLAGGED, "x"]
  {
    var lines := ["---", FLAG, "---", "x"];
    assert FLAG[|FLAG|..] == "" && lines[2..] == ["---", "x"];
    assert AfterFlag(lines, 1) == ["", "---", "x"];
    assert ["", "---", "x"][1..] == ["---", "x"];
    assert Strip("---") == "---" && Strip("x") == "x";
    assert FlagValue(lines, 1) == "---";
    assert lines[3..] == ["x"];
  }

  /** A marked file is never marked again. */
  lemma {:induction false} MarkedOnce(text: string, log: string, again: string)
    requires MarkDeleted(text, log).Some?
    ensures IsMarked(MarkDeleted(text, log).value) && MarkDeleted(MarkDeleted(text, log).value, again).None?
  {
    MarkedLines(text, log);
    FlaggedIsTrue();
    var k := FirstFlag(Split(text), 0).value;
    var lines := Split(MarkDeleted(text, log).value);
    assert AfterFlag(lines, k)[0] == FLAGGED[|FLAG|..];
    assert FlagValue(lines, k) == "true";
  }

  predicate IsMarked(text: string) {
    HasTrueFlag(Split(text))
  }

  /** A file with a flag line that is not set. */
  predicate Markable(text: string) {
    !IsMarked(text) && exists k | 0 <= k < |Split(text)| :: IsFlag(Split(text), k)
  }

  lemma {:induction false} FirstFlagFinds(lines: seq<string>, from: nat)
    ensures FirstFlag(lines, from).Some? <==> exists k | from <= k < |lines| :: IsFlag(lines, k)
    decreases |lines| - from
  {
    hide IsFlag;
    if from < |lines| && !IsFlag(lines, from) { FirstFlagFinds(lines, from + 1); }
  }

  lemma {:induction false} MarksIff(text: string, log: string)
    ensures MarkDeleted(text, log).Some? <==> Markable(text)
  {
    FirstFlagFinds(Split(text), 0);
  }

  // ---- A note the store no longer has -----------------------------------------------------------------

  /** The entry `e` of `uuid`, alone at its path, and the file there. */
  ghost predicate Still(files: Files, state: State, uuid: string, e: Entry, file: Option<string>) {
    && FileAt(files, e.path) == file && Lookup(state.notes, uuid) == Some(e)
    && forall other | other in state.notes && other != uuid :: state.notes[other].path != e.path
  }

  /** A store without the note, whose notes have other file names. */
  ghost predicate Blind(lib: Library, uuid: string, path: string) {
    !IsLive(lib, uuid) && forall n | n in lib.notes :: lib.filename(n.uuid, n.title) != path
  }

  /** In memory and at every point a kill could leave. */
  ghost predicate RunStill(d: Durable, uuid: string, e: Entry, file: Option<string>, r: Run) {
    && Still(r.files, r.state, uuid, e, file) && Apply(d, r.events).files == r.files
    && forall k | 0 <= k <= |r.events| ::
         Still(Apply(d, r.events[..k]).files, Apply(d, r.events[..k]).saved, uuid, e, file)
  }

  lemma {:induction false} OneMoreStill(d: Durable, uuid: string, e: Entry, file: Option<string>, r: Run, event: Event,
                                        next: Run)
    requires RunStill(d, uuid, e, file, r) && next.events == r.events + [event]
    requires Still(next.files, next.state, uuid, e, file)
    requires var last := ApplyOne(Apply(d, r.events), event);
             last.files == next.files && Still(last.files, last.saved, uuid, e, file)
    ensures RunStill(d, uuid, e, file, next)
  {
    ApplyAppend(d, r.events, event);
    forall k | 0 <= k <= |next.events|
      ensures Still(Apply(d, next.events[..k]).files, Apply(d, next.events[..k]).saved, uuid, e, file)
    {
      if k <= |r.events| { assert next.events[..k] == r.events[..k]; } else { assert next.events[..k] == next.events; }
    }
  }

  lemma {:induction false} LastStill(d: Durable, uuid: string, e: Entry, file: Option<string>, r: Run)
    requires RunStill(d, uuid, e, file, r)
    ensures Still(Apply(d, r.events).files, Apply(d, r.events).saved, uuid, e, file)
  {
    assert r.events[..|r.events|] == r.events;
  }

  lemma {:induction false} AttachStill(lib: Library, d: Durable, uuid: string, e: Entry, file: Option<string>,
                                       atts: seq<Attachment>, links: Links, r: Run)
    requires RunStill(d, uuid, e, file, r)
    ensures RunStill(d, uuid, e, file, Attach(lib, atts, links, r).run)
    decreases |atts|
  {
    hide Still;
    if atts != [] && r.budget > 0 {
      var a, r1 := atts[0], r.(budget := r.budget - 1);
      var next := Uploaded(lib, a, r1);
      if next.events != r.events {
        LastStill(d, uuid, e, file, r);
        StillOf(r.files, r.state, next.state, uuid, e, file);
        OneMoreStill(d, uuid, e, file, r1, next.events[|r.events|], next);
      }
      AttachStill(lib, d, uuid, e, file, atts[1..], WithLink(links, a, Linked(lib, r.state.media, a)), next);
    }
  }

  lemma StillOf(files: Files, state: State, next: State, uuid: string, e: Entry, file: Option<string>)
    requires Still(files, state, uuid, e, file) && next.notes == state.notes
    ensures Still(files, next, uuid, e, file)
  {
  }

  lemma {:induction false} RecordedStill(d: Durable, uuid: string, e: Entry, file: Option<string>, r: Run,
                                         other: string, entry: Entry, text: string, every: nat)
    requires RunStill(d, uuid, e, file, r) && other != uuid && entry.path != e.path
    ensures RunStill(d, uuid, e, file, Recorded(r, other, entry, text, every))
  {
    var next := Recorded(r, other, entry, text, every);
    var mid := r.(files := next.files, state := next.state, events := r.events + [Write(entry.path, text)]);
    LastStill(d, uuid, e, file, r);
    OneMoreStill(d, uuid, e, file, r, Write(entry.path, text), mid);
    if r.unsaved + 1 >= every {
      OneMoreStill(d, uuid, e, file, mid, Save(mid.state), next);
    } else {
      assert next.events == mid.events;
    }
  }

  /** The turn of another note. */
  lemma {:induction false} StepStill(lib: Library, d: Durable, uuid: string, e: Entry, file: Option<string>, every: nat,
                                     now: Moment, n: AppleNote, r: Run)
    requires RunStill(d, uuid, e, file, r) && Blind(lib, uuid, e.path) && n in lib.notes
    ensures RunStill(d, uuid, e, file, NoteStep(lib, every, now, n, r))
  {
    hide Attach, TextToWrite, EntryOf;
    if r.budget > 0 && n.markdown.Some? {
      var r1 := r.(budget := r.budget - 1);
      AttachStill(lib, d, uuid, e, file, lib.attachments(n.uuid), map[], r1);
      var x := Attach(lib, lib.attachments(n.uuid), map[], r1);
      if !x.run.stopped {
        SettleStill(lib, d, uuid, e, file, every, now, n, lib.resolve(n.markdown.value, x.links), x.run);
      }
    }
  }

  lemma {:induction false} SettleStill(lib: Library, d: Durable, uuid: string, e: Entry, file: Option<string>,
                                       every: nat, now: Moment, n: AppleNote, body: string, r: Run)
    requires RunStill(d, uuid, e, file, r) && Blind(lib, uuid, e.path) && n in lib.notes
    ensures RunStill(d, uuid, e, file, Settle(lib, every, now, n, body, r))
  {
    hide RunStill, Recorded;
    assert n.uuid != uuid;
    var path := PathOf(lib, n, Lookup(r.state.notes, n.uuid));
    PathIsApart(lib, d, uuid, e, file, n, r);
    match TextToWrite(lib, r.files, path, Text(lib.fence, FileOfNote(lib, n, body, now)))
    case Some(text) => RecordedStill(d, uuid, e, file, r, n.uuid, EntryOf(n, path, lib.hash(body)), text, every);
    case None =>
  }

  lemma PathIsApart(lib: Library, d: Durable, uuid: string, e: Entry, file: Option<string>, n: AppleNote, r: Run)
    requires RunStill(d, uuid, e, file, r) && Blind(lib, uuid, e.path) && n in lib.notes
    ensures PathOf(lib, n, Lookup(r.state.notes, n.uuid)) != e.path
  {
  }

  lemma {:induction false} NotesStill(lib: Library, d: Durable, uuid: string, e: Entry, file: Option<string>,
                                      every: nat, now: Moment, notes: seq<AppleNote>, r: Run)
    requires RunStill(d, uuid, e, file, r) && Blind(lib, uuid, e.path) && Within(lib, notes)
    ensures RunStill(d, uuid, e, file, NotesFrom(lib, every, now, notes, r))
    decreases |notes|
  {
    if notes != [] && !r.stopped {
      StepStill(lib, d, uuid, e, file, every, now, notes[0], r);
      assert Within(lib, notes[1..]) by { assert forall i | 0 <= i < |notes[1..]| :: notes[1..][i] == notes[i + 1]; }
      NotesStill(lib, d, uuid, e, file, every, now, notes[1..], NoteStep(lib, every, now, notes[0], r));
    }
  }

  // ---- Marking ----------------------------------------------------------------------------------------

  /** The sweep can mark this file for this entry. */
  predicate CanMark(e: Entry, file: Option<string>) {
    !e.deleted && file.Some? && Markable(file.value)
  }

  /** The sweep's turn for any note leaves this one alone, unless it is its own and its file can be marked. */
  lemma {:induction false} SweepStepStill(lib: Library, d: Durable, uuid: string, e: Entry, file: Option<string>,
                                          now: Moment, u: string, r: Run)
    requires RunStill(d, uuid, e, file, r) && (u == uuid ==> !CanMark(e, file))
    ensures RunStill(d, uuid, e, file, SweepStep(lib, now, u, r))
  {
    hide MarkDeleted, Markable;
    var next := SweepStep(lib, now, u, r);
    if u == uuid && file.Some? { MarksIff(file.value, lib.deletionLog(now.date)); }
    if next != r {
      LastStill(d, uuid, e, file, r);
      var entry := r.state.notes[u];
      OneMoreStill(d, uuid, e, file, r, Write(entry.path, next.files[entry.path]), next);
    }
  }

  lemma {:induction false} SweepStill(lib: Library, d: Durable, uuid: string, e: Entry, file: Option<string>,
                                      now: Moment, order: seq<string>, r: Run)
    requires RunStill(d, uuid, e, file, r) && (uuid in order ==> !CanMark(e, file))
    ensures RunStill(d, uuid, e, file, SweepFrom(lib, now, order, r))
    decreases |order|
  {
    if order != [] {
      SweepStepStill(lib, d, uuid, e, file, now, order[0], r);
      SweepStill(lib, d, uuid, e, file, now, order[1..], SweepStep(lib, now, order[0], r));
    }
  }

  /** A pass over a store without the note whose file cannot be marked keeps file and entry, wherever it is killed. */
  lemma {:induction false} SyncStill(lib: Library, d: Durable, uuid: string, e: Entry, file: Option<string>,
                                     cfg: Config)
    requires Still(d.files, d.saved, uuid, e, file) && Blind(lib, uuid, e.path) && !CanMark(e, file)
    ensures RunStill(d, uuid, e, file, Sync(lib, cfg, d))
  {
    hide Still;
    LimitedWithin(lib, cfg.limit);
    var start := Started(d, cfg.budget);
    NotesStill(lib, d, uuid, e, file, cfg.every, cfg.now, Limited(lib.notes, cfg.limit), start);
    var r := NotesFrom(lib, cfg.every, cfg.now, Limited(lib.notes, cfg.limit), start);
    SweepStill(lib, d, uuid, e, file, cfg.now, cfg.order, r);
    var swept := Swept(lib, cfg, r);
    OneMoreStill(d, uuid, e, file, swept, Save(swept.state), Saved(swept));
  }

  /** Passes over changing stores, each run to its end or killed. */
  datatype Session = Session(lib: Library, kill: Killed)

  function AfterSessions(d: Durable, sessions: seq<Session>): Durable
    decreases |sessions|
  {
    if sessions == [] then d
    else
      var last := sessions[|sessions| - 1];
      AfterKill(last.lib, AfterSessions(d, sessions[..|sessions| - 1]), last.kill)
  }

  /** The file is marked, the entry's flag is not set. */
  ghost predicate FlagLost(d: Durable, uuid: string, e: Entry, text: string) {
    Still(d.files, d.saved, uuid, e, Some(text)) && IsMarked(text) && !e.deleted
  }

  /**
   * Once a kill has left the file marked and the entry not, no pass over any later store without the
   * note ever sets the flag, run to its end or killed: it is lost for good.
   */
  lemma {:induction false} LostFlagStaysLost(d: Durable, uuid: string, e: Entry, text: string, sessions: seq<Session>)
    requires FlagLost(d, uuid, e, text) && forall i | 0 <= i < |sessions| :: Blind(sessions[i].lib, uuid, e.path)
    ensures FlagLost(AfterSessions(d, sessions), uuid, e, text)
    decreases |sessions|
  {
    if sessions != [] {
      var init, last := sessions[..|sessions| - 1], sessions[|sessions| - 1];
      LostFlagStaysLost(d, uuid, e, text, init);
      var now := AfterSessions(d, init);
      SyncStill(last.lib, now, uuid, e, Some(text), last.kill.cfg);
      var r := Sync(last.lib, last.kill.cfg, now);
      assert r.events[..|r.events|] == r.events;
    }
  }

  /** The sweep reaches the note and marks it. */
  lemma {:induction false} SweepMarks(lib: Library, d: Durable, uuid: string, e: Entry, text: string, now: Moment,
                                      order: seq<string>, r: Run)
    requires RunStill(d, uuid, e, Some(text), r) && CanMark(e, Some(text)) && !IsLive(lib, uuid) && uuid in order
    ensures var next := SweepFrom(lib, now, order, r);
            && FileAt(next.files, e.path) == MarkDeleted(text, lib.deletionLog(now.date))
            && Lookup(next.state.notes, uuid) == Some(e.(deleted := true))
            && Apply(d, next.events).files == next.files && Apply(d, next.events).saved == Apply(d, r.events).saved
            && r.events <= next.events
    decreases |order|
  {
    var u, mid := order[0], SweepStep(lib, now, order[0], r);
    SweepWrites(lib, d, now, [u], r);
    assert SweepFrom(lib, now, [u], r) == mid by { assert [u][1..] == []; }
    if u == uuid {
      MarksIff(text, lib.deletionLog(now.date));
      MarkStays(lib, d, uuid, e, now, order[1..], mid);
    } else {
      SweepStepStill(lib, d, uuid, e, Some(text), now, u, r);
      SweepMarks(lib, d, uuid, e, text, now, order[1..], mid);
    }
  }

  /** The sweep saves nothing. */
  lemma {:induction false} SweepWrites(lib: Library, d: Durable, now: Moment, order: seq<string>, r: Run)
    requires Apply(d, r.events).files == r.files
    ensures var next := SweepFrom(lib, now, order, r);
            Apply(d, next.events).files == next.files && Apply(d, next.events).saved == Apply(d, r.events).saved
              && r.events <= next.events
    decreases |order|
  {
    hide MarkDeleted;
    if order != [] {
      var mid := SweepStep(lib, now, order[0], r);
      if mid != r { ApplyAppend(d, r.events, mid.events[|r.events|]); }
      SweepWrites(lib, d, now, order[1..], mid);
    }
  }

  lemma {:induction false} MarkStays(lib: Library, d: Durable, uuid: string, e: Entry, now: Moment, order: seq<string>,
                                     r: Run)
    requires Lookup(r.state.notes, uuid) == Some(e.(deleted := true)) && Apply(d, r.events).files == r.files
    requires forall other | other in r.state.notes && other != uuid :: r.state.notes[other].path != e.path
    ensures var next := SweepFrom(lib, now, order, r);
            && FileAt(next.files, e.path) == FileAt(r.files, e.path)
               && Lookup(next.state.notes, uuid) == Some(e.(deleted := true))
            && Apply(d, next.events).files == next.files && Apply(d, next.events).saved == Apply(d, r.events).saved
               && r.events <= next.events
    decreases |order|
  {
    hide MarkDeleted;
    if order != [] {
      var mid := SweepStep(lib, now, order[0], r);
      if mid != r { ApplyAppend(d, r.events, mid.events[|r.events|]); }
      MarkStays(lib, d, uuid, e, now, order[1..], mid);
    }
  }

  /**
   * A complete pass sets the flag of a note the store no longer has exactly if its file is there
   * with a flag line and no set one; the file is then marked with it.
   */
  lemma {:induction false} FlagSetIff(lib: Library, d: Durable, uuid: string, e: Entry, file: Option<string>,
                                      cfg: Config)
    requires Still(d.files, d.saved, uuid, e, file) && Blind(lib, uuid, e.path) && !e.deleted
    requires cfg.limit.None? && !Sync(lib, cfg, d).stopped && uuid in cfg.order
    ensures var after := Outcome(lib, cfg, d);
            && uuid in after.saved.notes
            && (after.saved.notes[uuid].deleted <==> file.Some? && Markable(file.value))
            && (after.saved.notes[uuid].deleted ==> e.path in after.files && IsMarked(after.files[e.path]))
  {
    hide Still, Markable, IsMarked;
    var start := Started(d, cfg.budget);
    LimitedWithin(lib, cfg.limit);
    NotesStill(lib, d, uuid, e, file, cfg.every, cfg.now, lib.notes, start);
    var r := NotesFrom(lib, cfg.every, cfg.now, lib.notes, start);
    SweepStopsNothing(lib, cfg.now, cfg.order, r);
    var swept := SweepFrom(lib, cfg.now, cfg.order, r);
    ApplyAppend(d, swept.events, Save(swept.state));
    if CanMark(e, file) {
      SweepMarks(lib, d, uuid, e, file.value, cfg.now, cfg.order, r);
      MarksIff(file.value, lib.deletionLog(cfg.now.date));
      MarkedOnce(file.value, lib.deletionLog(cfg.now.date), "");
    } else {
      SweepStill(lib, d, uuid, e, file, cfg.now, cfg.order, r);
      EntryStill(d, uuid, e, file, swept);
    }
  }

  lemma EntryStill(d: Durable, uuid: string, e: Entry, file: Option<string>, r: Run)
    requires RunStill(d, uuid, e, file, r)
    ensures Lookup(r.state.notes, uuid) == Some(e) && Apply(d, r.events).files == r.files
  {
  }

  /** Killed before its last save, such a pass leaves the file marked and the flag unset -- for good. */
  lemma {:induction false} KillLosesFlag(lib: Library, d: Durable, uuid: string, e: Entry, text: string, cfg: Config)
    returns (cut: nat, marked: string)
    requires Still(d.files, d.saved, uuid, e, Some(text)) && Blind(lib, uuid, e.path) && CanMark(e, Some(text))
    requires cfg.limit.None? && !Sync(lib, cfg, d).stopped && uuid in cfg.order
    ensures FlagLost(AfterKill(lib, d, Killed(cfg, cut)), uuid, e, marked)
  {
    hide Markable, IsMarked;
    var start := Started(d, cfg.budget);
    LimitedWithin(lib, cfg.limit);
    NotesStill(lib, d, uuid, e, Some(text), cfg.every, cfg.now, lib.notes, start);
    var r := NotesFrom(lib, cfg.every, cfg.now, lib.notes, start);
    SweepStopsNothing(lib, cfg.now, cfg.order, r);
    var swept := SweepFrom(lib, cfg.now, cfg.order, r);
    SweepMarks(lib, d, uuid, e, text, cfg.now, cfg.order, r);
    LastStill(d, uuid, e, Some(text), r);
    MarksIff(text, lib.deletionLog(cfg.now.date));
    MarkedOnce(text, lib.deletionLog(cfg.now.date), "");
    cut, marked := |swept.events|, MarkDeleted(text, lib.deletionLog(cfg.now.date)).value;
    assert Sync(lib, cfg, d).events[..cut] == swept.events;
  }
}
