/**
 * Three-way classification (packages/apple-notes/fulcra_apple_notes/reconcile.py), and its
 * agreement with what `run_sync` wrote.
 */
module NoteReconcile {
  import opened Wrappers
  import opened TextLines
  import opened NoteText
  import opened NoteMerge
  import opened NoteReader
  import opened NoteLayout
  import opened NoteRender
  import opened NoteRemerge
  import opened NoteSync
  import opened NoteCrash
  import opened NoteConverge

  datatype Status = Unchanged | AppleChanged | VaultEdited | Conflict | NewInApple | MissingInVault | DeletedInApple

  datatype Change = Change(uuid: string, status: Status, path: string, title: string)

  /** `VaultObservation`: what is kept of a vault file. */
  datatype Observation = Observation(present: bool, hasFence: bool, bodyHash: Option<string>)

  /** The note as the store has it now. */
  datatype Evidence = Evidence(hash: string, modified: string)

  function Observe(lib: Library, text: Option<string>): Observation {
    match text
    case None => Observation(false, false, None)
    case Some(file) =>
      match ParseBody(lib.reader, file)
      case None => Observation(true, false, None)
      case Some(body) => Observation(true, true, Some(lib.hash(body)))
  }

  /** `classify_observation`. */
  function Classify(uuid: string, apple: Option<Evidence>, vault: Observation, entry: Option<Entry>): Change {
    match entry
    case None => Change(uuid, NewInApple, "", "")
    case Some(e) =>
      var status :=
        if apple.None? then DeletedInApple
        else if !vault.present then MissingInVault
        else if !vault.hasFence then VaultEdited
        else
          var vaultMoved := vault.bodyHash != Some(e.hash);
          var appleMoved := apple.value.hash != e.hash || apple.value.modified != e.modified;
          if vaultMoved && appleMoved then Conflict
          else if vaultMoved then VaultEdited
          else if appleMoved then AppleChanged
          else Unchanged;
      Change(uuid, status, e.path, e.title)
  }

  /** The vault body is the one the entry records. */
  ghost predicate VaultStill(lib: Library, text: string, entry: Entry) {
    exists body :: ParseBody(lib.reader, text) == Some(body) && lib.hash(body) == entry.hash
  }

  /** The three inputs decide: each status stands for one way the two sides can have moved, or be gone. */
  lemma {:induction false} ClassifySound(lib: Library, uuid: string, apple: Option<Evidence>, file: Option<string>,
                                         entry: Option<Entry>)
    ensures var status := Classify(uuid, apple, Observe(lib, file), entry).status;
            && (status == NewInApple <==> entry.None?)
            && (status == DeletedInApple <==> entry.Some? && apple.None?)
            && (status == MissingInVault <==> entry.Some? && apple.Some? && file.None?)
            && (entry.Some? && apple.Some? && file.Some? ==>
                  var appleStill := apple.value == Evidence(entry.value.hash, entry.value.modified);
                  var vaultStill, parsed := VaultStill(lib, file.value, entry.value),
                    ParseBody(lib.reader, file.value).Some?;
                  && (status == Unchanged <==> appleStill && vaultStill)
                  && (status == AppleChanged <==> !appleStill && vaultStill)
                  && (status == Conflict <==> !appleStill && !vaultStill && parsed)
                  && (status == VaultEdited <==> !vaultStill && (appleStill || !parsed)))
  {
    if file.Some? && entry.Some? {
      match ParseBody(lib.reader, file.value)
      case None => assert !VaultStill(lib, file.value, entry.value);
      case Some(body) => assert VaultStill(lib, file.value, entry.value) <==> lib.hash(body) == entry.value.hash;
    }
  }

  // ---- Links from the state alone -------------------------------------------------------------------

  function StateLinksFrom(media: map<string, Media>, atts: seq<Attachment>, links: Links): Links
    decreases |atts|
  {
    if atts == [] then links
    else StateLinksFrom(media, atts[1..], WithLink(links, atts[0], KnownPath(media, atts[0].media)))
  }

  /** `_links_from_state`. */
  method LinksFromState(atts: seq<Attachment>, state: State) returns (links: Links)
    ensures links == StateLinksFrom(state.media, atts, map[])
  {
    links := map[];
    for i := 0 to |atts|
      invariant StateLinksFrom(state.media, atts[i..], links) == StateLinksFrom(state.media, atts, map[])
    {
      assert atts[i..][1..] == atts[i + 1..];
      var known := KnownPath(state.media, atts[i].media);
      if known.Some? { links := links[atts[i].uuid := known.value]; }
    }
    assert atts[|atts|..] == [];
  }

  function StateBody(lib: Library, state: State, n: AppleNote): string
    requires n.markdown.Some?
  {
    lib.resolve(n.markdown.value, StateLinksFrom(state.media, lib.attachments(n.uuid), map[]))
  }

  function EvidenceOf(lib: Library, state: State, n: AppleNote): Evidence
    requires n.markdown.Some?
  {
    Evidence(lib.hash(StateBody(lib, state, n)), ModifiedOf(n))
  }

  // ---- What a pass records of its uploads -----------------------------------------------------------

  /** Every readable attachment is recorded at the path it was linked to. */
  ghost predicate AllRecorded(lib: Library, atts: seq<Attachment>, media: map<string, Media>) {
    forall i | 0 <= i < |atts| :: OneRecorded(lib, atts[i], media)
  }

  predicate OneRecorded(lib: Library, a: Attachment, media: map<string, Media>) {
    HasFile(a) ==>
      match lib.disk(a.media, a.filename)
      case Readable(path, sha) => a.media in media && media[a.media] == Media(path, sha)
      case _ => true
  }

  lemma UploadRecords(lib: Library, a: Attachment, b: Attachment, r: Run)
    requires MediaConsistent(lib) && AttOf(lib, a) && AttOf(lib, b)
    ensures OneRecorded(lib, a, Uploaded(lib, a, r).state.media)
    ensures OneRecorded(lib, b, r.state.media) ==> OneRecorded(lib, b, Uploaded(lib, a, r).state.media)
  {
  }

  lemma {:induction false} AttachRecords(lib: Library, before: seq<Attachment>, atts: seq<Attachment>, links: Links,
                                         r: Run)
    requires MediaConsistent(lib) && !r.stopped && AllRecorded(lib, before, r.state.media)
    requires forall i | 0 <= i < |before| :: AttOf(lib, before[i])
    requires forall i | 0 <= i < |atts| :: AttOf(lib, atts[i])
    ensures var next := Attach(lib, atts, links, r).run;
            AllRecorded(lib, before, next.state.media)
              && (!next.stopped ==> AllRecorded(lib, before + atts, next.state.media))
    decreases |atts|
  {
    if atts == [] {
      assert before + atts == before;
    } else if r.budget > 0 {
      var a, r1 := atts[0], r.(budget := r.budget - 1);
      var next := Uploaded(lib, a, r1);
      forall i | 0 <= i < |before| ensures OneRecorded(lib, before[i], next.state.media) {
        UploadRecords(lib, a, before[i], r1);
      }
      UploadRecords(lib, a, a, r1);
      assert forall i | 0 <= i < |atts[1..]| :: atts[1..][i] == atts[i + 1];
      AttachRecords(lib, before + [a], atts[1..], WithLink(links, a, Linked(lib, r.state.media, a)), next);
      var last := Attach(lib, atts, links, r).run;
      assert forall i | 0 <= i < |before| :: (before + [a])[i] == before[i];
      assert before + [a] + atts[1..] == before + atts;
    }
  }

  lemma {:induction false} AttachmentsOf(lib: Library, n: AppleNote)
    requires n in lib.notes
    ensures forall i | 0 <= i < |lib.attachments(n.uuid)| :: AttOf(lib, lib.attachments(n.uuid)[i])
  {
    forall i | 0 <= i < |lib.attachments(n.uuid)| ensures AttOf(lib, lib.attachments(n.uuid)[i]) {
      assert n in lib.notes && lib.attachments(n.uuid)[i] in lib.attachments(n.uuid);
    }
  }

  /** A step for one note keeps what is recorded for another, and records its own attachments. */
  lemma {:induction false} NoteStepRecords(lib: Library, every: nat, now: Moment, n: AppleNote, m: AppleNote, r: Run)
    requires MediaConsistent(lib) && n in lib.notes && m in lib.notes && !r.stopped
    ensures var next := NoteStep(lib, every, now, n, r);
            && (AllRecorded(lib, lib.attachments(m.uuid), r.state.media) ==>
                  AllRecorded(lib, lib.attachments(m.uuid), next.state.media))
            && (n.markdown.Some? && !next.stopped ==> AllRecorded(lib, lib.attachments(n.uuid), next.state.media))
  {
    if r.budget > 0 && n.markdown.Some? {
      var r1 := r.(budget := r.budget - 1);
      var mine, theirs := lib.attachments(n.uuid), lib.attachments(m.uuid);
      AttachmentsOf(lib, n);
      AttachmentsOf(lib, m);
      assert [] + mine == mine;
      AttachRecords(lib, [], mine, map[], r1);
      if AllRecorded(lib, theirs, r.state.media) { AttachRecords(lib, theirs, mine, map[], r1); }
    }
  }

  lemma {:induction false} NotesKeepRecords(lib: Library, every: nat, now: Moment, notes: seq<AppleNote>,
                                            m: AppleNote, r: Run)
    requires MediaConsistent(lib) && Within(lib, notes) && m in lib.notes && m.markdown.Some?
    requires m in notes || AllRecorded(lib, lib.attachments(m.uuid), r.state.media)
    ensures var next := NotesFrom(lib, every, now, notes, r);
            !next.stopped ==> AllRecorded(lib, lib.attachments(m.uuid), next.state.media)
    decreases |notes|
  {
    if notes != [] && !r.stopped {
      var n := notes[0];
      NoteStepRecords(lib, every, now, n, m, r);
      assert Within(lib, notes[1..]) by { assert forall i | 0 <= i < |notes[1..]| :: notes[1..][i] == notes[i + 1]; }
      assert m in notes ==> m == n || m in notes[1..];
      if !NoteStep(lib, every, now, n, r).stopped {
        NotesKeepRecords(lib, every, now, notes[1..], m, NoteStep(lib, every, now, n, r));
      }
    }
  }

  lemma {:induction false} SweepKeepsMedia(lib: Library, now: Moment, order: seq<string>, r: Run)
    ensures SweepFrom(lib, now, order, r).state.media == r.state.media
    decreases |order|
  {
    if order != [] { SweepKeepsMedia(lib, now, order[1..], SweepStep(lib, now, order[0], r)); }
  }

  lemma {:induction false} SyncRecords(lib: Library, cfg: Config, d: Durable, n: AppleNote)
    requires LibraryOk(lib) && n in lib.notes && n.markdown.Some? && cfg.limit.None? && !Sync(lib, cfg, d).stopped
    ensures AllRecorded(lib, lib.attachments(n.uuid), Sync(lib, cfg, d).state.media)
  {
    LimitedWithin(lib, cfg.limit);
    var r := NotesFrom(lib, cfg.every, cfg.now, lib.notes, Started(d, cfg.budget));
    SweepKeepsMedia(lib, cfg.now, cfg.order, r);
    SweepStopsNothing(lib, cfg.now, cfg.order, r);
    NotesKeepRecords(lib, cfg.every, cfg.now, lib.notes, n, Started(d, cfg.budget));
  }

  // ---- Sync, then reconcile ---------------------------------------------------------------------------

  /** An upload has a path. */
  ghost predicate PathsNamed(lib: Library) {
    forall media, filename :: match lib.disk(media, filename) case Readable(path, _) => path != "" case _ => true
  }

  /** No attachment without a file has a media id the state knows. */
  ghost predicate FilelessUnknown(atts: seq<Attachment>, media: map<string, Media>) {
    forall i | 0 <= i < |atts| && !HasFile(atts[i]) :: KnownPath(media, atts[i].media).None?
  }

  ghost predicate SameLinkEach(lib: Library, before: map<string, Media>, media: map<string, Media>,
                               atts: seq<Attachment>) {
    forall i | 0 <= i < |atts| :: KnownPath(media, atts[i].media) == Linked(lib, before, atts[i])
  }

  /** The state alone gives each attachment the link sync gave it, exactly if no file-less attachment
   * shares a known media id. */
  lemma {:induction false} LinksAgree(lib: Library, before: map<string, Media>, media: map<string, Media>,
                                      atts: seq<Attachment>)
    requires PathsNamed(lib) && SameLinks(lib, before, media) && AllRecorded(lib, atts, media)
    requires forall i | 0 <= i < |atts| :: AttOf(lib, atts[i])
    ensures SameLinkEach(lib, before, media, atts) <==> FilelessUnknown(atts, media)
  {
    forall i | 0 <= i < |atts|
      ensures KnownPath(media, atts[i].media) == Linked(lib, before, atts[i]) <==>
                (!HasFile(atts[i]) ==> KnownPath(media, atts[i].media).None?)
    {
      var a := atts[i];
      assert AttOf(lib, a) && OneRecorded(lib, a, media);
      assert Linked(lib, media, a) == Linked(lib, before, a);
      if HasFile(a) {
        match lib.disk(a.media, a.filename)
        case Readable(path, sha) => assert path != "";
        case _ =>
      }
    }
  }

  lemma {:induction false} SameLinksSameMap(lib: Library, before: map<string, Media>, media: map<string, Media>,
                                            atts: seq<Attachment>, links: Links)
    requires SameLinkEach(lib, before, media, atts)
    ensures StateLinksFrom(media, atts, links) == LinkAll(lib, before, atts, links)
    decreases |atts|
  {
    if atts != [] {
      assert SameLinkEach(lib, before, media, atts[1..]) by {
        assert forall i | 0 <= i < |atts[1..]| :: atts[1..][i] == atts[i + 1];
      }
      SameLinksSameMap(lib, before, media, atts[1..], WithLink(links, atts[0], Linked(lib, before, atts[0])));
    }
  }

  ghost predicate Injective(hash: string -> string) {
    forall a, b | hash(a) == hash(b) :: a == b
  }

  /** What stands above the fence. */
  function FrontAt(f: Fence, text: string): string {
    match FenceSpan(f, text) case Some(s) => text[..s.start] case None => ""
  }

  /** The body of a section: its text between two line ends. */
  function Unboxed(section: string): string {
    if |section| >= 2 then section[1..|section| - 1] else ""
  }

  /**
   * What is read of a file with this front and this section is `body`. Without an opening line above
   * the fence the section is read up to its first closing line; with one, the text there.
   */
  predicate ReadsAs(r: Reader, front: string, section: string, body: string) {
    match OpeningLine(r, front, 0)
    case None => CutBody(r, Unboxed(section)) == body
    case Some(start) => match ClosingLine(r, front, start) case Some(j) => front[start..j] == body case None => false
  }

  lemma {:induction false} StableIsBoxed(f: Fence, text: string, g: Note, section: string)
    requires IsRendering(g) && Stable(f, text, g, section)
    ensures section == "\n" + Unboxed(section) + "\n"
  {
    if StableNote(f, text, g, section) {
      UnboxedIs(BodyLines(g));
    } else {
      var y, inner :| StableFrame(f, text, g, section, y, inner);
      UnboxedIs(NextBody(f, y, BodyLines(g), Gen(g)));
    }
  }

  lemma UnboxedIs(lines: seq<string>)
    ensures Boxed(lines) == "\n" + Unboxed(Boxed(lines)) + "\n"
  {
  }

  /** The reader, on a file with one ordered fence pair. */
  lemma {:induction false} ParsedIff(lib: Library, text: string, section: string, body: string)
    requires IsFence(lib.fence) && IsReader(lib.reader, lib.fence) && Section(lib.fence, text) == Some(section)
    requires section == "\n" + Unboxed(section) + "\n" && FreeOfFence(lib.fence, body)
    ensures ParseBody(lib.reader, text) == Some(body) <==> ReadsAs(lib.reader, FrontAt(lib.fence, text), section, body)
  {
    hide FreeOfFence, IsReader, OccursAt;
    var f, r, s := lib.fence, lib.reader, FenceSpan(lib.fence, text).value;
    FenceParts(f, text);
    var front, inside, after := text[..s.start], Unboxed(section), text[s.end..];
    if OpeningLine(r, front, 0).None? {
      QuietFront(r, f, front, inside, after);
    } else {
      LoudFront(r, f, front, inside, after);
      NowhereIn(f, body, |front| - OpeningLine(r, front, 0).value);
    }
  }

  lemma NowhereIn(f: Fence, body: string, i: int)
    requires FreeOfFence(f, body)
    ensures !OccursAt(body, f.open, i)
  {
  }

  /**
   * Sync, then reconcile: for every note a complete pass wrote (after any kills) and that settles,
   * the links rebuilt from the state are sync's, the file holds the planned section, and the note is
   * classified unchanged exactly if the reader finds the very body in it.
   */
  lemma {:induction false} SyncThenReconcile(lib: Library, d0: Durable, kills: seq<Killed>, cfg: Config, n: AppleNote)
    requires StartOk(lib, d0) && IsReader(lib.reader, lib.fence) && PathsNamed(lib) && Injective(lib.hash)
    requires Legal(kills) && Complete(cfg) && !Sync(lib, cfg, AfterKills(lib, d0, kills)).stopped
    requires n in lib.notes && Writable(lib, d0, n) && Settles(lib, d0, n)
    requires FilelessUnknown(lib.attachments(n.uuid), Sync(lib, cfg, AfterKills(lib, d0, kills)).state.media)
    ensures var r, home := Sync(lib, cfg, AfterKills(lib, d0, kills)), Home(lib, d0, n);
            && home in r.files && n.uuid in r.state.notes && StateBody(lib, r.state, n) == BodyFor(lib, d0, n)
            && Section(lib.fence, r.files[home]) == Some(PlannedSection(lib, d0, n))
            && (StatusOf(lib, r, home, n) == Unchanged <==>
                  ReadsAs(lib.reader, FrontAt(lib.fence, r.files[home]), PlannedSection(lib, d0, n),
                          BodyFor(lib, d0, n)))
            && (StatusOf(lib, r, home, n) == Unchanged || StatusOf(lib, r, home, n) == VaultEdited)
  {
    SyncedIsDone(lib, d0, kills, cfg, n);
    var r := Sync(lib, cfg, AfterKills(lib, d0, kills));
    DoneIsClassified(lib, d0, n, r);
  }

  function StatusOf(lib: Library, r: Run, home: string, n: AppleNote): Status
    requires n.markdown.Some? && home in r.files && n.uuid in r.state.notes
  {
    Classify(n.uuid, Some(EvidenceOf(lib, r.state, n)), Observe(lib, Some(r.files[home])),
             Some(r.state.notes[n.uuid])).status
  }

  lemma {:induction false} SyncedIsDone(lib: Library, d0: Durable, kills: seq<Killed>, cfg: Config, n: AppleNote)
    requires StartOk(lib, d0) && PathsNamed(lib) && Legal(kills) && Complete(cfg)
    requires !Sync(lib, cfg, AfterKills(lib, d0, kills)).stopped
    requires n in lib.notes && Writable(lib, d0, n) && Settles(lib, d0, n)
    requires FilelessUnknown(lib.attachments(n.uuid), Sync(lib, cfg, AfterKills(lib, d0, kills)).state.media)
    ensures var r := Sync(lib, cfg, AfterKills(lib, d0, kills));
            Done(lib, d0, n, r.files, r.state) && StateBody(lib, r.state, n) == BodyFor(lib, d0, n)
  {
    var d := AfterKills(lib, d0, kills);
    var r := Sync(lib, cfg, d);
    KillsKeep(lib, d0, kills);
    SyncKeeps(lib, d0, d, cfg);
    SyncRecords(lib, cfg, d, n);
    AttachmentsOf(lib, n);
    LinksAgree(lib, d0.saved.media, r.state.media, lib.attachments(n.uuid));
    SameLinksSameMap(lib, d0.saved.media, r.state.media, lib.attachments(n.uuid), map[]);
    var i :| 0 <= i < |lib.notes| && lib.notes[i] == n;
    assert Settled(lib, d0, n, r.files, r.state);
  }

  lemma {:induction false} DoneIsClassified(lib: Library, d0: Durable, n: AppleNote, r: Run)
    requires LibraryOk(lib) && IsReader(lib.reader, lib.fence) && Injective(lib.hash)
    requires n.markdown.Some? && Done(lib, d0, n, r.files, r.state) && Settles(lib, d0, n)
    requires StateBody(lib, r.state, n) == BodyFor(lib, d0, n)
    ensures var home, status := Home(lib, d0, n), StatusOf(lib, r, Home(lib, d0, n), n);
            && Section(lib.fence, r.files[home]) == Some(PlannedSection(lib, d0, n))
            && (status == Unchanged || status == VaultEdited)
            && (status == Unchanged <==>
                  ReadsAs(lib.reader, FrontAt(lib.fence, r.files[home]), PlannedSection(lib, d0, n),
                          BodyFor(lib, d0, n)))
  {
    hide Stable, PlainStart, Settles, Writable, ReadsAs, FreeOfFence;
    var home, body, section := Home(lib, d0, n), BodyFor(lib, d0, n), PlannedSection(lib, d0, n);
    var text := r.files[home];
    assert Lookup(r.state.notes, n.uuid) == Some(PlannedEntry(lib, d0, n));
    FileIsRendering(lib, n, body, EPOCH);
    GoodIsStable(lib, d0, n, text);
    StableIsBoxed(lib.fence, text, PlannedFile(lib, d0, n), section);
    SettledBodyIsFree(lib, d0, n);
    ParsedIff(lib, text, section, body);
    ClassifySound(lib, n.uuid, Some(EvidenceOf(lib, r.state, n)), Some(text), Some(r.state.notes[n.uuid]));
    if ParseBody(lib.reader, text).Some? {
      assert lib.hash(ParseBody(lib.reader, text).value) == lib.hash(body) ==>
               ParseBody(lib.reader, text).value == body;
    }
  }

  lemma {:induction false} SettledBodyIsFree(lib: Library, d0: Durable, n: AppleNote)
    requires LibraryOk(lib) && Writable(lib, d0, n) && Settles(lib, d0, n)
    ensures FreeOfFence(lib.fence, BodyFor(lib, d0, n))
  {
    var f, body, plan := lib.fence, BodyFor(lib, d0, n), PlannedFile(lib, d0, n);
    FileIsRendering(lib, n, body, EPOCH);
    if Home(lib, d0, n) in d0.files { MergedHasFence(f, d0.files[Home(lib, d0, n)], plan); }
    BodyIsFree(f, ShownBody(lib.wording, body));
    if Blank(body) {
      assert '<' !in body;
      NoAngle(body, f.open);
      NoAngle(body, f.close);
    }
  }

  lemma GoodIsStable(lib: Library, d0: Durable, n: AppleNote, text: string)
    requires n.markdown.Some? && Good(lib, d0, n, text)
    ensures Stable(lib.fence, text, PlannedFile(lib, d0, n), PlannedSection(lib, d0, n))
    ensures Section(lib.fence, text) == Some(PlannedSection(lib, d0, n))
    ensures PlainStart(lib, d0, n) ==>
              PlainStable(lib.fence, text, PlannedFile(lib, d0, n)) && '<' !in FrontAt(lib.fence, text)
  {
    if PlainStart(lib, d0, n) { PlainFrontAt(lib.fence, text); }
  }

  lemma {:induction false} PlainFrontAt(f: Fence, text: string)
    requires PlainFront(f, text)
    ensures '<' !in FrontAt(f, text)
  {
    var e, s := NoteOf(f, text).value, FenceSpan(f, text).value;
    HeadOfText(text);
    HeadIsPlain(e.header);
    assert text[..s.start] == Head(e.header) + e.before;
  }

  /**
   * Told before the sync, for a note without a `<` in its metadata or above the fence of its file:
   * it is classified unchanged exactly if its body is not blank and no line of it starts with a tag
   * the reader takes for the closing one.
   */
  lemma {:induction false} PlainSyncThenReconcile(lib: Library, d0: Durable, kills: seq<Killed>, cfg: Config,
                                                  n: AppleNote)
    requires StartOk(lib, d0) && IsReader(lib.reader, lib.fence) && PathsNamed(lib) && Injective(lib.hash)
    requires Legal(kills) && Complete(cfg) && !Sync(lib, cfg, AfterKills(lib, d0, kills)).stopped
    requires n in lib.notes && Writable(lib, d0, n) && Settles(lib, d0, n) && PlainStart(lib, d0, n)
    requires FilelessUnknown(lib.attachments(n.uuid), Sync(lib, cfg, AfterKills(lib, d0, kills)).state.media)
    ensures var r, home, body := Sync(lib, cfg, AfterKills(lib, d0, kills)), Home(lib, d0, n), BodyFor(lib, d0, n);
            && home in r.files && n.uuid in r.state.notes
            && (StatusOf(lib, r, home, n) == Unchanged <==> !Blank(body) && ClosingLine(lib.reader, body, 0).None?)
            && (StatusOf(lib, r, home, n) == Unchanged || StatusOf(lib, r, home, n) == VaultEdited)
  {
    WritableDecodes(lib, d0, n);
    hide Settles, Writable, Sync, StatusOf, Good, PlainStart, StartOk, ReadsAs;
    SyncedIsDone(lib, d0, kills, cfg, n);
    SyncThenReconcile(lib, d0, kills, cfg, n);
    DoneIsGood(lib, d0, n, Sync(lib, cfg, AfterKills(lib, d0, kills)));
    StartHasLibrary(lib, d0);
    PlainReads(lib, d0, n, Sync(lib, cfg, AfterKills(lib, d0, kills)).files[Home(lib, d0, n)]);
  }

  /** With the fence and the patterns of the source, a body with the closing tag in another spelling is
   * taken for an edit. */
  lemma {:induction false} OtherSpellingIsEdited(lib: Library, d0: Durable, kills: seq<Killed>, cfg: Config,
                                                 n: AppleNote)
    requires lib.fence == OWNER_FENCE && lib.reader == OWNER_READER
    requires StartOk(lib, d0) && PathsNamed(lib) && Injective(lib.hash)
    requires Legal(kills) && Complete(cfg) && !Sync(lib, cfg, AfterKills(lib, d0, kills)).stopped
    requires n in lib.notes && Writable(lib, d0, n) && Settles(lib, d0, n) && PlainStart(lib, d0, n)
    requires FilelessUnknown(lib.attachments(n.uuid), Sync(lib, cfg, AfterKills(lib, d0, kills)).state.media)
    requires BodyFor(lib, d0, n) == CUT_BODY
    ensures var r, home := Sync(lib, cfg, AfterKills(lib, d0, kills)), Home(lib, d0, n);
            home in r.files && n.uuid in r.state.notes && StatusOf(lib, r, home, n) == VaultEdited
  {
    hide Sync, StatusOf, Writable, Settles, PlainStart, StartOk;
    OwnerReader();
    CutBodyIsCut();
    PlainSyncThenReconcile(lib, d0, kills, cfg, n);
  }

  lemma StartHasLibrary(lib: Library, d: Durable)
    requires StartOk(lib, d)
    ensures LibraryOk(lib)
  {
  }

  lemma DoneIsGood(lib: Library, d0: Durable, n: AppleNote, r: Run)
    requires Done(lib, d0, n, r.files, r.state) && Settles(lib, d0, n)
    ensures Good(lib, d0, n, r.files[Home(lib, d0, n)])
  {
  }

  lemma {:induction false} PlainReads(lib: Library, d0: Durable, n: AppleNote, text: string)
    requires LibraryOk(lib) && IsReader(lib.reader, lib.fence) && n.markdown.Some?
    requires Writable(lib, d0, n) && Settles(lib, d0, n) && PlainStart(lib, d0, n) && Good(lib, d0, n, text)
    ensures ReadsAs(lib.reader, FrontAt(lib.fence, text), PlannedSection(lib, d0, n), BodyFor(lib, d0, n)) <==>
            !Blank(BodyFor(lib, d0, n)) && ClosingLine(lib.reader, BodyFor(lib, d0, n), 0).None?
  {
    hide Settles, Writable, PlainStart, Good, PlannedSection, BodyFor, FrontAt, OpeningLine, ClosingLine, ShownBody;
    var body := BodyFor(lib, d0, n);
    var shown := ShownBody(lib.wording, body);
    GoodIsStable(lib, d0, n, text);
    PlainIsQuiet(lib.reader, lib.fence, FrontAt(lib.fence, text), 0);
    SectionOfPlain(lib, d0, n, text);
    assert Unboxed("\n" + shown + "\n") == shown;
    CutsNothingIff(lib.reader, lib.fence, lib.wording, body);
  }

  lemma {:induction false} SectionOfPlain(lib: Library, d0: Durable, n: AppleNote, text: string)
    requires LibraryOk(lib) && n.markdown.Some? && Writable(lib, d0, n) && Settles(lib, d0, n) && PlainStart(lib, d0, n)
    ensures PlannedSection(lib, d0, n) == "\n" + ShownBody(lib.wording, BodyFor(lib, d0, n)) + "\n"
  {
    FileIsRendering(lib, n, BodyFor(lib, d0, n), EPOCH);
    if Home(lib, d0, n) in d0.files { StartIsStable(lib, d0, n); }
  }

  /** What is shown of a body reads back as the body. */
  lemma {:induction false} CutsNothingIff(r: Reader, f: Fence, w: Wording, body: string)
    requires IsReader(r, f) && IsWording(w)
    ensures CutBody(r, ShownBody(w, body)) == body <==> !Blank(body) && ClosingLine(r, body, 0).None?
  {
    if Blank(body) {
      PlainIsWhole(r, f, w.emptyBody);
    }
  }

  lemma {:induction false} PlainIsWhole(r: Reader, f: Fence, body: string)
    requires IsReader(r, f) && '<' !in body
    ensures ClosingLine(r, body, 0).None?
  {
    var z := ClosingLineIsFirst(r, f, body, 0);
    match ClosingLine(r, body, 0)
    case None =>
    case Some(j) => ClosingIsAngle(r, f, body, j, z);
  }

  lemma {:induction false} ClosingIsAngle(r: Reader, f: Fence, text: string, j: int, z: int)
    requires IsReader(r, f) && ClosesAt(r, text, j, z)
    ensures '<' in text
  {
    assert Angled(text[j + 1..z]);
    assert text[j + 1] == text[j + 1..z][0];
  }
}
