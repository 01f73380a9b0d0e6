/**
 * `run_sync` (packages/apple-notes/fulcra_apple_notes/sync.py): one pass from the note store to
 * the vault. What a pass makes durable is a list of events, so that a killed pass is a prefix.
 */
module NoteSync {
  import opened Wrappers
  import opened TextLines
  import opened NoteText
  import opened NoteMerge
  import opened NoteReader
  import opened NoteRender

  datatype Attachment = Attachment(uuid: string, media: string, filename: string)

  /** An attachment's local file: where it would be uploaded, and its fingerprint. */
  datatype LocalFile = Gone | Unreadable | TooLarge | Readable(path: string, sha: string)

  type Links = map<string, string>

  /** One snapshot of the note store with everything a pass reads besides the vault. */
  datatype Library = Library(
    fence: Fence,
    reader: Reader,
    wording: Wording,
    deletionLog: string -> string,
    notes: seq<AppleNote>,
    attachments: string -> seq<Attachment>,
    disk: (string, string) -> LocalFile,
    filename: (string, string) -> string,
    resolve: (string, Links) -> string,
    hash: string -> string)

  datatype Entry = Entry(path: string, hash: string, modified: string, title: string, deleted: bool)

  datatype Media = Media(path: string, sha: string)

  /** The sync state file. */
  datatype State = State(notes: map<string, Entry>, media: map<string, Media>)

  type Files = map<string, string>

  datatype Event =
    | Upload(path: string, sha: string)
    | Write(file: string, text: string)
    | Save(state: State)

  /** What survives a kill. */
  datatype Durable = Durable(files: Files, saved: State)

  function ApplyOne(d: Durable, event: Event): Durable {
    match event
    case Upload(_, _) => d
    case Write(file, text) => d.(files := d.files[file := text])
    case Save(state) => d.(saved := state)
  }

  function Apply(d: Durable, events: seq<Event>): Durable
    decreases |events|
  {
    if events == [] then d else ApplyOne(Apply(d, events[..|events| - 1]), events[|events| - 1])
  }

  /** A pass in progress; `budget` counts the deadline checks that still pass. */
  datatype Run = Run(files: Files, state: State, events: seq<Event>, unsaved: nat, budget: nat, stopped: bool)

  datatype Config = Config(limit: Option<nat>, every: nat, budget: nat, order: seq<string>, now: Moment)

  // ---- Attachments ----------------------------------------------------------------------------

  predicate HasFile(a: Attachment) {
    a.media != "" && a.filename != ""
  }

  function KnownPath(media: map<string, Media>, key: string): Option<string> {
    if key in media && media[key].path != "" then Some(media[key].path) else None
  }

  /** The link a pass gives an attachment: its new upload, or the one already known. */
  function Linked(lib: Library, media: map<string, Media>, a: Attachment): Option<string> {
    if !HasFile(a) then None
    else match lib.disk(a.media, a.filename)
         case Readable(path, _) => Some(path)
         case _ => KnownPath(media, a.media)
  }

  function WithLink(links: Links, a: Attachment, link: Option<string>): Links {
    match link case Some(path) => links[a.uuid := path] case None => links
  }

  /** One attachment: upload its file unless the state has the same file at the same place. */
  function Uploaded(lib: Library, a: Attachment, r: Run): Run {
    if !HasFile(a) then r
    else match lib.disk(a.media, a.filename)
         case Readable(path, sha) =>
           if a.media in r.state.media && r.state.media[a.media] == Media(path, sha) then r
           else r.(state := r.state.(media := r.state.media[a.media := Media(path, sha)]),
                   events := r.events + [Upload(path, sha)])
         case _ => r
  }

  datatype Attached = Attached(links: Links, run: Run)

  function Attach(lib: Library, atts: seq<Attachment>, links: Links, r: Run): Attached
    decreases |atts|
  {
    if atts == [] then Attached(links, r)
    else if r.budget == 0 then Attached(links, r.(stopped := true))
    else
      var a := atts[0];
      Attach(lib, atts[1..], WithLink(links, a, Linked(lib, r.state.media, a)),
             Uploaded(lib, a, r.(budget := r.budget - 1)))
  }

  /** `_sync_attachments`, for one note. */
  method SyncAttachments(lib: Library, atts: seq<Attachment>, run: Run) returns (result: Attached)
    ensures result == Attach(lib, atts, map[], run)
  {
    var links: Links, r := map[], run;
    for i := 0 to |atts|
      invariant Attach(lib, atts[i..], links, r) == Attach(lib, atts, map[], run)
    {
      var a := atts[i];
      assert atts[i..][1..] == atts[i + 1..];
      if r.budget == 0 { return Attached(links, r.(stopped := true)); }
      r := r.(budget := r.budget - 1);
      if HasFile(a) {
        var known := KnownPath(r.state.media, a.media);
        ghost var before := links;
        if known.Some? { links := links[a.uuid := known.value]; }
        match lib.disk(a.media, a.filename) {
          case Readable(path, sha) =>
            if !(a.media in r.state.media && r.state.media[a.media] == Media(path, sha)) {
              r := r.(state := r.state.(media := r.state.media[a.media := Media(path, sha)]),
                      events := r.events + [Upload(path, sha)]);
            }
            links := links[a.uuid := path];
            assert links == before[a.uuid := path];
          case _ =>
        }
      }
    }
    assert atts[|atts|..] == [];
    result := Attached(links, r);
  }

  // ---- Notes ----------------------------------------------------------------------------------

  function Lookup(entries: map<string, Entry>, uuid: string): Option<Entry> {
    if uuid in entries then Some(entries[uuid]) else None
  }

  function PathOf(lib: Library, n: AppleNote, known: Option<Entry>): string {
    match known
    case Some(entry) => if entry.path != "" then entry.path else lib.filename(n.uuid, n.title)
    case None => lib.filename(n.uuid, n.title)
  }

  function ModifiedOf(n: AppleNote): string {
    match n.modified case Some(text) => text case None => ""
  }

  /** Nothing to do for this note. */
  predicate Current(n: AppleNote, known: Option<Entry>, hash: string) {
    known.Some? && known.value.hash == hash && known.value.modified == ModifiedOf(n) && known.value.deleted == n.deleted
  }

  function MissingOf(atts: seq<Attachment>): nat {
    if atts == [] then 0 else (if HasFile(atts[0]) then 0 else 1) + MissingOf(atts[1..])
  }

  function FileOfNote(lib: Library, n: AppleNote, body: string, now: Moment): Note {
    Rendered(lib.wording, n, body, lib.hash(body), MissingOf(lib.attachments(n.uuid)), now)
  }

  /** The text to write at `path`, None when the file there must not be overwritten. */
  function TextToWrite(lib: Library, files: Files, path: string, generated: string): Option<string> {
    if path !in files then Some(generated)
    else match Merged(lib.fence, files[path], generated)
         case Ok(text) => Some(text)
         case Err(_) => None
  }

  function EntryOf(n: AppleNote, path: string, hash: string): Entry {
    Entry(path, hash, ModifiedOf(n), n.title, n.deleted)
  }

  /** The file is written, the state records it, and every `every` writes the state is saved. */
  function Recorded(r: Run, uuid: string, entry: Entry, text: string, every: nat): Run {
    var state := r.state.(notes := r.state.notes[uuid := entry]);
    var events := r.events + [Write(entry.path, text)];
    if r.unsaved + 1 >= every
    then r.(files := r.files[entry.path := text], state := state, events := events + [Save(state)], unsaved := 0)
    else r.(files := r.files[entry.path := text], state := state, events := events, unsaved := r.unsaved + 1)
  }

  function Settle(lib: Library, every: nat, now: Moment, n: AppleNote, body: string, r: Run): Run {
    var known := Lookup(r.state.notes, n.uuid);
    var path := PathOf(lib, n, known);
    if Current(n, known, lib.hash(body)) then r
    else match TextToWrite(lib, r.files, path, Text(lib.fence, FileOfNote(lib, n, body, now)))
         case Some(text) => Recorded(r, n.uuid, EntryOf(n, path, lib.hash(body)), text, every)
         case None => r
  }

  function NoteStep(lib: Library, every: nat, now: Moment, n: AppleNote, r: Run): Run {
    if r.budget == 0 then r.(stopped := true)
    else
      var r1 := r.(budget := r.budget - 1);
      match n.markdown
      case None => r1
      case Some(markdown) =>
        var attached := Attach(lib, lib.attachments(n.uuid), map[], r1);
        if attached.run.stopped then attached.run
        else Settle(lib, every, now, n, lib.resolve(markdown, attached.links), attached.run)
  }

  function NotesFrom(lib: Library, every: nat, now: Moment, notes: seq<AppleNote>, r: Run): Run
    decreases |notes|
  {
    if notes == [] || r.stopped then r
    else NotesFrom(lib, every, now, notes[1..], NoteStep(lib, every, now, notes[0], r))
  }

  // ---- The deletion sweep -----------------------------------------------------------------------

  const FLAG := "apple-deleted:"
  const FLAGGED := "apple-deleted: true"

  /** The blank lines in front. */
  function Blanks(lines: seq<string>): (n: nat)
    ensures n <= |lines|
  {
    if lines == [] || Strip(lines[0]) != "" then 0 else 1 + Blanks(lines[1..])
  }

  /** What follows the key on the flag's line, and the lines below: `\s` also takes line feeds. */
  function AfterFlag(lines: seq<string>, k: nat): seq<string>
    requires k < |lines| && FLAG <= lines[k]
  {
    [lines[k][|FLAG|..]] + lines[k + 1..]
  }

  function FlagValue(lines: seq<string>, k: nat): string
    requires k < |lines|
  {
    if !(FLAG <= lines[k]) then ""
    else
      var rest := AfterFlag(lines, k);
      if Blanks(rest) < |rest| then Strip(rest[Blanks(rest)]) else ""
  }

  /** `^apple-deleted:\s*\S+\s*$`. */
  predicate IsFlag(lines: seq<string>, k: nat)
    requires k < |lines|
  {
    FlagValue(lines, k) != "" && forall c | c in FlagValue(lines, k) :: !Space(c)
  }

  /** The line after the match: past the line of the value and the blank ones below it. */
  function FlagEnd(lines: seq<string>, k: nat): (end: nat)
    requires k < |lines| && IsFlag(lines, k)
    ensures k < end <= |lines|
  {
    var at := k + Blanks(AfterFlag(lines, k)) + 1;
    at + Blanks(lines[at..])
  }

  predicate HasTrueFlag(lines: seq<string>) {
    exists k | 0 <= k < |lines| :: FlagValue(lines, k) == "true"
  }

  function FirstFlag(lines: seq<string>, from: nat): (k: Option<nat>)
    ensures k.Some? ==> from <= k.value < |lines| && IsFlag(lines, k.value)
    decreases |lines| - from
  {
    if from >= |lines| then None else if IsFlag(lines, from) then Some(from) else FirstFlag(lines, from + 1)
  }

  /** The text with its flag at line `k` set: the match becomes one line. */
  function Flagged(lines: seq<string>, k: nat): seq<string>
    requires k < |lines| && IsFlag(lines, k)
  {
    lines[..k] + [FLAGGED] + lines[FlagEnd(lines, k)..]
  }

  /** `text.rstrip("\n")`, by lines. */
  function RStripLines(lines: seq<string>): seq<string> {
    if |lines| > 1 && lines[|lines| - 1] == "" then RStripLines(lines[..|lines| - 1]) else lines
  }

  /** `_mark_deleted_in_place` on a file that is there: None when it is left alone. */
  function MarkDeleted(text: string, log: string): Option<string> {
    var lines := Split(text);
    if HasTrueFlag(lines) then None
    else match FirstFlag(lines, 0)
         case None => None
         case Some(k) => Some(Join(RStripLines(Flagged(lines, k))) + "\n" + log + "\n")
  }

  function SweepStep(lib: Library, now: Moment, uuid: string, r: Run): Run {
    if uuid !in r.state.notes || (exists n | n in lib.notes :: n.uuid == uuid) || r.state.notes[uuid].deleted then r
    else
      var entry := r.state.notes[uuid];
      if entry.path !in r.files then r
      else match MarkDeleted(r.files[entry.path], lib.deletionLog(now.date))
           case None => r
           case Some(text) => r.(files := r.files[entry.path := text],
                                 state := r.state.(notes := r.state.notes[uuid := entry.(deleted := true)]),
                                 events := r.events + [Write(entry.path, text)])
  }

  function SweepFrom(lib: Library, now: Moment, order: seq<string>, r: Run): Run
    decreases |order|
  {
    if order == [] then r else SweepFrom(lib, now, order[1..], SweepStep(lib, now, order[0], r))
  }

  // ---- The pass -------------------------------------------------------------------------------

  function Started(d: Durable, budget: nat): Run {
    Run(d.files, d.saved, [], 0, budget, false)
  }

  /** `notes[:limit]`. */
  function Limited(notes: seq<AppleNote>, limit: Option<nat>): seq<AppleNote> {
    match limit
    case None => notes
    case Some(k) => if k < |notes| then notes[..k] else notes
  }

  function Swept(lib: Library, cfg: Config, r: Run): Run {
    if cfg.limit.None? && !r.stopped then SweepFrom(lib, cfg.now, cfg.order, r) else r
  }

  function Saved(r: Run): Run {
    r.(events := r.events + [Save(r.state)])
  }

  /** One pass; `order` lists the state's notes in the order the sweep visits them. */
  function Sync(lib: Library, cfg: Config, d: Durable): Run {
    Saved(Swept(lib, cfg, NotesFrom(lib, cfg.every, cfg.now, Limited(lib.notes, cfg.limit), Started(d, cfg.budget))))
  }

  /** `run_sync`. */
  method RunSync(lib: Library, cfg: Config, d: Durable) returns (run: Run)
    ensures run == Sync(lib, cfg, d)
  {
    var notes := lib.notes;
    if cfg.limit.Some? && cfg.limit.value < |notes| { notes := notes[..cfg.limit.value]; }
    var r := Run(d.files, d.saved, [], 0, cfg.budget, false);
    ghost var start := r;
    var i := 0;
    while i < |notes| && !r.stopped
      invariant i <= |notes|
      invariant NotesFrom(lib, cfg.every, cfg.now, notes[i..], r) == NotesFrom(lib, cfg.every, cfg.now, notes, start)
      decreases |notes| - i
    {
      assert notes[i..][1..] == notes[i + 1..];
      r := OneNote(lib, cfg.every, cfg.now, notes[i], r);
      i := i + 1;
    }
    if cfg.limit.None? && !r.stopped {
      ghost var swept := r;
      for k := 0 to |cfg.order|
        invariant SweepFrom(lib, cfg.now, cfg.order[k..], r) == SweepFrom(lib, cfg.now, cfg.order, swept)
      {
        assert cfg.order[k..][1..] == cfg.order[k + 1..];
        r := SweepStep(lib, cfg.now, cfg.order[k], r);
      }
      assert cfg.order[|cfg.order|..] == [];
    }
    run := r.(events := r.events + [Save(r.state)]);
  }

  /** One turn of the loop over the notes. */
  method OneNote(lib: Library, every: nat, now: Moment, n: AppleNote, run: Run) returns (r: Run)
    ensures r == NoteStep(lib, every, now, n, run)
  {
    if run.budget == 0 { return run.(stopped := true); }
    r := run.(budget := run.budget - 1);
    if n.markdown.None? { return; }
    var attached := SyncAttachments(lib, lib.attachments(n.uuid), r);
    r := attached.run;
    if r.stopped { return; }
    var body := lib.resolve(n.markdown.value, attached.links);
    var known := Lookup(r.state.notes, n.uuid);
    var path := PathOf(lib, n, known);
    var hash := lib.hash(body);
    if Current(n, known, hash) { return; }
    var file := FileOfNote(lib, n, body, now);
    var text := RenderFile(lib.fence, lib.wording, Fields(n, hash, now), n.deleted, body,
                           MissingOf(lib.attachments(n.uuid)), now);
    assert text == Text(lib.fence, file);
    if path in r.files {
      var merged := MergeNote(lib.fence, r.files[path], text);
      if merged.Err? { return; }
      text := merged.value;
    }
    r := Recorded(r, n.uuid, EntryOf(n, path, hash), text, every);
  }
}
