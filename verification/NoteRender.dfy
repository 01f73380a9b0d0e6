/**
 * `render_note` (packages/apple-notes/fulcra_apple_notes/render.py): the vault file of one Apple
 * note, and reading it back (`parse_vault_note` in reconcile.py).
 */
module NoteRender {
  import opened Wrappers
  import opened TextLines
  import opened NoteHeader
  import opened NoteText
  import opened NoteMerge
  import opened NoteReader
  import opened NoteLayout

  /** A row of the note store; `markdown` is None when the body does not decode. Dates are ISO texts. */
  datatype AppleNote = AppleNote(
    uuid: string, title: string, folder: string, markdown: Option<string>,
    modified: Option<string>, created: Option<string>, deleted: bool)

  /** The clock of a run, as the ISO time and date it writes. */
  datatype Moment = Moment(iso: string, date: string)

  predicate IsMoment(now: Moment) {
    OneLine(now.iso) && '<' !in now.iso && '<' !in now.date
  }

  // ---- Frontmatter ----------------------------------------------------------------------------

  /** `text.strip() != text`. */
  predicate Padded(text: string) {
    text != "" && (Space(text[0]) || Space(text[|text| - 1]))
  }

  function Escaped(c: char): string {
    if c == '\\' then "\\\\" else if c == '"' then "\\\""
    else if c == '\n' then "\\n" else if c == '\r' then "\\r" else [c]
  }

  function EscapedAll(text: string): string {
    if text == "" then "" else Escaped(text[0]) + EscapedAll(text[1..])
  }

  predicate NeedsQuotes(text: string) {
    text == "" || Padded(text) || exists c | c in text :: c in ":#[]{}\",\n"
  }

  function FmValue(text: string): string {
    if NeedsQuotes(text) then "\"" + EscapedAll(text) + "\"" else text
  }

  datatype Field = Field(key: string, value: Option<string>)

  function FrontLine(key: string, value: string): string {
    key + ":" + (" " + FmValue(value))
  }

  /** `frontmatter`: a field without a value has no line. */
  function FrontLines(fields: seq<Field>): seq<string> {
    if fields == [] then []
    else
      (if fields[0].value.None? then [] else [FrontLine(fields[0].key, fields[0].value.value)])
        + FrontLines(fields[1..])
  }

  lemma {:induction false} EscapedIsOneLine(text: string)
    ensures OneLine(EscapedAll(text))
    ensures '<' !in text ==> '<' !in EscapedAll(text)
  {
    if text != "" {
      EscapedIsOneLine(text[1..]);
      EscapedOne(text[0]);
      hide Escaped;
      assert text == [text[0]] + text[1..];
      var head, tail := Escaped(text[0]), EscapedAll(text[1..]);
      assert forall c :: c in head + tail <==> c in head || c in tail;
    }
  }

  lemma EscapedOne(c: char)
    ensures OneLine(Escaped(c)) && (c != '<' ==> '<' !in Escaped(c))
  {
  }

  lemma {:induction false} FmValueIsOneLine(text: string)
    ensures OneLine(FmValue(text))
    ensures '<' !in text ==> '<' !in FmValue(text)
  {
    EscapedIsOneLine(text);
    assert '\n' in ":#[]{}\",\n";
  }

  lemma {:induction false} KeyOfLine(key: string, rest: string)
    requires ':' !in key
    ensures KeyOf(key + ":" + rest) == key
  {
    var line := key + ":" + rest;
    if key != "" {
      KeyOfLine(key[1..], rest);
      assert line[1..] == key[1..] + ":" + rest;
      assert key == [key[0]] + key[1..] && key[0] in key;
    }
  }

  predicate PlainKey(key: string) {
    key != "" && ':' !in key && OneLine(key) && '<' !in key && !Indented(key)
  }

  predicate GoodFields(fields: seq<Field>) {
    && (forall i | 0 <= i < |fields| :: PlainKey(fields[i].key))
    && (forall i, j | 0 <= i < j < |fields| :: fields[i].key != fields[j].key)
  }

  lemma {:induction false} FrontLineIs(key: string, value: string)
    requires PlainKey(key)
    ensures var line := FrontLine(key, value);
            && KeyOf(line) == key && ':' in line && OneLine(line) && !Indented(line)
            && ('<' !in value ==> '<' !in line)
  {
    KeyOfLine(key, " " + FmValue(value));
    FmValueIsOneLine(value);
    assert FrontLine(key, value)[0] == key[0] && FrontLine(key, value)[|key|] == ':';
  }

  predicate FromField(line: string, fields: seq<Field>) {
    exists i :: 0 <= i < |fields| && fields[i].value.Some? && line == FrontLine(fields[i].key, fields[i].value.value)
  }

  lemma {:induction false} LineFromField(fields: seq<Field>, k: nat)
    requires k < |FrontLines(fields)|
    ensures FromField(FrontLines(fields)[k], fields)
  {
    var here: nat := if fields[0].value.None? then 0 else 1;
    if k >= here {
      LineFromField(fields[1..], k - here);
      var line := FrontLines(fields)[k];
      var i :| 0 <= i < |fields[1..]| && fields[1..][i].value.Some?
               && line == FrontLine(fields[1..][i].key, fields[1..][i].value.value);
      assert fields[1..][i] == fields[i + 1];
    } else {
      assert FrontLines(fields)[0] == FrontLine(fields[0].key, fields[0].value.value);
    }
  }

  /** What `splitlines` breaks a line at besides a line feed. */
  const SEPARATORS := "\r\U{b}\U{c}\U{1c}\U{1d}\U{1e}\U{85}\U{2028}\U{2029}"

  predicate Unbroken(s: string) {
    forall c | c in s :: c != '\n' && c !in SEPARATORS
  }

  /** A value whose separators are all escaped: line feeds always are, carriage returns in quotes. */
  predicate KeepsLine(value: string) {
    forall c | c in value && c in SEPARATORS :: c == '\r' && NeedsQuotes(value)
  }

  lemma {:induction false} EscapedChars(text: string)
    ensures forall c | c in SEPARATORS :: c in EscapedAll(text) <==> c in text && c != '\r'
    ensures '\n' !in EscapedAll(text)
  {
    if text != "" {
      EscapedChars(text[1..]);
      assert text == [text[0]] + text[1..];
      assert forall c | c in SEPARATORS :: c != '\\' && c != '"' && c != 'n' && c != 'r' && c != '\n';
    }
  }

  /** A field is one line to `splitlines`, as `merge_note` reads it, exactly if its value has no
   * separator left unescaped. */
  lemma {:induction false} FieldIsOneLine(key: string, value: string)
    requires Unbroken(key)
    ensures Unbroken(FrontLine(key, value)) <==> KeepsLine(value)
  {
    EscapedChars(value);
    var quoted := "\"" + EscapedAll(value) + "\"";
    assert forall c | c in SEPARATORS :: c != '"' && c != ' ' && c != ':' && c != '\n';
    assert '\n' in ":#[]{}\",\n";
    assert forall c :: c in FrontLine(key, value) <==> c in key || c == ':' || c == ' ' || c in FmValue(value);
    assert forall c :: c in quoted <==> c == '"' || c in EscapedAll(value);
  }

  lemma {:induction false} FrontLinesArePlain(fields: seq<Field>)
    requires GoodFields(fields)
    ensures PlainLines(FrontLines(fields))
  {
    forall k | 0 <= k < |FrontLines(fields)| ensures PlainLine(FrontLines(fields)[k]) {
      LineFromField(fields, k);
      var i :| 0 <= i < |fields| && fields[i].value.Some?
        && FrontLines(fields)[k] == FrontLine(fields[i].key, fields[i].value.value);
      FrontLineIs(fields[i].key, fields[i].value.value);
      assert fields[i].key[0] in fields[i].key;
    }
  }

  /** The lines are those of `merge_note`: single `key: value` lines with distinct keys. */
  lemma {:induction false} FrontLinesAreManaged(fields: seq<Field>)
    requires GoodFields(fields)
    ensures Managed(FrontLines(fields))
  {
    if fields != [] {
      var rest := FrontLines(fields[1..]);
      assert forall i | 0 <= i < |fields[1..]| :: fields[1..][i] == fields[i + 1];
      FrontLinesAreManaged(fields[1..]);
      if fields[0].value.Some? {
        FrontLineIs(fields[0].key, fields[0].value.value);
        forall k | 0 <= k < |rest| ensures KeyOf(rest[k]) != fields[0].key {
          LineFromField(fields[1..], k);
          var i :| 0 <= i < |fields[1..]| && fields[1..][i].value.Some?
                   && rest[k] == FrontLine(fields[1..][i].key, fields[1..][i].value.value);
          FrontLineIs(fields[i + 1].key, fields[i + 1].value.value);
        }
      }
    }
  }

  predicate SameShape(a: seq<Field>, b: seq<Field>) {
    |a| == |b| && forall i | 0 <= i < |a| :: a[i].key == b[i].key && a[i].value.Some? == b[i].value.Some?
  }

  lemma {:induction false} SameShapeSameKeys(a: seq<Field>, b: seq<Field>)
    requires SameShape(a, b) && GoodFields(a)
    ensures SameKeys(FrontLines(a), FrontLines(b))
  {
    if a != [] {
      assert forall i | 0 <= i < |a[1..]| :: a[1..][i] == a[i + 1] && b[1..][i] == b[i + 1];
      SameShapeSameKeys(a[1..], b[1..]);
      if a[0].value.Some? {
        FrontLineIs(a[0].key, a[0].value.value);
        FrontLineIs(b[0].key, b[0].value.value);
      }
    }
  }

  // ---- The file -------------------------------------------------------------------------------

  /** The fixed prose of a note file; `missing` and `log` print a count and a date. */
  datatype Wording = Wording(deleted: string, emptyBody: string, missing: nat -> string, logTitle: string,
                             log: string -> string)

  ghost predicate IsWording(w: Wording) {
    && '<' !in w.deleted && '<' !in w.emptyBody && !Blank(w.emptyBody) && '<' !in w.logTitle
    && (forall n: nat :: '<' !in w.missing(n)) && (forall date: string :: '<' !in date ==> '<' !in w.log(date))
  }

  function Fields(n: AppleNote, hash: string, now: Moment): seq<Field> {
    [Field("title", Some(if n.title == "" then "Untitled" else n.title)),
     Field("source", Some("apple-notes")),
     Field("apple-uuid", Some(n.uuid)),
     Field("apple-folder", Some(n.folder)),
     Field("apple-modified", n.modified),
     Field("apple-created", n.created),
     Field("apple-hash", Some(hash)),
     Field("apple-deleted", Some(if n.deleted then "true" else "false")),
     Field("synced-at", Some(now.iso)),
     Field("updated-by", Some(OWNER))]
  }

  function ShownBody(w: Wording, body: string): string {
    if Blank(body) then w.emptyBody else body
  }

  function Before(w: Wording, deleted: bool): string {
    "\n" + if deleted then w.deleted + "\n" else ""
  }

  function After(w: Wording, missing: nat, now: Moment): string {
    "\n\n" + (if missing > 0 then w.missing(missing) + "\n" else "") + w.logTitle + "\n" + w.log(now.date) + "\n"
  }

  /** A file with these frontmatter fields, cut at its fence. */
  function FileOf(w: Wording, fields: seq<Field>, deleted: bool, body: string, missing: nat, now: Moment): Note {
    Note(FrontLines(fields), Before(w, deleted), "\n" + ShownBody(w, body) + "\n", After(w, missing, now))
  }

  /** The file of an Apple note. */
  function Rendered(w: Wording, n: AppleNote, body: string, hash: string, missing: nat, now: Moment): Note {
    FileOf(w, Fields(n, hash, now), n.deleted, body, missing, now)
  }

  lemma {:induction false} FrontText(fm: string, notice: string, deleted: bool)
    ensures Join([fm, ""] + (if deleted then [notice] else [])) + "\n"
            == fm + "\n" + ("\n" + if deleted then notice + "\n" else "")
  {
    assert [fm, ""][1..] == [""];
    assert Join([fm, ""]) == fm + "\n";
    if deleted { JoinConcat([fm, ""], [notice]); }
  }

  lemma {:induction false} LinesText(a: string, b: string)
    ensures Join([a, b, ""]) == a + "\n" + b + "\n"
  {
    assert [a, b, ""][1..] == [b, ""] && [b, ""][1..] == [""];
    assert Join([b, ""]) == b + "\n" + "";
    assert b + "\n" + "" == b + "\n";
    assert a + "\n" + (b + "\n") == a + "\n" + b + "\n";
  }

  lemma {:induction false} TailText(notice: string, missing: bool, title: string, line: string)
    ensures "\n" + Join([""] + (if missing then [notice] else []) + [title, line, ""])
            == "\n\n" + (if missing then notice + "\n" else "") + title + "\n" + line + "\n"
  {
    LinesText(title, line);
    if missing {
      JoinConcat(["", notice], [title, line, ""]);
      assert [""] + [notice] == ["", notice];
      assert ["", notice][1..] == [notice];
    } else {
      JoinConcat([""], [title, line, ""]);
      assert [""] + [] + [title, line, ""] == [""] + [title, line, ""];
    }
  }

  lemma {:induction false} FenceText(f: Fence, shown: string)
    ensures Join([f.open, shown, f.close]) == Owned(f, "\n" + shown + "\n")
  {
    assert [f.open, shown, f.close][1..] == [shown, f.close] && [shown, f.close][1..] == [f.close];
    assert Join([shown, f.close]) == shown + "\n" + f.close;
    assert f.open + "\n" + (shown + "\n" + f.close) == f.open + ("\n" + shown + "\n") + f.close;
  }

  lemma {:induction false} JoinThree(front: seq<string>, fence: seq<string>, tail: seq<string>)
    requires front != [] && fence != [] && tail != []
    ensures Join(front + fence + tail) == Join(front) + "\n" + Join(fence) + "\n" + Join(tail)
  {
    JoinConcat(front, fence);
    JoinConcat(front + fence, tail);
  }

  lemma Regroup(x: string, y: string, z: string)
    ensures x + "\n" + y + "\n" + z == (x + "\n") + y + ("\n" + z)
  {
  }

  lemma {:induction false} Assemble(f: Fence, n: Note, front: seq<string>, fence: seq<string>, tail: seq<string>)
    requires front != [] && fence != [] && tail != []
    requires Join(front) + "\n" == Head(n.header) + n.before && Join(fence) == Owned(f, n.inner)
             && "\n" + Join(tail) == n.after
    ensures Join(front + fence + tail) == Text(f, n)
  {
    JoinThree(front, fence, tail);
    Regroup(Join(front), Join(fence), Join(tail));
  }

  lemma {:induction false} Flatten(head: string, before: string, f: Fence, shown: string, after: string)
    ensures (head + "\n") + ("\n" + before) + (f.open + ("\n" + shown + "\n") + f.close) + after
            == head + "\n\n" + before + f.open + "\n" + shown + "\n" + f.close + after
  {
  }

  /** The whole text, part by part. */
  lemma {:induction false} TextIs(f: Fence, w: Wording, fields: seq<Field>, deleted: bool, body: string, missing: nat,
                                  now: Moment)
    ensures Text(f, FileOf(w, fields, deleted, body, missing, now))
            == Join(["---"] + FrontLines(fields) + ["---"]) + "\n\n" + (if deleted then w.deleted + "\n" else "")
               + f.open + "\n" + (if Blank(body) then w.emptyBody else body) + "\n" + f.close
               + ("\n\n" + (if missing > 0 then w.missing(missing) + "\n" else "")
                  + w.logTitle + "\n" + w.log(now.date) + "\n")
  {
    hide Join, FrontLines, Blank;
    Flatten(Join(["---"] + FrontLines(fields) + ["---"]), if deleted then w.deleted + "\n" else "", f,
            ShownBody(w, body), After(w, missing, now));
  }

  /** `render_note`, appending to `parts`. */
  method RenderFile(f: Fence, w: Wording, fields: seq<Field>, deleted: bool, body: string, missing: nat, now: Moment)
    returns (text: string)
    ensures text == Text(f, FileOf(w, fields, deleted, body, missing, now))
    ensures text == Join(["---"] + FrontLines(fields) + ["---"]) + "\n\n" + (if deleted then w.deleted + "\n" else "")
                    + f.open + "\n" + (if Blank(body) then w.emptyBody else body) + "\n" + f.close
                    + ("\n\n" + (if missing > 0 then w.missing(missing) + "\n" else "")
                       + w.logTitle + "\n" + w.log(now.date) + "\n")
  {
    ghost var r := FileOf(w, fields, deleted, body, missing, now);
    var fm := Join([RULE] + FrontLines(fields) + [RULE]);
    var parts := [fm, ""];
    if deleted { parts := parts + [w.deleted]; }
    FrontText(fm, w.deleted, deleted);
    var fence := [f.open];
    fence := fence + [if Blank(body) then w.emptyBody else body];
    fence := fence + [f.close];
    assert fence == [f.open, ShownBody(w, body), f.close];
    FenceText(f, ShownBody(w, body));
    var tail := [""];
    if missing > 0 { tail := tail + [w.missing(missing)]; }
    tail := tail + [w.logTitle, w.log(now.date), ""];
    TailText(w.missing(missing), missing > 0, w.logTitle, w.log(now.date));
    Assemble(f, r, parts, fence, tail);
    TextIs(f, w, fields, deleted, body, missing, now);
    text := Join(parts + fence + tail);
  }

  // ---- What a rendered file is ------------------------------------------------------------------

  /** Tells the field names apart. */
  function Mark(key: string): (int, char) {
    (|key|, if |key| > 6 then key[6] else ' ')
  }

  lemma MarksOfNames()
    ensures Mark("title") == (5, ' ') && Mark("source") == (6, ' ') && Mark("apple-uuid") == (10, 'u')
    ensures Mark("apple-folder") == (12, 'f') && Mark("apple-modified") == (14, 'm')
            && Mark("apple-created") == (13, 'c')
    ensures Mark("apple-hash") == (10, 'h') && Mark("apple-deleted") == (13, 'd')
    ensures Mark("synced-at") == (9, '-') && Mark("updated-by") == (10, 'd')
  {
  }

  lemma FirstNamesArePlain()
    ensures PlainKey("title") && PlainKey("source") && PlainKey("apple-uuid") && PlainKey("apple-folder")
            && PlainKey("apple-modified")
  {
  }

  lemma LastNamesArePlain()
    ensures PlainKey("apple-created") && PlainKey("apple-hash") && PlainKey("apple-deleted")
    ensures PlainKey("synced-at") && PlainKey("updated-by")
  {
  }

  lemma {:induction false} FieldsAreGood(n: AppleNote, hash: string, now: Moment)
    ensures GoodFields(Fields(n, hash, now))
  {
    MarksOfNames();
    FirstNamesArePlain();
    LastNamesArePlain();
  }

  /** Two renderings of one note differ in no key. */
  lemma {:induction false} RenderedSameKeys(n: AppleNote, h1: string, h2: string, t1: Moment, t2: Moment)
    ensures Managed(FrontLines(Fields(n, h1, t1))) && Managed(FrontLines(Fields(n, h2, t2)))
    ensures SameKeys(FrontLines(Fields(n, h1, t1)), FrontLines(Fields(n, h2, t2)))
    ensures FrontLines(Fields(n, h1, t1)) != []
  {
    FieldsAreGood(n, h1, t1);
    FieldsAreGood(n, h2, t2);
    FrontLinesAreManaged(Fields(n, h1, t1));
    FrontLinesAreManaged(Fields(n, h2, t2));
    SameShapeSameKeys(Fields(n, h1, t1), Fields(n, h2, t2));
  }

  /** The frontmatter closes where `render_note` closes it, and ends in no blank line. */
  lemma {:induction false} FrontShape(fields: seq<Field>)
    requires GoodFields(fields) && FrontLines(fields) != []
    ensures HeaderShape(FrontLines(fields)) && DropBlank(FrontLines(fields)) == FrontLines(fields)
  {
    FrontLinesAreManaged(fields);
    var lines := FrontLines(fields);
    assert forall k | 0 <= k < |lines| :: ':' in lines[k];
  }

  lemma {:induction false} FieldLinePresent(fields: seq<Field>, i: nat)
    requires i < |fields| && fields[i].value.Some?
    ensures FrontLine(fields[i].key, fields[i].value.value) in FrontLines(fields)
  {
    if i > 0 { FieldLinePresent(fields[1..], i - 1); }
  }

  lemma {:induction false} SurroundsAreFree(f: Fence, w: Wording, deleted: bool, missing: nat, now: Moment)
    requires IsFence(f) && IsWording(w) && IsMoment(now)
    ensures FreeOfFence(f, Before(w, deleted)) && FreeOfFence(f, After(w, missing, now))
  {
    assert '<' !in w.missing(missing) && '<' !in w.log(now.date);
    var before, after := Before(w, deleted), After(w, missing, now);
    NoAngle(before, f.open);
    NoAngle(before, f.close);
    NoAngle(after, f.open);
    NoAngle(after, f.close);
  }

  /** Whether a fence is hidden in the frontmatter does not depend on when the note is rendered. */
  lemma {:induction false} FrontLinesFreeAnyTime(f: Fence, n: AppleNote, hash: string, t1: Moment, t2: Moment)
    requires IsFence(f) && IsMoment(t2) && LinesFree(f, FrontLines(Fields(n, hash, t1)))
    ensures LinesFree(f, FrontLines(Fields(n, hash, t2)))
  {
    var a, b := Fields(n, hash, t1), Fields(n, hash, t2);
    FieldsAreGood(n, hash, t2);
    FieldsDifferInTime(n, hash, t1, t2);
    forall k | 0 <= k < |FrontLines(b)| ensures FreeOfFence(f, FrontLines(b)[k]) {
      LineFromField(b, k);
      var i :| 0 <= i < |b| && b[i].value.Some? && FrontLines(b)[k] == FrontLine(b[i].key, b[i].value.value);
      FrontLineIs(b[i].key, b[i].value.value);
      if i == 8 {
        NoAngle(FrontLines(b)[k], f.open);
        NoAngle(FrontLines(b)[k], f.close);
      } else {
        FieldLinePresent(a, i);
      }
    }
  }

  lemma FieldsDifferInTime(n: AppleNote, hash: string, t1: Moment, t2: Moment)
    ensures var a, b := Fields(n, hash, t1), Fields(n, hash, t2);
            |a| == |b| == 10 && b[8].value == Some(t2.iso) && forall i | 0 <= i < 10 && i != 8 :: a[i] == b[i]
  {
  }

  /** A note whose rendering can later be merged: no fence in its frontmatter, nor in its body. */
  lemma {:induction false} RenderedOkAnyTime(f: Fence, w: Wording, n: AppleNote, body: string, hash: string,
                                             m1: nat, m2: nat, t1: Moment, t2: Moment)
    requires IsFence(f) && IsWording(w) && IsMoment(t2) && NoteOk(f, Rendered(w, n, body, hash, m1, t1))
    ensures NoteOk(f, Rendered(w, n, body, hash, m2, t2))
  {
    FieldsAreGood(n, hash, t2);
    RenderedSameKeys(n, hash, hash, t1, t2);
    FrontShape(Fields(n, hash, t2));
    FrontLinesFreeAnyTime(f, n, hash, t1, t2);
    SurroundsAreFree(f, w, n.deleted, m2, t2);
  }

  /** The generated text has exactly one ordered fence pair just when nothing in it holds a fence. */
  lemma {:induction false} OneFenceIffOk(f: Fence, n: Note)
    requires IsFence(f) && HeaderShape(n.header)
    ensures FenceSpan(f, Text(f, n)).Some? <==> NoteOk(f, n)
  {
    if NoteOk(f, n) { FenceOfText(f, n); }
    if FenceSpan(f, Text(f, n)).Some? {
      FencePairIsOwned(f, n);
      HeaderOfText(f, n);
      CutOfText(f, n);
      NoteOfCut(f, n, Text(f, n), FenceOf(f, n));
      TextOfNote(f, Text(f, n));
    }
  }

  lemma {:induction false} FencePairIsOwned(f: Fence, n: Note)
    requires IsFence(f) && FenceSpan(f, Text(f, n)).Some?
    ensures FenceSpan(f, Text(f, n)) == Some(FenceOf(f, n))
  {
    hide OccursAt, FenceSpan, Head;
    var text, s := Text(f, n), FenceOf(f, n);
    TagsDiffer(f);
    FenceSpanOnce(f, text);
    TagsStand(f, Head(n.header) + n.before, n.inner, n.after);
    OccursMoved(f.open, text, f.open, 0, s.start);
    OccursMoved(f.close, text, f.close, 0, s.end - |f.close|);
  }

  lemma TagsStand(f: Fence, front: string, inner: string, after: string)
    ensures var text, end := front + Owned(f, inner) + after, |front| + |Owned(f, inner)|;
            && text[|front|..|front| + |f.open|] == f.open[0..|f.open|]
            && text[end - |f.close|..end] == f.close[0..|f.close|]
  {
  }

  /** Reading a rendered file back gives the body, or the notice for a blank one, exactly under the
   * condition of `ReadBackIff`. */
  lemma {:induction false} ParseRendered(r: Reader, f: Fence, w: Wording, n: AppleNote, body: string, hash: string,
                                         missing: nat, now: Moment)
    requires IsFence(f) && IsReader(r, f) && NoteOk(f, Rendered(w, n, body, hash, missing, now))
    ensures var file := Rendered(w, n, body, hash, missing, now);
            ParseBody(r, Text(f, file)) == Some(ShownBody(w, body)) <==>
              ReadsBack(r, Head(file.header) + file.before, ShownBody(w, body))
  {
    var file := Rendered(w, n, body, hash, missing, now);
    BodyIsFree(f, ShownBody(w, body));
    ReadBackIff(r, f, Head(file.header) + file.before, ShownBody(w, body), file.after);
  }

  lemma {:induction false} BodyIsFree(f: Fence, body: string)
    requires IsFence(f) && FreeOfFence(f, "\n" + body + "\n")
    ensures FreeOfFence(f, body)
  {
    FreeInside(body, f.open);
    FreeInside(body, f.close);
  }

  lemma {:induction false} FreeInside(body: string, pat: string)
    requires IsTag(pat) && Free("\n" + body + "\n", pat)
    ensures Free(body, pat)
  {
    FreeAcross("\n" + body, "\n", pat);
    FreeAcross("\n", body, pat);
  }

  /** When no metadata holds a `<`, only the body decides: no line of it may start with a closing tag. */
  lemma {:induction false} ParsePlain(r: Reader, f: Fence, w: Wording, n: AppleNote, body: string, hash: string,
                                      missing: nat, now: Moment)
    requires IsFence(f) && IsReader(r, f) && IsWording(w) && NoteOk(f, Rendered(w, n, body, hash, missing, now))
    requires forall k | 0 <= k < |FrontLines(Fields(n, hash, now))| :: '<' !in FrontLines(Fields(n, hash, now))[k]
    ensures ParseBody(r, Text(f, Rendered(w, n, body, hash, missing, now))) == Some(ShownBody(w, body)) <==>
            ClosingLine(r, ShownBody(w, body), 0).None?
  {
    var file := Rendered(w, n, body, hash, missing, now);
    ParseRendered(r, f, w, n, body, hash, missing, now);
    HeadIsPlain(file.header);
    PlainIsQuiet(r, f, Head(file.header) + file.before, 0);
  }

  lemma {:induction false} JoinIsPlain(lines: seq<string>)
    requires forall k | 0 <= k < |lines| :: '<' !in lines[k]
    ensures '<' !in Join(lines)
  {
    if |lines| > 1 {
      assert forall k | 0 <= k < |lines[1..]| :: lines[1..][k] == lines[k + 1];
      JoinIsPlain(lines[1..]);
    }
  }

  lemma {:induction false} HeadIsPlain(header: seq<string>)
    requires forall k | 0 <= k < |header| :: '<' !in header[k]
    ensures '<' !in Head(header)
  {
    var lines := [RULE] + header + [RULE];
    forall k | 0 <= k < |lines| ensures '<' !in lines[k] { if 1 <= k <= |header| { assert lines[k] == header[k - 1]; } }
    JoinIsPlain(lines);
  }

  // ---- The time stamp -------------------------------------------------------------------------------

  lemma {:induction false} FrontLinesConcat(a: seq<Field>, b: seq<Field>)
    ensures FrontLines(a + b) == FrontLines(a) + FrontLines(b)
  {
    if a == [] {
      assert a + b == b;
    } else {
      assert (a + b)[1..] == a[1..] + b;
      FrontLinesConcat(a[1..], b);
    }
  }

  /** Two renderings of a note differ in the line of the time stamp alone. */
  lemma {:induction false} StampedAt(n: AppleNote, hash: string, t1: Moment, t2: Moment) returns (s: nat)
    ensures SameButStamp(FrontLines(Fields(n, hash, t1)), FrontLines(Fields(n, hash, t2)), s)
    ensures FrontLines(Fields(n, hash, t1))[s] == FrontLine(STAMP, t1.iso)
    ensures FrontLines(Fields(n, hash, t2))[s] == FrontLine(STAMP, t2.iso)
  {
    hide Fields, FrontLines, FmValue, FrontLine;
    var a, b := Fields(n, hash, t1), Fields(n, hash, t2);
    RenderedSameKeys(n, hash, hash, t1, t2);
    FieldsDifferInTime(n, hash, t1, t2);
    StampField(n, hash, t1);
    StampField(n, hash, t2);
    assert a[..8] == b[..8] && a[9..] == b[9..];
    s := |FrontLines(a[..8])|;
    StampLine(a);
    StampLine(b);
    FrontLineIs(STAMP, t1.iso) by { LastNamesArePlain(); }
  }

  lemma StampField(n: AppleNote, hash: string, now: Moment)
    ensures |Fields(n, hash, now)| == 10 && Fields(n, hash, now)[8] == Field(STAMP, Some(now.iso))
  {
  }

  lemma {:induction false} StampLine(fields: seq<Field>)
    requires |fields| == 10 && fields[8].value.Some?
    ensures FrontLines(fields)
            == FrontLines(fields[..8]) + [FrontLine(fields[8].key, fields[8].value.value)] + FrontLines(fields[9..])
  {
    assert fields == fields[..8] + fields[8..] && fields[8..] == [fields[8]] + fields[9..];
    FrontLinesConcat(fields[..8], fields[8..]);
    FrontLinesConcat([fields[8]], fields[9..]);
    assert FrontLines([fields[8]]) == [FrontLine(fields[8].key, fields[8].value.value)];
  }

  /** There is another time. */
  lemma {:induction false} OtherTime(now: Moment) returns (later: Moment)
    ensures IsMoment(later) && FrontLine(STAMP, later.iso) != FrontLine(STAMP, now.iso)
  {
    assert FmValue("a") == "a" && FmValue("b") == "b";
    var a, b := FrontLine(STAMP, "a"), FrontLine(STAMP, "b");
    assert a[|a| - 1] == 'a' && b[|b| - 1] == 'b';
    later := if FrontLine(STAMP, now.iso) == a then Moment("b", "") else Moment("a", "");
  }
}
