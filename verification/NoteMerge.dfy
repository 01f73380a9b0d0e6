/**
 * `merge_note` (packages/apple-notes/fulcra_apple_notes/render.py): the owned section and the
 * managed metadata come from the generated text, everything else stays the user's.
 */
module NoteMerge {
  import opened Wrappers
  import opened TextLines
  import opened NoteHeader
  import opened NoteText

  datatype Refusal = FenceAmbiguous | NoFrontmatter | MetadataAmbiguous

  predicate EndsBlank(lines: seq<string>) {
    lines != [] && lines[|lines| - 1] == ""
  }

  /** `"\n".join(lines).splitlines()`: a last empty line is not a line. */
  function DropBlank(lines: seq<string>): seq<string> {
    if EndsBlank(lines) then lines[..|lines| - 1] else lines
  }

  /** Joined into a text, no lines and one empty line are the same. */
  function Shown(lines: seq<string>): seq<string> {
    if lines == [] then [""] else lines
  }

  function Spliced(existing: string, e: Span, generated: string, g: Span): string
    requires e.start <= e.end <= |existing| && g.start <= g.end <= |generated|
  {
    existing[..e.start] + generated[g.start..g.end] + existing[e.end..]
  }

  function HeaderLines(text: string): Option<seq<string>> {
    match HeaderEnd(text) case Some(j) => Some(Split(text)[1..j]) case None => None
  }

  /** `text` with other frontmatter lines. */
  function WithHeader(text: string, lines: seq<string>): string
    requires HeaderEnd(text).Some?
  {
    Join([RULE] + Shown(lines) + Split(text)[HeaderEnd(text).value..])
  }

  function Merged(f: Fence, existing: string, generated: string): Result<string, Refusal> {
    match (FenceSpan(f, existing), FenceSpan(f, generated))
    case (Some(e), Some(g)) => MetadataMerged(Spliced(existing, e, generated, g), generated)
    case _ => Err(FenceAmbiguous)
  }

  function MetadataMerged(merged: string, generated: string): Result<string, Refusal> {
    match (HeaderLines(merged), HeaderLines(generated))
    case (Some(lines), Some(gen)) =>
      (match PutAll(DropBlank(lines), DropBlank(gen))
       case Some(next) => Ok(WithHeader(merged, next))
       case None => Err(MetadataAmbiguous))
    case _ => Err(NoFrontmatter)
  }

  method MergeNote(f: Fence, existing: string, generated: string) returns (result: Result<string, Refusal>)
    ensures result == Merged(f, existing, generated)
  {
    var e, g := FenceSpan(f, existing), FenceSpan(f, generated);
    if e.None? || g.None? { return Err(FenceAmbiguous); }
    var merged := Spliced(existing, e.value, generated, g.value);
    var header, gen := HeaderLines(merged), HeaderLines(generated);
    if header.None? || gen.None? { return Err(NoFrontmatter); }
    var lines := UpdateHeader(DropBlank(header.value), DropBlank(gen.value));
    if lines.None? { return Err(MetadataAmbiguous); }
    result := Ok(WithHeader(merged, lines.value));
  }

  // ---- The merge of two notes -------------------------------------------------------------------

  /** The generated frontmatter lines of a note. */
  function Gen(g: Note): seq<string> {
    DropBlank(g.header)
  }

  /** The merge in closed form: what a merged note is made of. */
  function MergedNote(e: Note, g: Note): Note {
    Note(Shown(Updated(Gen(g), DropBlank(e.header))), e.before, g.inner, e.after)
  }

  lemma {:induction false} SpliceOfNotes(f: Fence, e: Note, g: Note)
    requires IsFence(f) && NoteOk(f, e) && NoteOk(f, g)
    ensures FenceSpan(f, Text(f, e)) == Some(FenceOf(f, e)) && FenceSpan(f, Text(f, g)) == Some(FenceOf(f, g))
    ensures Spliced(Text(f, e), FenceOf(f, e), Text(f, g), FenceOf(f, g)) == Text(f, e.(inner := g.inner))
  {
    FenceOfText(f, e);
    FenceOfText(f, g);
    assert Text(f, e)[..FenceOf(f, e).start] == Head(e.header) + e.before;
    assert Text(f, e)[FenceOf(f, e).end..] == e.after;
    assert Text(f, g)[FenceOf(f, g).start..FenceOf(f, g).end] == Owned(f, g.inner);
  }

  lemma {:induction false} WithHeaderOfText(f: Fence, n: Note, lines: seq<string>)
    requires HeaderShape(n.header)
    ensures HeaderEnd(Text(f, n)).Some? && WithHeader(Text(f, n), lines) == Text(f, n.(header := Shown(lines)))
  {
    HeaderOfText(f, n);
    var rest := n.before + Owned(f, n.inner) + n.after;
    var top := [RULE] + Shown(lines) + [RULE];
    assert [RULE] + Shown(lines) + ([RULE] + Split(rest)) == top + Split(rest);
    JoinConcat(top, Split(rest));
    JoinSplit(rest);
    assert Join(top) + "\n" + rest == Text(f, n.(header := Shown(lines)));
  }

  lemma {:induction false} HeaderLinesOfText(f: Fence, n: Note)
    requires HeaderShape(n.header)
    ensures HeaderLines(Text(f, n)) == Some(n.header)
  {
    HeaderOfText(f, n);
  }

  /** On notes the merge is the closed form, and it refuses exactly when the metadata is ambiguous. */
  lemma {:induction false} MergedIsNote(f: Fence, e: Note, g: Note)
    requires IsFence(f) && NoteOk(f, e) && NoteOk(f, g) && Managed(Gen(g))
    ensures Merged(f, Text(f, e), Text(f, g)) ==
            if Editable(Gen(g), DropBlank(e.header)) then Ok(Text(f, MergedNote(e, g))) else Err(MetadataAmbiguous)
  {
    SpliceOfNotes(f, e, g);
    var m := e.(inner := g.inner);
    HeaderLinesOfText(f, m);
    HeaderLinesOfText(f, g);
    PutAllIsUpdated(DropBlank(e.header), Gen(g));
    if Editable(Gen(g), DropBlank(e.header)) { WithHeaderOfText(f, m, Updated(Gen(g), DropBlank(e.header))); }
  }

  predicate FromHeaders(line: string, k: nat, gen: seq<string>, lines: seq<string>) {
    (k < |lines| && line == lines[k]) || line in gen
  }

  /** Every line of an edited header is the user's line at that place or a generated one. */
  lemma {:induction false} UpdatedLine(gen: seq<string>, lines: seq<string>, k: nat)
    requires Managed(gen) && k < |Updated(gen, lines)|
    ensures FromHeaders(Updated(gen, lines)[k], k, gen, lines)
  {
    if k < |lines| {
      if Pick(gen, lines[k]).Some? { PickHits(gen, lines[k]); }
    } else {
      MissingLine(gen, lines, k - |lines|);
    }
  }

  lemma {:induction false} GeneratedLine(f: Fence, g: Note, line: string)
    requires NoteOk(f, g) && Managed(Gen(g)) && line in Gen(g)
    ensures OneLine(line) && line != RULE && FreeOfFence(f, line)
  {
    var k :| 0 <= k < |Gen(g)| && Gen(g)[k] == line;
    assert g.header[k] == line;
  }

  /** A merged note is a note again: one ordered fence pair, after a frontmatter that closes. */
  lemma {:induction false} MergedNoteOk(f: Fence, e: Note, g: Note)
    requires IsFence(f) && NoteOk(f, e) && NoteOk(f, g) && Managed(Gen(g))
    ensures NoteOk(f, MergedNote(e, g))
  {
    var gen, lines := Gen(g), DropBlank(e.header);
    var next := Updated(gen, lines);
    forall k | 0 <= k < |next| ensures OneLine(next[k]) && (1 <= k ==> next[k] != RULE) && FreeOfFence(f, next[k]) {
      UpdatedLine(gen, lines, k);
      if next[k] in gen { GeneratedLine(f, g, next[k]); } else { assert next[k] == e.header[k]; }
    }
    NoAngle("", f.open);
    NoAngle("", f.close);
  }

  // ---- What the merge keeps -----------------------------------------------------------------------

  lemma {:induction false} UnmanagedSnoc(gen: seq<string>, lines: seq<string>, line: string)
    requires Pick(gen, line).None?
    ensures Unmanaged(gen, lines + [line]) == Unmanaged(gen, lines) + [line]
  {
    UnmanagedConcat(gen, lines, [line]);
    assert Unmanaged(gen, [line]) == [line];
  }

  lemma {:induction false} BlankIsUnmanaged(gen: seq<string>)
    ensures Pick(gen, "").None?
  {
    if gen != [] { BlankIsUnmanaged(gen[1..]); }
  }

  lemma {:induction false} DropBlankUnmanaged(gen: seq<string>, lines: seq<string>)
    ensures Unmanaged(gen, lines) == Unmanaged(gen, DropBlank(lines)) + if EndsBlank(lines) then [""] else []
  {
    if EndsBlank(lines) {
      BlankIsUnmanaged(gen);
      UnmanagedSnoc(gen, DropBlank(lines), "");
      assert lines == DropBlank(lines) + [""];
    }
  }

  lemma {:induction false} MergedHeaderIsUpdated(e: Note, g: Note)
    requires Gen(g) != []
    ensures MergedNote(e, g).header == Updated(Gen(g), DropBlank(e.header))
  {
    var lines := DropBlank(e.header);
    if lines == [] { MissingMembers(Gen(g), lines, Gen(g)[0]); }
  }

  /**
   * The merge changes nothing outside the fence but managed lines: the user's text before and
   * after the fence and every unmanaged frontmatter line stay, in order -- all of them exactly
   * when the frontmatter does not end in a blank line, which `splitlines` drops.
   */
  lemma {:induction false} MergeKeepsUserText(f: Fence, existing: string, generated: string, e: Note, g: Note,
                                              merged: string)
    requires IsFence(f) && NoteOf(f, existing) == Some(e) && NoteOf(f, generated) == Some(g)
    requires Managed(Gen(g)) && Gen(g) != [] && Merged(f, existing, generated) == Ok(merged)
    ensures NoteOf(f, merged).Some?
    ensures var m := NoteOf(f, merged).value;
            && m.before == e.before && m.after == e.after && m.inner == g.inner
            && Unmanaged(Gen(g), e.header) == Unmanaged(Gen(g), m.header) + (if EndsBlank(e.header) then [""] else [])
            && (Unmanaged(Gen(g), m.header) == Unmanaged(Gen(g), e.header) <==> !EndsBlank(e.header))
  {
    TextOfNote(f, existing);
    TextOfNote(f, generated);
    MergedIsNote(f, e, g);
    MergedNoteOk(f, e, g);
    NoteOfText(f, MergedNote(e, g));
    MergedHeaderIsUpdated(e, g);
    UpdateKeepsUnmanaged(Gen(g), DropBlank(e.header));
    DropBlankUnmanaged(Gen(g), e.header);
  }

  /** Every managed key is in the merged frontmatter, with the generated value. */
  lemma {:induction false} MergePublishesMetadata(f: Fence, existing: string, generated: string, e: Note, g: Note,
                                                  merged: string, k: nat)
    requires IsFence(f) && NoteOf(f, existing) == Some(e) && NoteOf(f, generated) == Some(g)
    requires Managed(Gen(g)) && k < |Gen(g)| && Merged(f, existing, generated) == Ok(merged)
    ensures NoteOf(f, merged).Some? && Gen(g)[k] in NoteOf(f, merged).value.header
  {
    TextOfNote(f, existing);
    TextOfNote(f, generated);
    MergedIsNote(f, e, g);
    MergedNoteOk(f, e, g);
    NoteOfText(f, MergedNote(e, g));
    MergedHeaderIsUpdated(e, g);
    UpdatedHolds(Gen(g), DropBlank(e.header), k);
  }

  lemma {:induction false} UpdatedHolds(gen: seq<string>, lines: seq<string>, k: nat)
    requires Managed(gen) && k < |gen|
    ensures gen[k] in Updated(gen, lines)
  {
    if HasKey(lines, gen[k]) {
      var i :| 0 <= i < |lines| && Hits(lines[i], gen[k]);
      PickHit(gen, lines[i], k);
      assert Updated(gen, lines)[i] == gen[k];
    } else {
      MissingMembers(gen, lines, gen[k]);
      var m :| 0 <= m < |Missing(gen, lines)| && Missing(gen, lines)[m] == gen[k];
      assert Updated(gen, lines)[|lines| + m] == gen[k];
    }
  }

  /** The owned section of the merge is the generated one. */
  lemma {:induction false} MergeReplacesBody(f: Fence, existing: string, generated: string)
    requires IsFence(f) && NoteOf(f, existing).Some? && NoteOf(f, generated).Some?
    requires Managed(Gen(NoteOf(f, generated).value)) && Merged(f, existing, generated).Ok?
    ensures Section(f, Merged(f, existing, generated).value) == Section(f, generated)
            == Some(NoteOf(f, generated).value.inner)
  {
    var e, g := NoteOf(f, existing).value, NoteOf(f, generated).value;
    TextOfNote(f, existing);
    TextOfNote(f, generated);
    MergedIsNote(f, e, g);
    MergedNoteOk(f, e, g);
    SectionOfText(f, MergedNote(e, g));
    SectionOfText(f, g);
  }

  // ---- Two merges in a row ------------------------------------------------------------------------

  lemma {:induction false} EditablePrefix(gen: seq<string>, lines: seq<string>)
    requires Editable(gen, lines)
    ensures Editable(gen, DropBlank(lines))
  {
    var cut := DropBlank(lines);
    assert forall i | 0 <= i < |cut| :: cut[i] == lines[i];
    forall k | 0 <= k < |gen| ensures EditableAt(cut, gen[k]) { assert EditableAt(lines, gen[k]); }
  }

  lemma {:induction false} BlankHasNoKey(gen: seq<string>, lines: seq<string>, line: string)
    ensures HasKey(DropBlank(lines), line) <==> HasKey(lines, line)
  {
    var cut := DropBlank(lines);
    assert forall i | 0 <= i < |cut| :: cut[i] == lines[i];
    if HasKey(cut, line) {
      var i :| 0 <= i < |cut| && Hits(cut[i], line);
      assert Hits(lines[i], line);
    }
    if HasKey(lines, line) {
      var i :| 0 <= i < |lines| && Hits(lines[i], line);
      assert lines[i] != "";
      assert Hits(cut[i], line);
    }
  }

  /** The one way a merge leaves its own frontmatter ending in a blank line. */
  predicate LeavesBlank(gen: seq<string>, lines: seq<string>) {
    EndsBlank(DropBlank(lines)) && Missing(gen, DropBlank(lines)) == []
  }

  lemma {:induction false} UpdatedEndsBlank(gen: seq<string>, lines: seq<string>)
    requires Managed(gen) && gen != []
    ensures EndsBlank(Updated(gen, lines)) <==> EndsBlank(lines) && Missing(gen, lines) == []
  {
    var added := Missing(gen, lines);
    if added != [] {
      MissingLine(gen, lines, |added| - 1);
      assert Updated(gen, lines)[|lines| + |added| - 1] == added[|added| - 1];
    } else if lines != [] {
      var last := lines[|lines| - 1];
      BlankIsUnmanaged(gen);
      if Pick(gen, last).Some? { PickHits(gen, last); ManagedIsNotBlank(gen, Pick(gen, last).value); }
      assert Updated(gen, lines)[|lines| - 1] == Replaced(gen, last);
    }
  }

  lemma {:induction false} ManagedIsNotBlank(gen: seq<string>, line: string)
    requires Managed(gen) && line in gen
    ensures line != ""
  {
    var k :| 0 <= k < |gen| && gen[k] == line;
    assert ':' in gen[k];
  }

  lemma {:induction false} MissingNothingTwice(g1: seq<string>, g2: seq<string>, lines: seq<string>)
    requires Managed(g1) && Managed(g2) && SameKeys(g1, g2)
    ensures Missing(g2, DropBlank(Updated(g1, lines))) == []
  {
    var once := Updated(g1, lines);
    forall k | 0 <= k < |g2| ensures HasKey(DropBlank(once), g2[k]) {
      UpdatedHasKeys(g1, lines, k);
      var i :| 0 <= i < |once| && Hits(once[i], g1[k]);
      assert Hits(once[i], g2[k]);
      BlankHasNoKey(g2, once, g2[k]);
    }
    NothingMissing(g2, DropBlank(once));
  }

  /** A second edit sees only the lines: absorbed unless the first left a blank line to drop. */
  lemma {:induction false} AbsorbedLines(g1: seq<string>, g2: seq<string>, lines: seq<string>)
    requires Managed(g1) && Managed(g2) && SameKeys(g1, g2) && g1 != []
    ensures Updated(g2, DropBlank(Updated(g1, lines))) == Updated(g2, lines) <==>
              !(EndsBlank(lines) && Missing(g1, lines) == [])
  {
    var once := Updated(g1, lines);
    UpdatedEndsBlank(g1, lines);
    UpdateAbsorbs(g1, g2, lines);
    if EndsBlank(once) {
      MissingNothingTwice(g1, g2, lines);
      assert |Updated(g2, DropBlank(once))| == |once| - 1;
      assert |Updated(g2, lines)| >= |lines| == |once|;
    }
  }

  /** Once merged, a note can be merged again with the same managed keys. */
  lemma {:induction false} MergedIsMergeable(f: Fence, e: Note, g1: Note, g2: Note)
    requires Managed(Gen(g1)) && Managed(Gen(g2)) && SameKeys(Gen(g1), Gen(g2)) && Gen(g1) != []
    requires Editable(Gen(g1), DropBlank(e.header))
    ensures Editable(Gen(g2), DropBlank(e.header))
    ensures Editable(Gen(g2), DropBlank(MergedNote(e, g1).header))
  {
    MergedHeaderIsUpdated(e, g1);
    SameKeysEditable(Gen(g1), Gen(g2), DropBlank(e.header));
    UpdatedIsEditable(Gen(g1), Gen(g2), DropBlank(e.header));
    EditablePrefix(Gen(g2), MergedNote(e, g1).header);
  }

  /**
   * Absorption: after a merge with g1, a merge with g2 of the same managed keys never refuses, and
   * gives what merging g2 alone gives -- exactly unless the frontmatter already had every managed
   * key and ended in two blank lines.
   */
  lemma {:induction false} MergeAbsorbs(f: Fence, existing: string, first: string, second: string, e: Note,
                                        g1: Note, g2: Note)
    requires IsFence(f) && NoteOf(f, existing) == Some(e) && NoteOf(f, first) == Some(g1)
             && NoteOf(f, second) == Some(g2)
    requires Managed(Gen(g1)) && Managed(Gen(g2)) && SameKeys(Gen(g1), Gen(g2)) && Gen(g1) != []
    requires Merged(f, existing, first).Ok?
    ensures Merged(f, existing, second).Ok?
    ensures Merged(f, Merged(f, existing, first).value, second).Ok?
    ensures Merged(f, Merged(f, existing, first).value, second) == Merged(f, existing, second) <==>
            !LeavesBlank(Gen(g1), e.header)
  {
    TextOfNote(f, existing);
    TextOfNote(f, first);
    TextOfNote(f, second);
    var m := MergedNote(e, g1);
    MergedIsNote(f, e, g1);
    MergedIsNote(f, e, g2);
    MergedNoteOk(f, e, g1);
    MergedIsMergeable(f, e, g1, g2);
    MergedIsNote(f, m, g2);
    MergedTwice(f, e, g1, g2);
  }

  lemma {:induction false} MergedTwice(f: Fence, e: Note, g1: Note, g2: Note)
    requires IsFence(f) && NoteOk(f, e) && NoteOk(f, g1) && NoteOk(f, g2)
    requires Managed(Gen(g1)) && Managed(Gen(g2)) && SameKeys(Gen(g1), Gen(g2)) && Gen(g1) != []
    ensures Text(f, MergedNote(MergedNote(e, g1), g2)) == Text(f, MergedNote(e, g2)) <==>
              !LeavesBlank(Gen(g1), e.header)
  {
    var m := MergedNote(e, g1);
    MergedHeaderIsUpdated(e, g1);
    MergedHeaderIsUpdated(e, g2);
    MergedHeaderIsUpdated(m, g2);
    AbsorbedLines(Gen(g1), Gen(g2), DropBlank(e.header));
    MergedNoteOk(f, e, g1);
    MergedNoteOk(f, e, g2);
    MergedNoteOk(f, m, g2);
    NoteOfText(f, MergedNote(e, g2));
    NoteOfText(f, MergedNote(m, g2));
  }
}
