/**
 * Merging again (packages/apple-notes/fulcra_apple_notes/render.py, `merge_note`): which vault files
 * can be merged with one rendering of a note after another, and always get the same section.
 */
module NoteRemerge {
  import opened Wrappers
  import opened TextLines
  import opened NoteHeader
  import opened NoteText
  import opened NoteMerge
  import opened NoteLayout
  import opened NoteRender

  /** A fenced vault file with frontmatter closes it before the fence. */
  predicate Tidy(f: Fence, text: string) {
    FenceSpan(f, text).Some? ==> NoteOf(f, text).Some? || Split(text)[0] != RULE
  }

  /** A file of the user's that a merge with `g` accepts. */
  ghost predicate Mergeable(f: Fence, text: string, g: Note) {
    NoteOf(f, text).Some? && Editable(Gen(g), DropBlank(NoteOf(f, text).value.header))
  }

  lemma {:induction false} FirstLine(a: string, b: string)
    ensures Split(a + b)[0] == if '\n' in a then Split(a)[0] else a + Split(b)[0]
  {
    if a == "" {
      assert a + b == b;
    } else {
      FirstLine(a[1..], b);
      assert (a + b)[1..] == a[1..] + b && (a + b)[0] == a[0];
      assert '\n' in a <==> a[0] == '\n' || '\n' in a[1..] by { assert a == [a[0]] + a[1..]; }
      if a[0] != '\n' && '\n' !in a[1..] { assert [a[0]] + (a[1..] + Split(b)[0]) == a + Split(b)[0]; }
    }
  }

  lemma {:induction false} FirstLineStays(front: string, a: string, open: string, b: string)
    requires IsTag(open) && Split(front + a)[0] != RULE
    ensures Split(front + (open + b))[0] != RULE
  {
    FirstLine(front, a);
    FirstLine(front, open + b);
    if '\n' !in front {
      FirstLine(open, b);
      assert Split(front + (open + b))[0][|front|] == '<';
    }
  }

  lemma {:induction false} SplitSplice(f: Fence, existing: string, generated: string)
    requires IsFence(f) && FenceSpan(f, existing).Some? && FenceSpan(f, generated).Some?
    ensures var e, g := FenceSpan(f, existing).value, FenceSpan(f, generated).value;
            g.start + |f.open| <= g.end
              && Spliced(existing, e, generated, g)
                 == existing[..e.start] + (f.open + (generated[g.start + |f.open|..g.end] + existing[e.end..]))
  {
    FenceSpanOnce(f, generated);
    var g := FenceSpan(f, generated).value;
    OccursSlice(generated, f.open, g.start);
    assert generated[g.start..g.end] == generated[g.start..g.start + |f.open|] + generated[g.start + |f.open|..g.end];
  }

  lemma NoHeaderNoMerge(merged: string, generated: string)
    requires Split(merged)[0] != RULE
    ensures MetadataMerged(merged, generated).Err?
  {
  }

  lemma {:induction false} SpliceHasNoRule(f: Fence, existing: string, generated: string)
    requires IsFence(f) && FenceSpan(f, existing).Some? && FenceSpan(f, generated).Some? && Split(existing)[0] != RULE
    ensures Split(Spliced(existing, FenceSpan(f, existing).value, generated, FenceSpan(f, generated).value))[0] != RULE
  {
    var e, g := FenceSpan(f, existing).value, FenceSpan(f, generated).value;
    SplitSplice(f, existing, generated);
    assert existing[..e.start] + existing[e.start..] == existing;
    FirstLineStays(existing[..e.start], existing[e.start..], f.open,
                   generated[g.start + |f.open|..g.end] + existing[e.end..]);
  }

  /** A fenced text whose first line is no rule has no frontmatter, nor does any splice of it. */
  lemma {:induction false} NoRuleNoMerge(f: Fence, existing: string, generated: string)
    requires IsFence(f) && FenceSpan(f, existing).Some? && Split(existing)[0] != RULE
    ensures Merged(f, existing, generated).Err?
  {
    if FenceSpan(f, generated).Some? {
      SpliceHasNoRule(f, existing, generated);
      NoHeaderNoMerge(Spliced(existing, FenceSpan(f, existing).value, generated, FenceSpan(f, generated).value),
                      generated);
    }
  }

  /** Whether a merge into a tidy file goes through. */
  lemma {:induction false} MergeDecides(f: Fence, text: string, g: Note)
    requires IsFence(f) && Tidy(f, text) && HeaderShape(g.header) && Managed(Gen(g))
    ensures Merged(f, text, Text(f, g)).Ok? <==> NoteOk(f, g) && Mergeable(f, text, g)
    ensures Merged(f, text, Text(f, g)).Ok? ==>
              Merged(f, text, Text(f, g)).value == Text(f, MergedNote(NoteOf(f, text).value, g))
  {
    OneFenceIffOk(f, g);
    if FenceSpan(f, text).Some? && NoteOf(f, text).None? {
      NoRuleNoMerge(f, text, Text(f, g));
    } else if NoteOf(f, text).Some? && NoteOk(f, g) {
      TextOfNote(f, text);
      MergedIsNote(f, NoteOf(f, text).value, g);
    }
  }

  /** Mergeability does not depend on when the note is rendered. */
  lemma {:induction false} MergeableAnyTime(f: Fence, text: string, g1: Note, g2: Note)
    requires SameKeys(Gen(g1), Gen(g2))
    ensures Mergeable(f, text, g1) <==> Mergeable(f, text, g2)
  {
    if NoteOf(f, text).Some? { SameKeysEditable(Gen(g1), Gen(g2), DropBlank(NoteOf(f, text).value.header)); }
  }

  /** A managed header is editable by itself. */
  lemma {:induction false} ManagedIsEditable(g1: seq<string>, g2: seq<string>)
    requires Managed(g1) && Managed(g2) && SameKeys(g1, g2)
    ensures Editable(g2, g1)
  {
    forall k | 0 <= k < |g2| ensures EditableAt(g1, g2[k]) {
      forall i, j | 0 <= i < j < |g1| ensures !(Hits(g1[i], g2[k]) && Hits(g1[j], g2[k])) {
        HitsIsSameKey(g1[i], g2[k]);
        HitsIsSameKey(g1[j], g2[k]);
      }
    }
  }

  /** What a pass writes over a mergeable file, or where there is none, later passes can merge into. */
  lemma {:induction false} WrittenIsGood(f: Fence, g1: Note, g2: Note)
    requires IsFence(f) && NoteOk(f, g1) && Managed(Gen(g1)) && Managed(Gen(g2)) && SameKeys(Gen(g1), Gen(g2))
             && Gen(g1) == g1.header
    ensures Mergeable(f, Text(f, g1), g2) && NoteOf(f, Text(f, g1)).value.inner == g1.inner
  {
    NoteOfText(f, g1);
    ManagedIsEditable(Gen(g1), Gen(g2));
  }

  lemma {:induction false} MergedIsGood(f: Fence, e: Note, g1: Note, g2: Note)
    requires IsFence(f) && NoteOk(f, e) && NoteOk(f, g1) && Managed(Gen(g1)) && Managed(Gen(g2))
             && SameKeys(Gen(g1), Gen(g2))
    requires Gen(g1) != [] && Editable(Gen(g1), DropBlank(e.header))
    ensures Mergeable(f, Text(f, MergedNote(e, g1)), g2)
            && NoteOf(f, Text(f, MergedNote(e, g1))).value.inner == g1.inner
  {
    MergedNoteOk(f, e, g1);
    NoteOfText(f, MergedNote(e, g1));
    MergedIsMergeable(f, e, g1, g2);
  }

  // ---- Renderings of one note -------------------------------------------------------------------------

  function BodyLines(g: Note): seq<string> {
    if |g.inner| >= 2 then Split(g.inner[1..|g.inner| - 1]) else [""]
  }

  ghost predicate IsRendering(g: Note) {
    && HeaderShape(g.header) && Managed(Gen(g)) && PlainLines(Gen(g)) && Gen(g) == g.header && g.header != []
    && g.inner == Boxed(BodyLines(g))
  }

  /** Renderings of one note at two times. */
  ghost predicate Kin(g1: Note, g2: Note, s: nat) {
    IsRendering(g1) && IsRendering(g2) && g1.inner == g2.inner && SameButStamp(Gen(g1), Gen(g2), s)
  }

  lemma {:induction false} KinSym(g1: Note, g2: Note, s: nat)
    requires Kin(g1, g2, s)
    ensures Kin(g2, g1, s)
  {
  }

  lemma {:induction false} BodyLinesOk(f: Fence, g: Note)
    requires IsFence(f) && NoteOk(f, g) && IsRendering(g)
    ensures BodyOk(f, BodyLines(g))
  {
    var body := BodyLines(g);
    if |g.inner| >= 2 {
      SplitIsOneLiners(g.inner[1..|g.inner| - 1]);
    }
    BodyIsFree(f, Join(body));
    FreeLines(body, f.open);
    FreeLines(body, f.close);
  }

  lemma {:induction false} SpliceIsTimeless(f: Fence, text: string, g1: Note, g2: Note)
    requires IsFence(f) && NoteOk(f, g1) && NoteOk(f, g2) && g1.inner == g2.inner && FenceSpan(f, text).Some?
    ensures FenceSpan(f, Text(f, g1)).Some? && FenceSpan(f, Text(f, g2)).Some?
    ensures Spliced(text, FenceSpan(f, text).value, Text(f, g1), FenceSpan(f, Text(f, g1)).value)
            == Spliced(text, FenceSpan(f, text).value, Text(f, g2), FenceSpan(f, Text(f, g2)).value)
  {
    FenceOfText(f, g1);
    FenceOfText(f, g2);
    assert Text(f, g1)[FenceOf(f, g1).start..FenceOf(f, g1).end] == Owned(f, g1.inner);
    assert Text(f, g2)[FenceOf(f, g2).start..FenceOf(f, g2).end] == Owned(f, g2.inner);
  }

  /** Whether a merge goes through does not depend on when the note is rendered. */
  lemma {:induction false} MergesAnyTime(f: Fence, text: string, g1: Note, g2: Note, s: nat)
    requires IsFence(f) && Kin(g1, g2, s) && (NoteOk(f, g1) <==> NoteOk(f, g2))
    ensures Merged(f, text, Text(f, g1)).Ok? <==> Merged(f, text, Text(f, g2)).Ok?
  {
    hide FenceSpan, NoteOk, HeaderLines, Spliced, Updated, Editable, DropBlank, Text, PlainLines, WithHeader;
    OneFenceIffOk(f, g1);
    OneFenceIffOk(f, g2);
    if FenceSpan(f, text).Some? && NoteOk(f, g1) {
      SpliceIsTimeless(f, text, g1, g2);
      var merged := Spliced(text, FenceSpan(f, text).value, Text(f, g1), FenceSpan(f, Text(f, g1)).value);
      HeaderLinesOfText(f, g1);
      HeaderLinesOfText(f, g2);
      match HeaderLines(merged)
      case None =>
      case Some(lines) =>
        PutAllIsUpdated(DropBlank(lines), Gen(g1));
        PutAllIsUpdated(DropBlank(lines), Gen(g2));
        SameKeysEditable(Gen(g1), Gen(g2), DropBlank(lines));
    }
  }

  // ---- Stable files -----------------------------------------------------------------------------------

  /** The frontmatter closes above the fence. */
  ghost predicate StableNote(f: Fence, text: string, g: Note, section: string) {
    Mergeable(f, text, g) && section == g.inner
  }

  /** It does not, but neither the opening tag nor the time stamp gets in the way. */
  ghost predicate StableFrame(f: Fence, text: string, g: Note, section: string, y: Layout, inner: string) {
    && LayoutOk(f, y) && FreeOfFence(f, inner) && text == Framed(f, y, inner)
    && Fits(f, y, BodyLines(g), Gen(g)) && Pick(Gen(g), y.left + f.open).None? && !Stamped(y, BodyLines(g))
    && section == Boxed(NextBody(f, y, BodyLines(g), Gen(g)))
  }

  /** Every merge with a rendering of the note goes through and gives this section. */
  ghost predicate Stable(f: Fence, text: string, g: Note, section: string) {
    || StableNote(f, text, g, section)
    || exists y, inner :: StableFrame(f, text, g, section, y, inner)
  }

  ghost predicate StableResult(f: Fence, text: string, g: Note, section: string, merged: Result<string, Refusal>) {
    merged.Ok? && Stable(f, merged.value, g, section) && Section(f, merged.value) == Some(section)
  }

  lemma {:induction false} NoteMerges(f: Fence, text: string, g1: Note, g2: Note, s: nat)
    requires IsFence(f) && Kin(g1, g2, s) && NoteOk(f, g1) && NoteOk(f, g2) && StableNote(f, text, g1, g1.inner)
    ensures StableResult(f, text, g1, g1.inner, Merged(f, text, Text(f, g2)))
    ensures Merged(f, text, Text(f, g2)).Ok? ==>
              Merged(f, text, Text(f, g2)).value == Text(f, MergedNote(NoteOf(f, text).value, g2))
  {
    var e := NoteOf(f, text).value;
    TextOfNote(f, text);
    MergeableAnyTime(f, text, g1, g2);
    MergedIsNote(f, e, g2);
    MergedIsGood(f, e, g2, g1);
    MergedNoteOk(f, e, g2);
    SectionOfText(f, MergedNote(e, g2));
  }

  lemma {:induction false} FrameMerges(f: Fence, text: string, g1: Note, g2: Note, s: nat, section: string, y: Layout,
                                       inner: string)
    requires IsFence(f) && Kin(g1, g2, s) && NoteOk(f, g1) && NoteOk(f, g2)
             && StableFrame(f, text, g1, section, y, inner)
    ensures StableResult(f, text, g1, section, Merged(f, text, Text(f, g2)))
  {
    hide LayoutOk, BodyOk, FreeOfFence, Framed, Stamped, Editable, PlainLines, SameButStamp, Seen;
    var body, a, b := BodyLines(g1), Gen(g1), Gen(g2);
    BodyLinesOk(f, g2);
    KeysOfKin(g1, g2, s);
    FitsSameKeys(f, y, body, a, b);
    PickSameKeys(a, b, y.left + f.open);
    MergeOfFramed(f, y, inner, body, g2);
    ResultIsFramed(f, y, body, b);
    HeaderIsFree(f, g2);
    NextIsOk(f, y, body, b);
    var next, nextInner := NextLayout(f, y, body, b), Boxed(NextBody(f, y, body, b));
    BoxedIsFree(f, NextBody(f, y, body, b));
    SectionOfFramed(f, next, nextInner);
    FitsAgain(f, y, body, b, a);
    UnstampedBody(f, y, body, a, b, s);
    assert StableFrame(f, Framed(f, next, nextInner), g1, section, next, nextInner);
  }

  lemma KeysOfKin(g1: Note, g2: Note, s: nat)
    requires Kin(g1, g2, s)
    ensures SameKeys(Gen(g1), Gen(g2)) && SameKeys(Gen(g2), Gen(g1)) && BodyLines(g1) == BodyLines(g2)
  {
  }

  lemma HeaderIsFree(f: Fence, g: Note)
    requires NoteOk(f, g) && IsRendering(g)
    ensures LinesFree(f, Gen(g)) && PlainLines(Gen(g)) && Managed(Gen(g))
  {
  }

  lemma {:induction false} FitsSameKeys(f: Fence, y: Layout, body: seq<string>, a: seq<string>, b: seq<string>)
    requires SameKeys(a, b)
    ensures Fits(f, y, body, a) <==> Fits(f, y, body, b)
  {
    if Seen(f, y, body).Some? { SameKeysEditable(a, b, Seen(f, y, body).value); }
  }

  /** A stable file stays stable, whenever the note is rendered. */
  lemma {:induction false} StableMerges(f: Fence, text: string, g1: Note, g2: Note, s: nat, section: string)
    requires IsFence(f) && Kin(g1, g2, s) && NoteOk(f, g1) && NoteOk(f, g2) && Stable(f, text, g1, section)
    ensures StableResult(f, text, g1, section, Merged(f, text, Text(f, g2)))
  {
    if StableNote(f, text, g1, section) {
      NoteMerges(f, text, g1, g2, s);
    } else {
      var y, inner :| StableFrame(f, text, g1, section, y, inner);
      FrameMerges(f, text, g1, g2, s, section, y, inner);
    }
  }

  /** A first rendering without a fence of its own is stable; any other cannot be merged into. */
  lemma {:induction false} FirstIsStable(f: Fence, g1: Note, g2: Note, s: nat)
    requires IsFence(f) && Kin(g1, g2, s) && (NoteOk(f, g1) <==> NoteOk(f, g2))
    ensures NoteOk(f, g1) ==> Stable(f, Text(f, g2), g1, g1.inner) && Section(f, Text(f, g2)) == Some(g1.inner)
    ensures !NoteOk(f, g1) ==> FenceSpan(f, Text(f, g2)).None?
  {
    OneFenceIffOk(f, g2);
    if NoteOk(f, g1) {
      KinSym(g1, g2, s);
      WrittenIsGood(f, g2, g1);
      SectionOfText(f, g2);
    }
  }

  // ---- Text above the fence ---------------------------------------------------------------------------

  /** A file whose frontmatter closes above the fence, with no `<` above the fence. */
  ghost predicate PlainFront(f: Fence, text: string) {
    NoteOf(f, text).Some? && PlainNote(NoteOf(f, text).value)
  }

  ghost predicate PlainNote(e: Note) {
    '<' !in e.before && forall k | 0 <= k < |e.header| :: '<' !in e.header[k]
  }

  lemma {:induction false} PlainMerges(f: Fence, e: Note, g: Note)
    requires IsFence(f) && NoteOk(f, e) && NoteOk(f, g) && IsRendering(g) && PlainNote(e) && PlainNote(g)
    ensures PlainFront(f, Text(f, MergedNote(e, g)))
  {
    MergedNoteOk(f, e, g);
    NoteOfText(f, MergedNote(e, g));
    var lines, next := DropBlank(e.header), Updated(Gen(g), DropBlank(e.header));
    forall k | 0 <= k < |next| ensures '<' !in next[k] {
      UpdatedLine(Gen(g), lines, k);
      if next[k] in Gen(g) {
        var i :| 0 <= i < |g.header| && g.header[i] == next[k];
      } else {
        assert next[k] == e.header[k];
      }
    }
  }

  ghost predicate PlainStable(f: Fence, text: string, g: Note) {
    PlainFront(f, text) && StableNote(f, text, g, g.inner)
  }

  lemma {:induction false} PlainAgain(f: Fence, text: string, g1: Note, g2: Note, s: nat)
    requires IsFence(f) && Kin(g1, g2, s) && NoteOk(f, g1) && NoteOk(f, g2) && PlainNote(g2) && PlainStable(f, text, g1)
    ensures Merged(f, text, Text(f, g2)).Ok? && PlainStable(f, Merged(f, text, Text(f, g2)).value, g1)
  {
    var e := NoteOf(f, text).value;
    NoteMerges(f, text, g1, g2, s);
    TextOfNote(f, text);
    PlainMerges(f, e, g2);
    MergeableAnyTime(f, text, g1, g2);
    MergedIsGood(f, e, g2, g1);
  }

  lemma {:induction false} PlainFirst(f: Fence, g1: Note, g2: Note, s: nat)
    requires IsFence(f) && Kin(g1, g2, s) && NoteOk(f, g2) && PlainNote(g2)
    ensures PlainStable(f, Text(f, g2), g1)
  {
    KinSym(g1, g2, s);
    NoteOfText(f, g2);
    WrittenIsGood(f, g2, g1);
  }

  lemma {:induction false} PlainKin(g1: Note, g2: Note, s: nat)
    requires Kin(g1, g2, s) && PlainNote(g1) && '<' !in Gen(g2)[s] && '<' !in g2.before
    ensures PlainNote(g2)
  {
    forall k | 0 <= k < |g2.header| ensures '<' !in g2.header[k] { if k != s { assert Gen(g1)[k] == Gen(g2)[k]; } }
  }

  // ---- Which files are stable ---------------------------------------------------------------------------

  /**
   * What can be told from the file and the rendering, before anything is written: the frontmatter
   * closes above the fence; or it does not, but the line with the opening tag has no managed key,
   * and the line of the time stamp is not written inside the section.
   */
  predicate Remerges(f: Fence, text: string, g: Note)
    requires FenceSpan(f, text).Some?
  {
    NoteOf(f, text).Some?
      || (Pick(Gen(g), LayoutOf(f, text).left + f.open).None? && !Stamped(LayoutOf(f, text), BodyLines(g)))
  }

  lemma {:induction false} MergedHasFence(f: Fence, text: string, g: Note)
    requires IsFence(f) && HeaderShape(g.header) && Merged(f, text, Text(f, g)).Ok?
    ensures FenceSpan(f, text).Some? && NoteOk(f, g) && (NoteOf(f, text).None? ==> Split(text)[0] == RULE)
  {
    OneFenceIffOk(f, g);
    if NoteOf(f, text).None? && Split(text)[0] != RULE { NoRuleNoMerge(f, text, Text(f, g)); }
  }

  lemma {:induction false} FrameOfMerged(f: Fence, text: string, g: Note)
    requires IsFence(f) && IsRendering(g) && Merged(f, text, Text(f, g)).Ok? && NoteOf(f, text).None?
    ensures FenceSpan(f, text).Some? && Section(f, text).Some? && NoteOk(f, g)
    ensures var y := LayoutOf(f, text);
            && LayoutOk(f, y) && FreeOfFence(f, Section(f, text).value) && text == Framed(f, y, Section(f, text).value)
            && Fits(f, y, BodyLines(g), Gen(g))
            && Merged(f, text, Text(f, g)).value
               == Join([RULE] + Updated(Gen(g), Seen(f, y, BodyLines(g)).value) + Below(f, y, BodyLines(g)))
  {
    hide NoteOf, FenceSpan, LayoutOk, FreeOfFence;
    MergedHasFence(f, text, g);
    LayoutOfIs(f, text);
    BodyLinesOk(f, g);
    MergeOfFramed(f, LayoutOf(f, text), Section(f, text).value, BodyLines(g), g);
  }

  lemma {:induction false} RemergesIsStable(f: Fence, text: string, g: Note, s: nat)
    requires IsFence(f) && Kin(g, g, s) && Merged(f, text, Text(f, g)).Ok?
    requires FenceSpan(f, text).Some? && Remerges(f, text, g)
    ensures var merged := Merged(f, text, Text(f, g)).value;
            Section(f, merged).Some? && Stable(f, text, g, Section(f, merged).value)
    ensures NoteOf(f, text).Some? ==> Section(f, Merged(f, text, Text(f, g)).value) == Some(g.inner)
  {
    MergedHasFence(f, text, g);
    if NoteOf(f, text).Some? {
      MergeDecides(f, text, g);
      NoteMerges(f, text, g, g, s);
    } else {
      FrameOfMerged(f, text, g);
      FrameIsStable(f, text, g, s, LayoutOf(f, text), Section(f, text).value);
    }
  }

  lemma {:induction false} FrameIsStable(f: Fence, text: string, g: Note, s: nat, y: Layout, inner: string)
    requires IsFence(f) && Kin(g, g, s) && NoteOk(f, g) && LayoutOk(f, y) && FreeOfFence(f, inner)
             && text == Framed(f, y, inner)
    requires Fits(f, y, BodyLines(g), Gen(g)) && Pick(Gen(g), y.left + f.open).None? && !Stamped(y, BodyLines(g))
    ensures var merged := Merged(f, text, Text(f, g));
            merged.Ok? && Section(f, merged.value).Some? && Stable(f, text, g, Section(f, merged.value).value)
  {
    var section := Boxed(NextBody(f, y, BodyLines(g), Gen(g)));
    assert StableFrame(f, text, g, section, y, inner);
    FrameMerges(f, text, g, g, s, section, y, inner);
  }

  /** Otherwise either the tag is lost, or passes at different times leave different sections. */
  lemma {:induction false} UnstableMerges(f: Fence, text: string, g1: Note, g2: Note, s: nat)
    requires IsFence(f) && Kin(g1, g2, s) && NoteOk(f, g1) && NoteOk(f, g2)
    requires Merged(f, text, Text(f, g1)).Ok? && Merged(f, text, Text(f, g2)).Ok?
    requires FenceSpan(f, text).Some? && !Remerges(f, text, g1)
    ensures var m1, m2 := Merged(f, text, Text(f, g1)).value, Merged(f, text, Text(f, g2)).value;
            if Pick(Gen(g1), LayoutOf(f, text).left + f.open).Some? then FenceSpan(f, m2).None?
            else Gen(g1)[s] != Gen(g2)[s] ==> Section(f, m1) != Section(f, m2)
  {
    hide LayoutOk, FreeOfFence, Framed, Stamped, Editable, Fits, Seen, FenceSpan, NoteOf, LayoutOf;
    var y, body, a, b := LayoutOf(f, text), BodyLines(g1), Gen(g1), Gen(g2);
    KeysOfKin(g1, g2, s);
    BodyLinesOk(f, g1);
    FrameOfMerged(f, text, g1);
    FrameOfMerged(f, text, g2);
    PickSameKeys(a, b, y.left + f.open);
    HeaderIsFree(f, g1);
    HeaderIsFree(f, g2);
    SeenOfFits(f, y, body, a);
    if Pick(a, y.left + f.open).Some? {
      OpenTagIsLost(f, y, body, b);
    } else if a[s] != b[s] {
      StampedBody(f, y, body, a, b, s);
      SectionOfResult(f, y, body, a);
      SectionOfResult(f, y, body, b);
      NextIsOk(f, y, body, a);
      NextIsOk(f, y, body, b);
      BoxedIsInjective(NextBody(f, y, body, a), NextBody(f, y, body, b));
    }
  }

  lemma SeenOfFits(f: Fence, y: Layout, body: seq<string>, gen: seq<string>)
    requires Fits(f, y, body, gen)
    ensures Seen(f, y, body).Some?
  {
  }

  lemma {:induction false} SectionOfResult(f: Fence, y: Layout, body: seq<string>, gen: seq<string>)
    requires IsFence(f) && LayoutOk(f, y) && BodyOk(f, body) && Managed(gen) && PlainLines(gen) && LinesFree(f, gen)
    requires Seen(f, y, body).Some? && Pick(gen, y.left + f.open).None?
    ensures Section(f, Join([RULE] + Updated(gen, Seen(f, y, body).value) + Below(f, y, body)))
            == Some(Boxed(NextBody(f, y, body, gen)))
  {
    ResultIsFramed(f, y, body, gen);
    NextIsOk(f, y, body, gen);
    BoxedIsFree(f, NextBody(f, y, body, gen));
    SectionOfFramed(f, NextLayout(f, y, body, gen), Boxed(NextBody(f, y, body, gen)));
  }

  // ---- Files that are not ------------------------------------------------------------------------------

  /** A file that starts with a managed line holding the opening tag. */
  const TAG_ON_LINE := Layout([], "title: ", "", [RULE])

  /** A file whose frontmatter has no time stamp and is still open at the fence. */
  const OPEN_FRONT := Layout([], "", "", [])

  lemma {:induction false} LayoutsAreOk(f: Fence)
    requires IsFence(f)
    ensures LayoutOk(f, TAG_ON_LINE) && LayoutOk(f, OPEN_FRONT)
  {
    NoAngle("", f.open);
    NoAngle("", f.close);
    NoAngle("title: ", f.open);
    NoAngle("title: ", f.close);
    NoAngle(RULE, f.open);
    NoAngle(RULE, f.close);
  }

  lemma {:induction false} OneHit(gen: seq<string>, a: string, body: seq<string>, b: string)
    requires forall k, i | 0 <= k < |gen| && 0 <= i < |body| :: !Hits(body[i], gen[k])
    requires (forall i | 0 <= i < |body| :: !Indented(body[i])) && forall k | 0 <= k < |gen| :: !Hits(b, gen[k])
    requires !Indented(b)
    ensures Editable(gen, [a] + body + [b])
  {
    var lines := [a] + body + [b];
    forall k | 0 <= k < |gen| ensures EditableAt(lines, gen[k]) {
      forall i | 1 <= i < |lines| ensures !Hits(lines[i], gen[k]) && !Indented(lines[i]) {
        if i <= |body| { assert lines[i] == body[i - 1]; }
      }
    }
  }

  /** The merge into a file with the opening tag on its title line goes through and loses the tag. */
  lemma {:induction false} TitleLineLosesTag(f: Fence, g: Note, k: nat)
    requires IsFence(f) && IsRendering(g) && NoteOk(f, g) && k < |Gen(g)| && KeyOf(Gen(g)[k]) == "title"
    requires BodyLines(g) == ["x"]
    ensures var text := Framed(f, TAG_ON_LINE, "\nold\n");
            Merged(f, text, Text(f, g)).Ok? && FenceSpan(f, Merged(f, text, Text(f, g)).value).None?
  {
    var y, gen, body := TAG_ON_LINE, Gen(g), ["x"];
    LayoutsAreOk(f);
    NoAngle("\nold\n", f.open);
    NoAngle("\nold\n", f.close);
    BodyLinesOk(f, g);
    HeaderIsFree(f, g);
    var lo, cr := "title: " + f.open, f.close + "";
    assert lo[..6] == "title:";
    PickHit(gen, lo, k);
    forall j | 0 <= j < |gen| ensures !Hits("x", gen[j]) && !Hits(cr, gen[j]) {
      HitsIsSameKey("x", gen[j]);
      AngleIsNoKey(cr, gen[j]);
    }
    OneHit(gen, lo, body, cr);
    assert Closing(body, 0).None? && Closing(y.rest, 0) == Some(0);
    assert y.rest[..0] == [] && y.top + [lo] + body + [cr] + [] == [lo] + body + [cr];
    MergeOfFramed(f, y, "\nold\n", body, g);
    OpenTagIsLost(f, y, body, gen);
  }

  /** Where the body holds a rule, the merge into an open frontmatter writes the time stamp into the section. */
  lemma {:induction false} RuleTakesStamp(f: Fence, g: Note)
    requires IsFence(f) && IsRendering(g) && NoteOk(f, g) && BodyLines(g) == [RULE]
    ensures Merged(f, Framed(f, OPEN_FRONT, "\nold\n"), Text(f, g)).Ok? && Stamped(OPEN_FRONT, BodyLines(g))
  {
    var y, gen, body := OPEN_FRONT, Gen(g), [RULE];
    LayoutsAreOk(f);
    NoAngle("\nold\n", f.open);
    NoAngle("\nold\n", f.close);
    BodyLinesOk(f, g);
    HeaderIsFree(f, g);
    assert Closing(body, 0) == Some(0);
    assert body[..0] == [] && y.top + ["" + f.open] + [] == ["" + f.open];
    MergeOfFramed(f, y, "\nold\n", body, g);
  }
}
