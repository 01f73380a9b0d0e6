/**
 * A vault note as text (packages/apple-notes/fulcra_apple_notes/render.py): frontmatter, the
 * user's own text, and one owner-fenced section.
 */
module NoteText {
  import opened Wrappers
  import opened TextLines

  datatype Fence = Fence(open: string, close: string)

  const OWNER := "fulcra-collect/apple-notes"
  const SECTION_SLUG := "apple-note"
  const OWNER_FENCE := Fence("<!-- section:" + SECTION_SLUG + " owner:" + OWNER + " -->",
                             "<!-- /section:" + SECTION_SLUG + " -->")

  predicate IsFence(f: Fence) {
    IsTag(f.open) && IsTag(f.close) && f.open != f.close
  }

  lemma TagOf(pat: string)
    requires |pat| >= 2 && pat[0] == '<' && pat[|pat| - 1] == '>'
    requires forall i | 1 <= i < |pat| - 1 :: pat[i] != '<' && pat[i] != '>' && pat[i] != '\n'
    ensures IsTag(pat)
  {
  }

  lemma {:induction false} OpenFenceIsTag()
    ensures IsTag(OWNER_FENCE.open)
  {
    TagOf(OWNER_FENCE.open);
  }

  lemma {:induction false} CloseFenceIsTag()
    ensures IsTag(OWNER_FENCE.close)
  {
    TagOf(OWNER_FENCE.close);
  }

  lemma {:induction false} OwnerFence()
    ensures IsFence(OWNER_FENCE)
  {
    OpenFenceIsTag();
    CloseFenceIsTag();
    assert OWNER_FENCE.open[5] == 's' && OWNER_FENCE.close[5] == '/';
  }

  // ---- Searching ------------------------------------------------------------------------------

  /** `text.find(pat, from)`. */
  function Find(text: string, pat: string, from: nat): Option<nat>
    decreases |text| - from
  {
    if from + |pat| > |text| then None
    else if OccursAt(text, pat, from) then Some(from)
    else Find(text, pat, from + 1)
  }

  lemma {:induction false} FindIsFirst(text: string, pat: string, from: nat)
    ensures match Find(text, pat, from)
            case None => forall i | from <= i :: !OccursAt(text, pat, i)
            case Some(i) => from <= i && OccursAt(text, pat, i) && forall j | from <= j < i :: !OccursAt(text, pat, j)
    decreases |text| - from
  {
    if from + |pat| <= |text| && !OccursAt(text, pat, from) { FindIsFirst(text, pat, from + 1); }
  }

  /** The index of `pat` when `text.count(pat) == 1`; the count skips overlapping matches. */
  function Only(text: string, pat: string): Option<nat> {
    match Find(text, pat, 0)
    case None => None
    case Some(i) => if Find(text, pat, i + |pat|).None? then Some(i) else None
  }

  /** Two tags in one text are the same occurrence or do not overlap. */
  lemma {:induction false} TagsApart(text: string, a: string, b: string, i: int, j: int)
    requires IsTag(a) && IsTag(b) && OccursAt(text, a, i) && OccursAt(text, b, j) && i <= j
    ensures i + |a| <= j || (i == j && a == b)
  {
    if j < i + |a| {
      assert SameAt(text, a, i, j - i) && SameAt(text, b, j, 0);
      assert i == j;
      var last := if |a| < |b| then |a| - 1 else |b| - 1;
      assert SameAt(text, a, i, last) && SameAt(text, b, i, last);
      forall k | 0 <= k < |a| ensures a[k] == b[k] { assert SameAt(text, a, i, k) && SameAt(text, b, i, k); }
      assert a == b;
    }
  }

  lemma {:induction false} OnlyIsOnce(text: string, pat: string, i: int)
    requires IsTag(pat)
    ensures Only(text, pat) == Some(i) <==> OnceAt(text, pat, i)
  {
    FindIsFirst(text, pat, 0);
    match Find(text, pat, 0)
    case None =>
    case Some(k) =>
      FindIsFirst(text, pat, k + |pat|);
      forall j | OccursAt(text, pat, j) && j > k ensures k + |pat| <= j { TagsApart(text, pat, pat, k, j); }
  }

  datatype Span = Span(start: nat, end: nat)

  /** The owner-fenced section, when there is exactly one pair and it is in order. */
  function FenceSpan(f: Fence, text: string): (span: Option<Span>)
    ensures span.Some? ==> span.value.start <= span.value.end <= |text|
  {
    match (Only(text, f.open), Only(text, f.close))
    case (Some(i), Some(j)) =>
      (FindIsFirst(text, f.close, 0); if i <= j then Some(Span(i, j + |f.close|)) else None)
    case _ => None
  }

  lemma {:induction false} FenceSpanIs(f: Fence, text: string, i: nat, j: nat)
    requires IsFence(f) && OnceAt(text, f.open, i) && OnceAt(text, f.close, j) && i <= j
    ensures FenceSpan(f, text) == Some(Span(i, j + |f.close|))
  {
    OnlyIsOnce(text, f.open, i);
    OnlyIsOnce(text, f.close, j);
  }

  lemma {:induction false} FenceSpanOnce(f: Fence, text: string)
    requires IsFence(f) && FenceSpan(f, text).Some?
    ensures var s := FenceSpan(f, text).value;
            && s.start + |f.open| + |f.close| <= s.end
            && OnceAt(text, f.open, s.start) && OnceAt(text, f.close, s.end - |f.close|)
  {
    var s := FenceSpan(f, text).value;
    OnlyIsOnce(text, f.open, s.start);
    OnlyIsOnce(text, f.close, s.end - |f.close|);
    TagsApart(text, f.open, f.close, s.start, s.end - |f.close|);
  }

  // ---- Frontmatter ----------------------------------------------------------------------------

  const RULE := "---"

  /** The line that closes the frontmatter: the first `---` after at least one line. */
  function Closing(lines: seq<string>, from: nat): (j: Option<nat>)
    ensures j.Some? ==> from <= j.value < |lines|
    decreases |lines| - from
  {
    if from >= |lines| then None else if lines[from] == RULE then Some(from) else Closing(lines, from + 1)
  }

  /** `re.match(r"\A---\n(.*?)\n---(?:\n|$)", text, re.S)`, by its closing line. */
  function HeaderEnd(text: string): (j: Option<nat>)
    ensures j.Some? ==> 2 <= j.value < |Split(text)|
  {
    if Split(text)[0] == RULE then Closing(Split(text), 2) else None
  }

  lemma {:induction false} ClosingIs(lines: seq<string>, from: nat, j: nat)
    requires from <= j < |lines| && lines[j] == RULE && forall k | from <= k < j :: lines[k] != RULE
    ensures Closing(lines, from) == Some(j)
    decreases j - from
  {
    if from < j { ClosingIs(lines, from + 1, j); }
  }

  lemma {:induction false} ClosingIsFirst(lines: seq<string>, from: nat)
    requires Closing(lines, from).Some?
    ensures var j := Closing(lines, from).value; lines[j] == RULE && forall k | from <= k < j :: lines[k] != RULE
    decreases |lines| - from
  {
    if lines[from] != RULE { ClosingIsFirst(lines, from + 1); }
  }

  // ---- Notes ----------------------------------------------------------------------------------

  /** A note whose frontmatter closes before its fence, cut at the fence. */
  datatype Note = Note(header: seq<string>, before: string, inner: string, after: string)

  ghost predicate FreeOfFence(f: Fence, s: string) {
    Free(s, f.open) && Free(s, f.close)
  }

  predicate HeaderShape(header: seq<string>) {
    |header| > 0 && OneLiners(header) && forall k | 1 <= k < |header| :: header[k] != RULE
  }

  ghost predicate LinesFree(f: Fence, lines: seq<string>) {
    forall k | 0 <= k < |lines| :: FreeOfFence(f, lines[k])
  }

  ghost predicate NoteOk(f: Fence, n: Note) {
    && HeaderShape(n.header) && LinesFree(f, n.header)
    && FreeOfFence(f, n.before) && FreeOfFence(f, n.inner) && FreeOfFence(f, n.after)
  }

  function Head(header: seq<string>): string {
    Join([RULE] + header + [RULE]) + "\n"
  }

  function Owned(f: Fence, inner: string): string {
    f.open + inner + f.close
  }

  function Text(f: Fence, n: Note): string {
    Head(n.header) + n.before + Owned(f, n.inner) + n.after
  }

  function FenceOf(f: Fence, n: Note): Span {
    var start := |Head(n.header) + n.before|;
    Span(start, start + |Owned(f, n.inner)|)
  }

  lemma {:induction false} TagsDiffer(f: Fence)
    requires IsFence(f)
    ensures Free(f.open, f.close) && Free(f.close, f.open)
    ensures OnceAt(f.open, f.open, 0) && OnceAt(f.close, f.close, 0)
  {
    assert f.open[0..|f.open|] == f.open && f.close[0..|f.close|] == f.close;
    forall i ensures !OccursAt(f.open, f.close, i) {
      if OccursAt(f.open, f.close, i) { TagsApart(f.open, f.open, f.close, 0, i); }
    }
    forall i ensures !OccursAt(f.close, f.open, i) {
      if OccursAt(f.close, f.open, i) { TagsApart(f.close, f.close, f.open, 0, i); }
    }
  }

  lemma {:induction false} OwnedHasFence(f: Fence, inner: string)
    requires IsFence(f) && FreeOfFence(f, inner)
    ensures OnceAt(Owned(f, inner), f.open, 0)
    ensures OnceAt(Owned(f, inner), f.close, |f.open| + |inner|)
  {
    TagsDiffer(f);
    FreeAcross(inner, f.close, f.open);
    OnceLeft(f.open, inner + f.close, f.open, 0);
    assert f.open + (inner + f.close) == Owned(f, inner);
    FreeAcross(f.open, inner, f.close);
    OnceRight(f.open + inner, f.close, f.close, 0);
  }

  lemma {:induction false} HeadFreeOf(pat: string, header: seq<string>)
    requires IsTag(pat) && forall k | 0 <= k < |header| :: Free(header[k], pat)
    ensures Free(Head(header), pat)
  {
    var lines := [RULE] + header + [RULE];
    NoAngle(RULE, pat);
    NoAngle("\n", pat);
    FreeLines(lines, pat);
    FreeAcross(Join(lines), "\n", pat);
  }

  lemma {:induction false} HeadFree(f: Fence, header: seq<string>)
    requires IsFence(f) && LinesFree(f, header)
    ensures FreeOfFence(f, Head(header))
  {
    HeadFreeOf(f.open, header);
    HeadFreeOf(f.close, header);
  }

  lemma {:induction false} OnceInMiddle(a: string, o: string, b: string, pat: string, p: int)
    requires IsTag(pat) && OnceAt(o, pat, p) && Free(a, pat) && Free(b, pat)
    requires Seam(a, o) && Seam(a + o, b)
    ensures OnceAt(a + o + b, pat, |a| + p)
  {
    OnceRight(a, o, pat, p);
    OnceLeft(a + o, b, pat, |a| + p);
  }

  lemma {:induction false} SeamsOwned(f: Fence, a: string, inner: string, b: string)
    requires IsFence(f)
    ensures Seam(a, Owned(f, inner)) && Seam(a + Owned(f, inner), b)
  {
    var o := Owned(f, inner);
    assert o[0] == '<' && o[|o| - 1] == '>' && (a + o)[|a + o| - 1] == '>';
  }

  lemma {:induction false} FenceInMiddle(f: Fence, a: string, inner: string, b: string)
    requires IsFence(f) && FreeOfFence(f, a) && FreeOfFence(f, inner) && FreeOfFence(f, b)
    ensures FenceSpan(f, a + Owned(f, inner) + b) == Some(Span(|a|, |a| + |Owned(f, inner)|))
  {
    var o := Owned(f, inner);
    OwnedHasFence(f, inner);
    SeamsOwned(f, a, inner, b);
    OnceInMiddle(a, o, b, f.open, 0);
    OnceInMiddle(a, o, b, f.close, |f.open| + |inner|);
    FenceSpanIs(f, a + o + b, |a|, |a| + |f.open| + |inner|);
  }

  /** In the text of a note each half of the fence stands exactly once, in order. */
  lemma {:induction false} FenceOfText(f: Fence, n: Note)
    requires IsFence(f) && NoteOk(f, n)
    ensures FenceSpan(f, Text(f, n)) == Some(FenceOf(f, n))
  {
    var head := Head(n.header);
    var a, o := head + n.before, Owned(f, n.inner);
    HeadFree(f, n.header);
    FreeAcross(head, n.before, f.open);
    FreeAcross(head, n.before, f.close);
    FenceInMiddle(f, a, n.inner, n.after);
  }

  lemma {:induction false} HeadSplit(header: seq<string>, rest: string)
    requires OneLiners(header)
    ensures Split(Head(header) + rest) == [RULE] + header + [RULE] + Split(rest)
  {
    var top := [RULE] + header + [RULE];
    JoinSplit(rest);
    SplitIsOneLiners(rest);
    JoinConcat(top, Split(rest));
    assert Head(header) + rest == Join(top) + "\n" + Join(Split(rest));
    assert OneLiners(top + Split(rest));
    SplitJoin(top + Split(rest));
  }

  lemma {:induction false} HeaderOfHead(header: seq<string>, rest: string)
    requires HeaderShape(header)
    ensures HeaderEnd(Head(header) + rest) == Some(|header| + 1)
    ensures Split(Head(header) + rest)[1..|header| + 1] == header
    ensures Split(Head(header) + rest)[|header| + 1..] == [RULE] + Split(rest)
  {
    HeadSplit(header, rest);
    var lines := [RULE] + header + [RULE] + Split(rest);
    ClosingIs(lines, 2, |header| + 1);
  }

  /** The header of a note, and what follows it. */
  lemma {:induction false} HeaderOfText(f: Fence, n: Note)
    requires HeaderShape(n.header)
    ensures var rest := n.before + Owned(f, n.inner) + n.after;
            && Text(f, n) == Head(n.header) + rest
            && HeaderEnd(Text(f, n)) == Some(|n.header| + 1)
            && Split(Text(f, n))[1..|n.header| + 1] == n.header
            && Split(Text(f, n))[|n.header| + 1..] == [RULE] + Split(rest)
  {
    var rest := n.before + Owned(f, n.inner) + n.after;
    assert Text(f, n) == Head(n.header) + rest;
    HeaderOfHead(n.header, rest);
  }

  /** Cut a text into a note: None when the fence pair is missing or ambiguous, or the frontmatter does
   * not close before it. */
  function NoteOf(f: Fence, text: string): Option<Note> {
    match (HeaderEnd(text), FenceSpan(f, text))
    case (Some(j), Some(s)) =>
      var header := Split(text)[1..j];
      var h := |Head(header)|;
      if h <= s.start && s.start + |f.open| + |f.close| <= s.end then
        Some(Note(header, text[h..s.start], text[s.start + |f.open|..s.end - |f.close|], text[s.end..]))
      else None
    case _ => None
  }

  /** `n` is `text` cut at `h` and around the fence `s`. */
  predicate Cut(f: Fence, n: Note, text: string, h: nat, s: Span) {
    && h <= s.start && s.start + |f.open| + |f.close| <= s.end <= |text|
    && text[..h] == Head(n.header) && text[h..s.start] == n.before
    && text[s.start + |f.open|..s.end - |f.close|] == n.inner && text[s.end..] == n.after
  }

  lemma {:induction false} InnerOfText(f: Fence, n: Note)
    ensures var s := FenceOf(f, n); Text(f, n)[s.start + |f.open|..s.end - |f.close|] == n.inner
  {
    var text, s, o := Text(f, n), FenceOf(f, n), Owned(f, n.inner);
    assert text[s.start..s.end] == o;
    SliceOfSlice(text, s.start, s.end, |f.open|, |o| - |f.close|);
    assert o[|f.open|..|o| - |f.close|] == n.inner;
  }

  lemma {:induction false} CutOfText(f: Fence, n: Note)
    ensures Cut(f, n, Text(f, n), |Head(n.header)|, FenceOf(f, n))
  {
    InnerOfText(f, n);
  }

  lemma NoteOfCut(f: Fence, n: Note, text: string, s: Span)
    requires HeaderEnd(text) == Some(|n.header| + 1) && Split(text)[1..|n.header| + 1] == n.header
    requires FenceSpan(f, text) == Some(s) && Cut(f, n, text, |Head(n.header)|, s)
    ensures NoteOf(f, text) == Some(n)
  {
  }

  lemma {:induction false} NoteOfText(f: Fence, n: Note)
    requires IsFence(f) && NoteOk(f, n)
    ensures NoteOf(f, Text(f, n)) == Some(n)
  {
    FenceOfText(f, n);
    HeaderOfText(f, n);
    CutOfText(f, n);
    NoteOfCut(f, n, Text(f, n), FenceOf(f, n));
  }

  lemma {:induction false} FreeSlice(text: string, pat: string, p: int, lo: nat, hi: nat)
    requires OnceAt(text, pat, p) && lo <= hi <= |text| && !(lo <= p && p + |pat| <= hi)
    ensures Free(text[lo..hi], pat)
  {
    forall i ensures !OccursAt(text[lo..hi], pat, i) {
      if OccursAt(text[lo..hi], pat, i) {
        SliceOfSlice(text, lo, hi, i, i + |pat|);
        OccursMoved(text[lo..hi], text, pat, i, lo + i);
      }
    }
  }

  lemma {:induction false} HeadOfText(text: string)
    requires HeaderEnd(text).Some?
    ensures var j := HeaderEnd(text).value; var header := Split(text)[1..j];
            && HeaderShape(header) && Join([RULE] + header + [RULE]) <= text
            && (|Head(header)| <= |text| ==> Head(header) <= text)
  {
    var j, lines := HeaderEnd(text).value, Split(text);
    var header := lines[1..j];
    ClosingIsFirst(lines, 2);
    SplitIsOneLiners(text);
    JoinSplit(text);
    var top := [RULE] + header + [RULE];
    assert lines[..j + 1] == top;
    if j + 1 < |lines| {
      JoinConcat(top, lines[j + 1..]);
      assert top + lines[j + 1..] == lines;
    } else {
      assert top == lines;
    }
  }

  lemma {:induction false} TextOfCut(f: Fence, n: Note, text: string, h: nat, s: Span)
    requires Cut(f, n, text, h, s)
    requires text[s.start..s.start + |f.open|] == f.open && text[s.end - |f.close|..s.end] == f.close
    ensures Text(f, n) == text
  {
    var b, c, d, e := s.start, s.start + |f.open|, s.end - |f.close|, s.end;
    assert text[b..e] == Owned(f, n.inner) by { assert text[b..e] == text[b..c] + text[c..d] + text[d..e]; }
    assert text == text[..h] + text[h..b] + text[b..e] + text[e..];
  }

  lemma {:induction false} CutOfNote(f: Fence, n: Note, text: string)
    requires NoteOf(f, text) == Some(n)
    ensures Cut(f, n, text, |Head(n.header)|, FenceSpan(f, text).value)
  {
    HeadOfText(text);
  }

  /** The cut loses nothing. */
  lemma {:induction false} TextOfNote(f: Fence, text: string)
    requires IsFence(f) && NoteOf(f, text).Some?
    ensures NoteOk(f, NoteOf(f, text).value) && Text(f, NoteOf(f, text).value) == text
  {
    hide NoteOk, Text, Head, Owned, HeaderShape, HeaderEnd, Free, FreeOfFence;
    var n, s := NoteOf(f, text).value, FenceSpan(f, text).value;
    NoteOfIsOk(f, text, n, s);
    CutOfNote(f, n, text);
    FenceSpanOnce(f, text);
    OccursSlice(text, f.open, s.start);
    OccursSlice(text, f.close, s.end - |f.close|);
    TextOfCut(f, n, text, |Head(n.header)|, s);
  }

  lemma {:induction false} NoteOfIsOk(f: Fence, text: string, n: Note, s: Span)
    requires IsFence(f) && NoteOf(f, text) == Some(n) && FenceSpan(f, text) == Some(s)
    ensures NoteOk(f, n)
  {
    var h := |Head(n.header)|;
    HeadOfText(text);
    FenceSpanOnce(f, text);
    PartsFree(f, text, f.open, s.start, h, s);
    PartsFree(f, text, f.close, s.end - |f.close|, h, s);
    assert text[..h] == Head(n.header);
    HeaderLinesFree(f.open, n.header, text[..h]);
    HeaderLinesFree(f.close, n.header, text[..h]);
  }

  lemma {:induction false} PartsFree(f: Fence, text: string, pat: string, p: int, h: nat, s: Span)
    requires IsFence(f) && pat in {f.open, f.close} && OnceAt(text, pat, p)
    requires h <= s.start && s.start + |f.open| + |f.close| <= s.end <= |text|
    requires p == if pat == f.open then s.start else s.end - |f.close|
    ensures Free(text[..h], pat) && Free(text[h..s.start], pat)
    ensures Free(text[s.start + |f.open|..s.end - |f.close|], pat) && Free(text[s.end..], pat)
  {
    FreeSlice(text, pat, p, 0, h);
    FreeSlice(text, pat, p, h, s.start);
    FreeSlice(text, pat, p, s.start + |f.open|, s.end - |f.close|);
    FreeSlice(text, pat, p, s.end, |text|);
    assert text[s.end..|text|] == text[s.end..] && text[0..h] == text[..h];
  }

  lemma {:induction false} HeaderLinesFree(pat: string, header: seq<string>, head: string)
    requires IsTag(pat) && head == Head(header) && Free(head, pat)
    ensures forall k | 0 <= k < |header| :: Free(header[k], pat)
  {
    var lines := [RULE] + header + [RULE];
    FreeAcross(Join(lines), "\n", pat);
    FreeLines(lines, pat);
    assert forall k | 0 <= k < |header| :: lines[k + 1] == header[k];
  }

  /** What stands between the halves of the fence, when there is one ordered pair. */
  function Section(f: Fence, text: string): Option<string> {
    match FenceSpan(f, text)
    case None => None
    case Some(s) =>
      if s.start + |f.open| + |f.close| <= s.end then Some(text[s.start + |f.open|..s.end - |f.close|]) else None
  }

  lemma {:induction false} SectionInMiddle(f: Fence, a: string, inner: string, b: string)
    requires IsFence(f) && FreeOfFence(f, a) && FreeOfFence(f, inner) && FreeOfFence(f, b)
    ensures Section(f, a + Owned(f, inner) + b) == Some(inner)
  {
    var o, text := Owned(f, inner), a + Owned(f, inner) + b;
    FenceInMiddle(f, a, inner, b);
    assert text[|a|..|a| + |o|] == o;
    SliceOfSlice(text, |a|, |a| + |o|, |f.open|, |o| - |f.close|);
    assert o[|f.open|..|o| - |f.close|] == inner;
  }

  lemma {:induction false} SectionOfText(f: Fence, n: Note)
    requires IsFence(f) && NoteOk(f, n)
    ensures Section(f, Text(f, n)) == Some(n.inner)
  {
    FenceOfText(f, n);
    InnerOfText(f, n);
  }
}
