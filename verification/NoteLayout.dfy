/**
 * `merge_note` on a vault file whose frontmatter does not close before the fence
 * (packages/apple-notes/fulcra_apple_notes/render.py): the fence then lies inside the frontmatter,
 * or the frontmatter closes inside the generated body.
 */
module NoteLayout {
  import opened Wrappers
  import opened TextLines
  import opened NoteHeader
  import opened NoteText
  import opened NoteMerge

  /**
   * The lines around the fence, below the first rule: whole lines above it, the text left of its
   * opening and right of its closing tag, whole lines below it.
   */
  datatype Layout = Layout(top: seq<string>, left: string, right: string, rest: seq<string>)

  function FrontOf(y: Layout): string {
    Join([RULE] + y.top + [y.left])
  }

  function BackOf(y: Layout): string {
    Join([y.right] + y.rest)
  }

  function Framed(f: Fence, y: Layout, inner: string): string {
    FrontOf(y) + Owned(f, inner) + BackOf(y)
  }

  /** The lines of a file whose section holds the lines `body`. */
  function Lines(f: Fence, y: Layout, body: seq<string>): seq<string> {
    y.top + [y.left + f.open] + body + [f.close + y.right] + y.rest
  }

  function LayoutText(f: Fence, y: Layout, body: seq<string>): string {
    Join([RULE] + Lines(f, y, body))
  }

  function Boxed(body: seq<string>): string {
    "\n" + Join(body) + "\n"
  }

  ghost predicate LayoutOk(f: Fence, y: Layout) {
    && OneLiners(y.top) && OneLiners(y.rest) && OneLine(y.left) && OneLine(y.right)
    && LinesFree(f, y.top) && LinesFree(f, y.rest) && FreeOfFence(f, y.left) && FreeOfFence(f, y.right)
    && forall k | 1 <= k < |y.top| :: y.top[k] != RULE
  }

  ghost predicate BodyOk(f: Fence, body: seq<string>) {
    body != [] && OneLiners(body) && LinesFree(f, body)
  }

  // ---- Lines and text -----------------------------------------------------------------------------

  lemma {:induction false} JoinAppend(lines: seq<string>, last: string, s: string)
    ensures Join(lines + [last]) + s == Join(lines + [last + s])
  {
    if lines == [] {
      assert [] + [last] == [last] && [] + [last + s] == [last + s];
    } else {
      JoinConcat(lines, [last]);
      JoinConcat(lines, [last + s]);
    }
  }

  lemma {:induction false} JoinPrepend(s: string, first: string, lines: seq<string>)
    ensures s + Join([first] + lines) == Join([s + first] + lines)
  {
    if lines != [] {
      JoinConcat([first], lines);
      JoinConcat([s + first], lines);
    } else {
      assert [first] + [] == [first] && [s + first] + [] == [s + first];
    }
  }

  lemma {:induction false} FramedIsLines(f: Fence, y: Layout, body: seq<string>)
    requires body != []
    ensures Framed(f, y, Boxed(body)) == LayoutText(f, y, body)
  {
    var up, down := [RULE] + y.top + [y.left + f.open], [f.close + y.right] + y.rest;
    JoinAppend([RULE] + y.top, y.left, f.open);
    JoinPrepend(f.close, y.right, y.rest);
    JoinConcat(up, body);
    JoinConcat(up + body, down);
    assert [RULE] + Lines(f, y, body) == up + body + down;
    Spread(FrontOf(y), f.open, Join(body), f.close, BackOf(y));
  }

  lemma Spread(a: string, open: string, body: string, close: string, b: string)
    ensures a + (open + ("\n" + body + "\n") + close) + b == (a + open) + "\n" + body + "\n" + (close + b)
  {
  }

  lemma {:induction false} PartsAreFree(f: Fence, y: Layout)
    requires IsFence(f) && LayoutOk(f, y)
    ensures FreeOfFence(f, FrontOf(y)) && FreeOfFence(f, BackOf(y))
  {
    PartsFreeOf(f, y, f.open);
    PartsFreeOf(f, y, f.close);
  }

  lemma {:induction false} PartsFreeOf(f: Fence, y: Layout, pat: string)
    requires IsFence(f) && LayoutOk(f, y) && pat in {f.open, f.close}
    ensures Free(FrontOf(y), pat) && Free(BackOf(y), pat)
  {
    NoAngle(RULE, pat);
    var up, down := [RULE] + y.top + [y.left], [y.right] + y.rest;
    forall k | 0 <= k < |up| ensures Free(up[k], pat) {
      if 1 <= k <= |y.top| { assert up[k] == y.top[k - 1]; }
    }
    forall k | 0 <= k < |down| ensures Free(down[k], pat) {
      if 1 <= k { assert down[k] == y.rest[k - 1]; }
    }
    FreeLines(up, pat);
    FreeLines(down, pat);
  }

  lemma {:induction false} BoxedIsFree(f: Fence, body: seq<string>)
    requires IsFence(f) && BodyOk(f, body)
    ensures FreeOfFence(f, Boxed(body))
  {
    BoxedFreeOf(body, f.open);
    BoxedFreeOf(body, f.close);
  }

  lemma {:induction false} BoxedFreeOf(body: seq<string>, pat: string)
    requires IsTag(pat) && forall k | 0 <= k < |body| :: Free(body[k], pat)
    ensures Free(Boxed(body), pat)
  {
    FreeLines(body, pat);
    NoAngle("\n", pat);
    FreeAcross("\n", Join(body), pat);
    FreeAcross("\n" + Join(body), "\n", pat);
  }

  /** The section of a framed text. */
  lemma {:induction false} SectionOfFramed(f: Fence, y: Layout, inner: string)
    requires IsFence(f) && LayoutOk(f, y) && FreeOfFence(f, inner)
    ensures FenceSpan(f, Framed(f, y, inner)) == Some(Span(|FrontOf(y)|, |FrontOf(y)| + |Owned(f, inner)|))
    ensures Section(f, Framed(f, y, inner)) == Some(inner)
  {
    PartsAreFree(f, y);
    FenceInMiddle(f, FrontOf(y), inner, BackOf(y));
    SectionInMiddle(f, FrontOf(y), inner, BackOf(y));
  }

  lemma {:induction false} SpliceOfFramed(f: Fence, y: Layout, inner: string, g: Note)
    requires IsFence(f) && LayoutOk(f, y) && FreeOfFence(f, inner) && NoteOk(f, g)
    ensures var text := Framed(f, y, inner);
            && FenceSpan(f, text).Some? && FenceSpan(f, Text(f, g)) == Some(FenceOf(f, g))
            && Spliced(text, FenceSpan(f, text).value, Text(f, g), FenceOf(f, g)) == Framed(f, y, g.inner)
  {
    SectionOfFramed(f, y, inner);
    FenceOfText(f, g);
    var text, s := Framed(f, y, inner), FenceOf(f, g);
    assert Text(f, g)[s.start..s.end] == Owned(f, g.inner);
    assert text[..|FrontOf(y)|] == FrontOf(y);
    assert text[|FrontOf(y)| + |Owned(f, inner)|..] == BackOf(y);
  }

  // ---- Where the frontmatter closes ---------------------------------------------------------------

  /** The lines of the frontmatter `merge_note` sees, when it closes inside the body or below it. */
  function Seen(f: Fence, y: Layout, body: seq<string>): Option<seq<string>> {
    match Closing(body, 0)
    case Some(m) => Some(y.top + [y.left + f.open] + DropBlank(body[..m]))
    case None =>
      match Closing(y.rest, 0)
      case Some(m) => Some(y.top + [y.left + f.open] + body + [f.close + y.right] + DropBlank(y.rest[..m]))
      case None => None
  }

  /** The lines from its end on. */
  function Below(f: Fence, y: Layout, body: seq<string>): seq<string> {
    match Closing(body, 0)
    case Some(m) => body[m..] + [f.close + y.right] + y.rest
    case None => match Closing(y.rest, 0) case Some(m) => y.rest[m..] case None => []
  }

  lemma {:induction false} NoClosing(lines: seq<string>, from: nat)
    requires Closing(lines, from).None?
    ensures forall k | from <= k < |lines| :: lines[k] != RULE
    decreases |lines| - from
  {
    if from < |lines| { NoClosing(lines, from + 1); }
  }

  lemma {:induction false} ClosingNone(lines: seq<string>, from: nat)
    requires forall k | from <= k < |lines| :: lines[k] != RULE
    ensures Closing(lines, from).None?
    decreases |lines| - from
  {
    if from < |lines| { ClosingNone(lines, from + 1); }
  }

  lemma {:induction false} DropBlankAfter(a: seq<string>, b: seq<string>)
    requires a != [] && a[|a| - 1] != ""
    ensures DropBlank(a + b) == a + DropBlank(b)
  {
    if b != [] {
      assert (a + b)[..|a + b| - 1] == a + b[..|b| - 1];
    } else {
      assert a + b == a;
    }
  }

  lemma {:induction false} BodyRuleCloses(f: Fence, y: Layout, body: seq<string>, m: nat)
    requires IsFence(f) && LayoutOk(f, y) && Closing(body, 0) == Some(m)
    ensures Closing([RULE] + Lines(f, y, body), 2) == Some(|y.top| + 2 + m)
  {
    var j, w := |y.top| + 2 + m, [RULE] + Lines(f, y, body);
    ClosingIsFirst(body, 0);
    forall k | 2 <= k < j ensures w[k] != RULE {
      if k <= |y.top| { assert w[k] == y.top[k - 1]; }
      else if k == |y.top| + 1 { assert w[k] == y.left + f.open && w[k][|y.left|] == '<'; }
      else { assert w[k] == body[k - |y.top| - 2]; }
    }
    assert w[j] == body[m];
    ClosingIs(w, 2, j);
  }

  lemma {:induction false} RuleInBody(f: Fence, y: Layout, body: seq<string>, m: nat)
    requires IsFence(f) && LayoutOk(f, y) && Closing(body, 0) == Some(m)
    ensures var j, w := |y.top| + 2 + m, [RULE] + Lines(f, y, body);
            && Closing(w, 2) == Some(j)
            && w[1..j] == y.top + [y.left + f.open] + body[..m] && w[j..] == Below(f, y, body)
  {
    var w := [RULE] + Lines(f, y, body);
    BodyRuleCloses(f, y, body, m);
    ClosingIsFirst(body, 0);
    CutLines([RULE], y.top + [y.left + f.open], body, [f.close + y.right] + y.rest, m);
    assert [RULE] + (y.top + [y.left + f.open]) + body + ([f.close + y.right] + y.rest) == w;
  }

  lemma CutLines(a: seq<string>, b: seq<string>, c: seq<string>, d: seq<string>, m: nat)
    requires m <= |c|
    ensures var w, j := a + b + c + d, |a| + |b| + m; w[|a|..j] == b + c[..m] && w[j..] == c[m..] + d
  {
  }

  lemma {:induction false} RuleBelow(f: Fence, y: Layout, body: seq<string>, k: nat)
    requires IsFence(f) && LayoutOk(f, y) && Closing(body, 0).None?
    requires 2 <= k < |y.top| + |body| + 3
    ensures ([RULE] + Lines(f, y, body))[k] != RULE
  {
    var w := [RULE] + Lines(f, y, body);
    NoClosing(body, 0);
    if k <= |y.top| { assert w[k] == y.top[k - 1]; }
    else if k == |y.top| + 1 { assert w[k] == y.left + f.open && w[k][|y.left|] == '<'; }
    else if k < |y.top| + 2 + |body| { assert w[k] == body[k - |y.top| - 2]; }
    else { assert w[k] == f.close + y.right && w[k][0] == '<'; }
  }

  lemma {:induction false} RuleInRest(f: Fence, y: Layout, body: seq<string>)
    requires IsFence(f) && LayoutOk(f, y) && Closing(body, 0).None?
    ensures var w, up := [RULE] + Lines(f, y, body), |y.top| + |body| + 3;
            match Closing(y.rest, 0)
            case None => Closing(w, 2).None?
            case Some(m) =>
              && Closing(w, 2) == Some(up + m) && w[up + m..] == Below(f, y, body)
              && w[1..up + m] == y.top + [y.left + f.open] + body + [f.close + y.right] + y.rest[..m]
  {
    var w, up := [RULE] + Lines(f, y, body), |y.top| + |body| + 3;
    forall k | 2 <= k < up ensures w[k] != RULE { RuleBelow(f, y, body, k); }
    assert forall k | up <= k < |w| :: w[k] == y.rest[k - up];
    match Closing(y.rest, 0)
    case Some(m) =>
      ClosingIsFirst(y.rest, 0);
      ClosingIs(w, 2, up + m);
    case None =>
      NoClosing(y.rest, 0);
      ClosingNone(w, 2);
  }

  lemma {:induction false} LinesAreOneLiners(f: Fence, y: Layout, body: seq<string>)
    requires IsFence(f) && LayoutOk(f, y) && BodyOk(f, body)
    ensures OneLiners([RULE] + Lines(f, y, body))
  {
  }

  lemma {:induction false} TagLines(f: Fence, y: Layout)
    requires IsFence(f)
    ensures y.left + f.open != "" && f.close + y.right != ""
  {
  }

  lemma {:induction false} HeaderOfLines(w: seq<string>, j: nat, lines: seq<string>)
    requires OneLiners(w) && w != [] && w[0] == RULE && Closing(w, 2) == Some(j)
    ensures HeaderLines(Join(w)) == Some(w[1..j]) && WithHeader(Join(w), lines) == Join([RULE] + Shown(lines) + w[j..])
  {
    SplitJoin(w);
  }

  lemma {:induction false} NoHeaderOfLines(w: seq<string>)
    requires OneLiners(w) && w != [] && Closing(w, 2).None?
    ensures HeaderLines(Join(w)).None?
  {
    SplitJoin(w);
  }

  /** The frontmatter of the spliced text. */
  lemma {:induction false} SeenLines(f: Fence, y: Layout, body: seq<string>, lines: seq<string>)
    requires IsFence(f) && LayoutOk(f, y) && BodyOk(f, body) && lines != []
    ensures var text := LayoutText(f, y, body);
            match Seen(f, y, body)
            case None => HeaderLines(text).None?
            case Some(seen) =>
              && HeaderLines(text).Some? && DropBlank(HeaderLines(text).value) == seen && seen != []
              && WithHeader(text, lines) == Join([RULE] + lines + Below(f, y, body))
  {
    hide LayoutOk, BodyOk, IsFence, DropBlank, HeaderLines, WithHeader, Join;
    var w, lo, cr := [RULE] + Lines(f, y, body), y.left + f.open, f.close + y.right;
    LinesAreOneLiners(f, y, body);
    TagLines(f, y);
    match Closing(body, 0)
    case Some(m) =>
      RuleInBody(f, y, body, m);
      hide Lines;
      HeaderOfLines(w, |y.top| + 2 + m, lines);
      DropBlankAfter(y.top + [lo], body[..m]);
    case None =>
      RuleInRest(f, y, body);
      match Closing(y.rest, 0)
      case Some(m) =>
        HeaderOfLines(w, |y.top| + |body| + 3 + m, lines);
        DropBlankAfter(y.top + [lo] + body + [cr], y.rest[..m]);
      case None => NoHeaderOfLines(w);
  }

  // ---- The merge ----------------------------------------------------------------------------------

  /** The merge goes through. */
  ghost predicate Fits(f: Fence, y: Layout, body: seq<string>, gen: seq<string>) {
    Seen(f, y, body).Some? && Editable(gen, Seen(f, y, body).value)
  }

  lemma {:induction false} MetadataOfLayout(f: Fence, y: Layout, body: seq<string>, generated: string,
                                            header: seq<string>)
    requires IsFence(f) && LayoutOk(f, y) && BodyOk(f, body)
    requires HeaderLines(generated) == Some(header) && Managed(DropBlank(header))
    ensures var gen, merged := DropBlank(header), MetadataMerged(LayoutText(f, y, body), generated);
            && (merged.Ok? <==> Fits(f, y, body, gen))
            && (merged.Ok? ==> merged.value == Join([RULE] + Updated(gen, Seen(f, y, body).value) + Below(f, y, body)))
  {
    hide Below, LayoutText, HeaderLines, WithHeader, LayoutOk, BodyOk, Editable, Managed, PutAll, Seen, IsFence;
    var gen := DropBlank(header);
    match Seen(f, y, body)
    case None => SeenLines(f, y, body, [""]);
    case Some(seen) =>
      PutAllIsUpdated(seen, gen);
      SeenLines(f, y, body, Shown(Updated(gen, seen)));
      assert Updated(gen, seen) != [] by { assert |Updated(gen, seen)| >= |seen|; }
  }

  lemma {:induction false} MergeOfFramed(f: Fence, y: Layout, inner: string, body: seq<string>, g: Note)
    requires IsFence(f) && LayoutOk(f, y) && BodyOk(f, body) && FreeOfFence(f, inner)
    requires NoteOk(f, g) && g.inner == Boxed(body) && Managed(Gen(g))
    ensures Merged(f, Framed(f, y, inner), Text(f, g)).Ok? <==> Fits(f, y, body, Gen(g))
    ensures Fits(f, y, body, Gen(g)) ==>
              Merged(f, Framed(f, y, inner), Text(f, g)).value
              == Join([RULE] + Updated(Gen(g), Seen(f, y, body).value) + Below(f, y, body))
  {
    assert body != [] && HeaderShape(g.header);
    hide Seen, Below, Framed, LayoutText, Text, Spliced, HeaderLines, MetadataMerged, LayoutOk, BodyOk, FenceSpan,
         FenceOf, FreeOfFence, HeaderShape, Fits, Updated, Managed, NoteOk, DropBlank;
    SpliceOfFramed(f, y, inner, g);
    FramedIsLines(f, y, body);
    HeaderLinesOfText(f, g);
    MetadataOfLayout(f, y, body, Text(f, g), g.header);
  }

  // ---- Its result -----------------------------------------------------------------------------------

  lemma {:induction false} UpdatedParts(gen: seq<string>, a: seq<string>, b: seq<string>, c: seq<string>)
    ensures Rewrite(gen, a + b + c) == Rewrite(gen, a) + Rewrite(gen, b) + Rewrite(gen, c)
  {
  }

  /** The layout a merge leaves, when the line of the opening tag is no managed one. */
  function NextLayout(f: Fence, y: Layout, body: seq<string>, gen: seq<string>): Layout
    requires Seen(f, y, body).Some?
  {
    match Closing(body, 0)
    case Some(m) => y.(top := Rewrite(gen, y.top))
    case None =>
      var m := Closing(y.rest, 0).value;
      y.(top := Rewrite(gen, y.top),
         rest := Rewrite(gen, DropBlank(y.rest[..m])) + Missing(gen, Seen(f, y, body).value) + y.rest[m..])
  }

  /** The section it leaves: managed lines inside it are metadata of the merge. */
  function NextBody(f: Fence, y: Layout, body: seq<string>, gen: seq<string>): seq<string>
    requires Seen(f, y, body).Some?
  {
    match Closing(body, 0)
    case Some(m) => Rewrite(gen, DropBlank(body[..m])) + Missing(gen, Seen(f, y, body).value) + body[m..]
    case None => Rewrite(gen, body)
  }

  lemma {:induction false} RewriteOne(gen: seq<string>, line: string)
    ensures Rewrite(gen, [line]) == [Replaced(gen, line)]
  {
  }

  lemma {:induction false} CloseIsUnmanaged(f: Fence, gen: seq<string>, right: string)
    requires IsFence(f) && forall k | 0 <= k < |gen| :: PlainLine(gen[k])
    ensures Pick(gen, f.close + right).None?
  {
    forall k | 0 <= k < |gen| ensures !Hits(f.close + right, gen[k]) { AngleIsNoKey(f.close + right, gen[k]); }
    PickNone(gen, f.close + right);
  }

  /** A generated line has a key, which does not start with a `<`. */
  predicate PlainLine(line: string) {
    KeyOf(line) != "" && line[0] != '<'
  }

  lemma {:induction false} AngleIsNoKey(prior: string, line: string)
    requires prior != "" && prior[0] == '<' && PlainLine(line)
    ensures !Hits(prior, line)
  {
    KeyShape(line);
    assert (KeyOf(line) + ":")[0] == KeyOf(line)[0] == line[0];
  }

  ghost predicate PlainLines(gen: seq<string>) {
    forall k | 0 <= k < |gen| :: PlainLine(gen[k])
  }

  lemma {:induction false} UpdatedInBody(f: Fence, y: Layout, body: seq<string>, gen: seq<string>, m: nat)
    requires Pick(gen, y.left + f.open).None? && Closing(body, 0) == Some(m)
    ensures var seen := Seen(f, y, body).value;
            Updated(gen, seen)
              == Rewrite(gen, y.top) + [y.left + f.open] + Rewrite(gen, DropBlank(body[..m])) + Missing(gen, seen)
  {
    RewriteOne(gen, y.left + f.open);
    UpdatedParts(gen, y.top, [y.left + f.open], DropBlank(body[..m]));
  }

  lemma {:induction false} UpdatedBelow(f: Fence, y: Layout, body: seq<string>, gen: seq<string>, m: nat)
    requires IsFence(f) && PlainLines(gen) && Pick(gen, y.left + f.open).None?
    requires Closing(body, 0).None? && Closing(y.rest, 0) == Some(m)
    ensures var seen := Seen(f, y, body).value;
            Updated(gen, seen) == Rewrite(gen, y.top) + [y.left + f.open] + Rewrite(gen, body) + [f.close + y.right]
                                  + (Rewrite(gen, DropBlank(y.rest[..m])) + Missing(gen, seen))
  {
    var lo, cr, quoted := y.left + f.open, f.close + y.right, DropBlank(y.rest[..m]);
    RewriteOne(gen, lo);
    RewriteOne(gen, cr);
    CloseIsUnmanaged(f, gen, y.right);
    UpdatedParts(gen, y.top, [lo], body);
    UpdatedParts(gen, y.top + [lo] + body, [cr], quoted);
  }

  /** Off the managed keys, the result has the layout of its input. */
  lemma {:induction false} ResultIsFramed(f: Fence, y: Layout, body: seq<string>, gen: seq<string>)
    requires IsFence(f) && body != [] && PlainLines(gen) && Seen(f, y, body).Some? && Pick(gen, y.left + f.open).None?
    ensures NextBody(f, y, body, gen) != []
    ensures Join([RULE] + Updated(gen, Seen(f, y, body).value) + Below(f, y, body))
            == Framed(f, NextLayout(f, y, body, gen), Boxed(NextBody(f, y, body, gen)))
  {
    hide Updated, Missing, Rewrite, Seen, DropBlank;
    var next, inner, seen := NextLayout(f, y, body, gen), NextBody(f, y, body, gen), Seen(f, y, body).value;
    match Closing(body, 0) {
      case Some(m) => UpdatedInBody(f, y, body, gen, m);
      case None =>
        BelowCloses(f, y, body);
        UpdatedBelow(f, y, body, gen, Closing(y.rest, 0).value);
        RewriteLength(gen, body);
    }
    assert [RULE] + Updated(gen, seen) + Below(f, y, body) == [RULE] + Lines(f, next, inner);
    FramedIsLines(f, next, inner);
  }

  lemma RewriteLength(gen: seq<string>, lines: seq<string>)
    ensures |Rewrite(gen, lines)| == |lines|
  {
  }

  lemma {:induction false} RewriteIsFree(f: Fence, gen: seq<string>, lines: seq<string>)
    requires Managed(gen) && LinesFree(f, gen) && OneLiners(lines) && LinesFree(f, lines)
    ensures OneLiners(Rewrite(gen, lines)) && LinesFree(f, Rewrite(gen, lines))
    ensures forall k | 0 <= k < |lines| :: Rewrite(gen, lines)[k] == RULE ==> lines[k] == RULE
  {
    var next := Rewrite(gen, lines);
    forall k | 0 <= k < |lines|
      ensures OneLine(next[k]) && FreeOfFence(f, next[k]) && (next[k] == RULE ==> lines[k] == RULE)
    {
      if Pick(gen, lines[k]).Some? {
        PickHits(gen, lines[k]);
        var i :| 0 <= i < |gen| && gen[i] == next[k];
      }
    }
  }

  lemma {:induction false} MissingIsFree(f: Fence, gen: seq<string>, lines: seq<string>)
    requires Managed(gen) && LinesFree(f, gen)
    ensures OneLiners(Missing(gen, lines)) && LinesFree(f, Missing(gen, lines))
    ensures forall k | 0 <= k < |Missing(gen, lines)| :: Missing(gen, lines)[k] != RULE
  {
    var added := Missing(gen, lines);
    forall k | 0 <= k < |added| ensures OneLine(added[k]) && FreeOfFence(f, added[k]) && added[k] != RULE {
      MissingLine(gen, lines, k);
      var i :| 0 <= i < |gen| && gen[i] == added[k];
    }
  }

  ghost predicate CleanLines(f: Fence, lines: seq<string>) {
    OneLiners(lines) && LinesFree(f, lines)
  }

  lemma {:induction false} CleanConcat(f: Fence, a: seq<string>, b: seq<string>)
    requires CleanLines(f, a) && CleanLines(f, b)
    ensures CleanLines(f, a + b)
  {
    hide FreeOfFence, OneLine;
  }

  lemma {:induction false} CleanPart(f: Fence, lines: seq<string>, i: nat, j: nat)
    requires CleanLines(f, lines) && i <= j <= |lines|
    ensures CleanLines(f, lines[i..j])
  {
    hide FreeOfFence, OneLine;
  }

  /** Lines of a merge: some rewritten, the added ones, and the others. */
  lemma {:induction false} NextLinesClean(f: Fence, gen: seq<string>, seen: seq<string>, lines: seq<string>, m: nat)
    requires Managed(gen) && LinesFree(f, gen) && CleanLines(f, lines) && m <= |lines|
    ensures CleanLines(f, Rewrite(gen, DropBlank(lines[..m])) + Missing(gen, seen) + lines[m..])
  {
    hide FreeOfFence, OneLine, Managed, LinesFree, OneLiners;
    var shown := DropBlank(lines[..m]);
    CleanPart(f, lines, 0, |shown|);
    assert shown == lines[0..|shown|];
    RewriteIsFree(f, gen, shown);
    MissingIsFree(f, gen, seen);
    CleanPart(f, lines, m, |lines|);
    assert lines[m..|lines|] == lines[m..];
    CleanConcat(f, Rewrite(gen, shown), Missing(gen, seen));
    CleanConcat(f, Rewrite(gen, shown) + Missing(gen, seen), lines[m..]);
  }

  /** The layout stays one. */
  lemma {:induction false} NextIsOk(f: Fence, y: Layout, body: seq<string>, gen: seq<string>)
    requires IsFence(f) && LayoutOk(f, y) && BodyOk(f, body) && Managed(gen) && LinesFree(f, gen)
             && Seen(f, y, body).Some?
    ensures LayoutOk(f, NextLayout(f, y, body, gen)) && BodyOk(f, NextBody(f, y, body, gen))
  {
    hide FreeOfFence, OneLine, Managed, Seen;
    RewriteIsFree(f, gen, y.top);
    match Closing(body, 0)
    case Some(m) => NextLinesClean(f, gen, Seen(f, y, body).value, body, m);
    case None =>
      RewriteIsFree(f, gen, body);
      BelowCloses(f, y, body);
      NextLinesClean(f, gen, Seen(f, y, body).value, y.rest, Closing(y.rest, 0).value);
  }

  lemma BelowCloses(f: Fence, y: Layout, body: seq<string>)
    requires Seen(f, y, body).Some? && Closing(body, 0).None?
    ensures Closing(y.rest, 0).Some?
  {
  }

  // ---- A managed line with the opening tag ----------------------------------------------------------

  lemma {:induction false} FreeRewritten(gen: seq<string>, lines: seq<string>, pat: string)
    requires Managed(gen) && forall k | 0 <= k < |gen| :: Free(gen[k], pat)
    requires forall k | 0 <= k < |lines| :: Pick(gen, lines[k]).None? ==> Free(lines[k], pat)
    ensures forall k | 0 <= k < |Updated(gen, lines)| :: Free(Updated(gen, lines)[k], pat)
  {
    hide Free;
    var next := Updated(gen, lines);
    forall k | 0 <= k < |next| ensures Free(next[k], pat) {
      if k < |lines| {
        if Pick(gen, lines[k]).Some? {
          PickHits(gen, lines[k]);
          var i :| 0 <= i < |gen| && gen[i] == next[k];
        }
      } else {
        MissingLine(gen, lines, k - |lines|);
        var i :| 0 <= i < |gen| && gen[i] == next[k];
      }
    }
  }

  lemma {:induction false} SeenIsFree(f: Fence, y: Layout, body: seq<string>, k: nat)
    requires IsFence(f) && LayoutOk(f, y) && BodyOk(f, body) && Seen(f, y, body).Some?
    requires k < |Seen(f, y, body).value| && k != |y.top|
    ensures Free(Seen(f, y, body).value[k], f.open)
  {
    CloseIsFreeOfOpen(f, y);
    var seen := Seen(f, y, body).value;
    if k < |y.top| {
      assert seen[k] == y.top[k];
    } else if k < |y.top| + 1 + |body| {
      assert seen[k] == body[k - |y.top| - 1];
    } else if k > |y.top| + 1 + |body| {
      assert seen[k] == y.rest[k - |y.top| - 2 - |body|];
    }
  }

  lemma {:induction false} CloseIsFreeOfOpen(f: Fence, y: Layout)
    requires IsFence(f) && LayoutOk(f, y)
    ensures Free(f.close + y.right, f.open)
  {
    TagsDiffer(f);
    FreeAcross(f.close, y.right, f.open);
  }

  lemma {:induction false} BelowIsFree(f: Fence, y: Layout, body: seq<string>, k: nat)
    requires IsFence(f) && LayoutOk(f, y) && BodyOk(f, body) && k < |Below(f, y, body)|
    ensures Free(Below(f, y, body)[k], f.open)
  {
    CloseIsFreeOfOpen(f, y);
  }

  /** When the opening tag stands on a managed line, the merge writes over the tag. */
  lemma {:induction false} OpenTagIsLost(f: Fence, y: Layout, body: seq<string>, gen: seq<string>)
    requires IsFence(f) && LayoutOk(f, y) && BodyOk(f, body) && Managed(gen) && LinesFree(f, gen)
    requires Seen(f, y, body).Some? && Pick(gen, y.left + f.open).Some?
    ensures FenceSpan(f, Join([RULE] + Updated(gen, Seen(f, y, body).value) + Below(f, y, body))).None?
  {
    hide Free, LayoutOk, BodyOk;
    var seen, below := Seen(f, y, body).value, Below(f, y, body);
    assert seen[|y.top|] == y.left + f.open;
    forall k | 0 <= k < |seen| && Pick(gen, seen[k]).None? ensures Free(seen[k], f.open) { SeenIsFree(f, y, body, k); }
    forall k | 0 <= k < |gen| ensures Free(gen[k], f.open) { assert FreeOfFence(f, gen[k]); }
    FreeRewritten(gen, seen, f.open);
    forall k | 0 <= k < |below| ensures Free(below[k], f.open) { BelowIsFree(f, y, body, k); }
    NoAngle(RULE, f.open);
    var all := [RULE] + Updated(gen, seen) + below;
    FreeLines(all, f.open);
    NoneFound(Join(all), f.open);
  }

  lemma {:induction false} NoneFound(text: string, pat: string)
    requires Free(text, pat)
    ensures Find(text, pat, 0).None? && Only(text, pat).None?
  {
    FindIsFirst(text, pat, 0);
  }

  // ---- The time stamp -------------------------------------------------------------------------------

  const STAMP := "synced-at"

  predicate HasStamp(lines: seq<string>) {
    exists i | 0 <= i < |lines| :: STAMP + ":" <= lines[i]
  }

  /** The line of the time stamp is written inside the section. */
  predicate Stamped(y: Layout, body: seq<string>) {
    if Closing(body, 0).Some? then !HasStamp(y.top) else HasStamp(body)
  }

  /** Two renderings of one note: the same lines but for the time stamp, which both have at `s`. */
  predicate SameButStamp(g1: seq<string>, g2: seq<string>, s: nat) {
    && SameKeys(g1, g2) && s < |g1| && KeyOf(g1[s]) == STAMP
    && forall k | 0 <= k < |g1| && k != s :: g1[k] == g2[k]
  }

  lemma {:induction false} UnstampedRewrite(g1: seq<string>, g2: seq<string>, s: nat, lines: seq<string>)
    requires Managed(g1) && SameButStamp(g1, g2, s) && !HasStamp(lines)
    ensures Rewrite(g1, lines) == Rewrite(g2, lines)
  {
    forall i | 0 <= i < |lines| ensures Replaced(g1, lines[i]) == Replaced(g2, lines[i]) {
      PickSameKeys(g1, g2, lines[i]);
      if Pick(g1, lines[i]).Some? {
        PickHits(g1, lines[i]);
        assert !Hits(lines[i], g1[s]);
      }
    }
  }

  lemma {:induction false} SameMissing(g1: seq<string>, g2: seq<string>, lines: seq<string>)
    requires SameKeys(g1, g2) && forall k | 0 <= k < |g1| :: g1[k] == g2[k] || HasKey(lines, g1[k])
    ensures Missing(g1, lines) == Missing(g2, lines)
  {
    if g1 != [] {
      assert HasKey(lines, g1[0]) <==> HasKey(lines, g2[0]);
      var r1, r2 := g1[1..], g2[1..];
      assert forall k | 0 <= k < |r1| :: r1[k] == g1[k + 1] && r2[k] == g2[k + 1];
      SameMissing(r1, r2, lines);
    }
  }

  lemma {:induction false} HitElsewhere(gen: seq<string>, lines: seq<string>, s: nat, i: nat, j: nat)
    requires Editable(gen, lines) && s < |gen| && i < j < |lines| && Hits(lines[i], gen[s])
    ensures !Hits(lines[j], gen[s])
  {
    assert EditableAt(lines, gen[s]);
  }

  /** Off the section, the stamp has no part in it. */
  lemma {:induction false} UnstampedBody(f: Fence, y: Layout, body: seq<string>, g1: seq<string>, g2: seq<string>,
                                         s: nat)
    requires Managed(g1) && SameButStamp(g1, g2, s) && Fits(f, y, body, g1) && !Stamped(y, body)
    ensures NextBody(f, y, body, g1) == NextBody(f, y, body, g2)
  {
    match Closing(body, 0)
    case None => UnstampedRewrite(g1, g2, s, body);
    case Some(m) =>
      var seen, shown := Seen(f, y, body).value, DropBlank(body[..m]);
      var i :| 0 <= i < |y.top| && STAMP + ":" <= y.top[i];
      assert seen[i] == y.top[i] && Hits(seen[i], g1[s]);
      forall j | 0 <= j < |shown| ensures !Hits(shown[j], g1[s]) {
        assert seen[|y.top| + 1 + j] == shown[j];
        HitElsewhere(g1, seen, s, i, |y.top| + 1 + j);
      }
      UnstampedRewrite(g1, g2, s, shown);
      SameMissing(g1, g2, seen);
  }

  lemma {:induction false} MissingAt(g1: seq<string>, g2: seq<string>, lines: seq<string>, s: nat) returns (p: nat)
    requires SameKeys(g1, g2) && s < |g1| && !HasKey(lines, g1[s])
    ensures p < |Missing(g1, lines)| == |Missing(g2, lines)|
    ensures Missing(g1, lines)[p] == g1[s] && Missing(g2, lines)[p] == g2[s]
    decreases |g1|
  {
    assert HasKey(lines, g1[0]) <==> HasKey(lines, g2[0]);
    var r1, r2 := g1[1..], g2[1..];
    assert forall k | 0 <= k < |r1| :: r1[k] == g1[k + 1] && r2[k] == g2[k + 1];
    if s == 0 {
      p := 0;
      MissingLengths(r1, r2, lines);
      assert HasKey(lines, g2[0]) <==> HasKey(lines, g1[0]);
    } else {
      var q := MissingAt(r1, r2, lines, s - 1);
      p := q + if HasKey(lines, g1[0]) then 0 else 1;
    }
  }

  lemma {:induction false} MissingLengths(g1: seq<string>, g2: seq<string>, lines: seq<string>)
    requires SameKeys(g1, g2)
    ensures |Missing(g1, lines)| == |Missing(g2, lines)|
  {
    if g1 != [] {
      assert HasKey(lines, g1[0]) <==> HasKey(lines, g2[0]);
      var r1, r2 := g1[1..], g2[1..];
      assert forall k | 0 <= k < |r1| :: r1[k] == g1[k + 1] && r2[k] == g2[k + 1];
      MissingLengths(r1, r2, lines);
    }
  }

  lemma {:induction false} StampedLine(g1: seq<string>, g2: seq<string>, s: nat, lines: seq<string>)
    requires Managed(g1) && Managed(g2) && SameButStamp(g1, g2, s) && g1[s] != g2[s] && HasStamp(lines)
    ensures Rewrite(g1, lines) != Rewrite(g2, lines)
  {
    var i :| 0 <= i < |lines| && STAMP + ":" <= lines[i];
    PickHit(g1, lines[i], s);
    PickHit(g2, lines[i], s);
    assert Rewrite(g1, lines)[i] != Rewrite(g2, lines)[i];
  }

  /** Inside the section, passes at different times leave different sections. */
  lemma {:induction false} StampedBody(f: Fence, y: Layout, body: seq<string>, g1: seq<string>, g2: seq<string>, s: nat)
    requires Managed(g1) && Managed(g2) && SameButStamp(g1, g2, s) && g1[s] != g2[s]
    requires Seen(f, y, body).Some? && Pick(g1, y.left + f.open).None? && Stamped(y, body)
    ensures NextBody(f, y, body, g1) != NextBody(f, y, body, g2)
  {
    match Closing(body, 0)
    case None => StampedLine(g1, g2, s, body);
    case Some(m) =>
      var seen, shown := Seen(f, y, body).value, DropBlank(body[..m]);
      if !HasStamp(shown) {
        if Hits(y.left + f.open, g1[s]) { PickHit(g1, y.left + f.open, s); }
        assert !HasKey(seen, g1[s]);
      }
      StampedShown(g1, g2, s, shown, seen, body[m..]);
  }

  lemma {:induction false} StampedShown(g1: seq<string>, g2: seq<string>, s: nat, shown: seq<string>, seen: seq<string>,
                                        rest: seq<string>)
    requires Managed(g1) && Managed(g2) && SameButStamp(g1, g2, s) && g1[s] != g2[s]
    requires HasStamp(shown) || !HasKey(seen, g1[s])
    ensures Rewrite(g1, shown) + Missing(g1, seen) + rest != Rewrite(g2, shown) + Missing(g2, seen) + rest
  {
    var a, b := Rewrite(g1, shown), Rewrite(g2, shown);
    var x, z := a + Missing(g1, seen) + rest, b + Missing(g2, seen) + rest;
    MissingLengths(g1, g2, seen);
    if HasStamp(shown) {
      StampedLine(g1, g2, s, shown);
      assert x[..|a|] == a && z[..|a|] == b;
    } else {
      var p := MissingAt(g1, g2, seen, s);
      assert x[|a| + p] == g1[s] && z[|a| + p] == g2[s];
    }
  }

  lemma {:induction false} BoxedIsInjective(a: seq<string>, b: seq<string>)
    requires a != [] && b != [] && OneLiners(a) && OneLiners(b) && a != b
    ensures Boxed(a) != Boxed(b)
  {
    SplitJoin(a);
    SplitJoin(b);
    assert Boxed(a)[1..|Boxed(a)| - 1] == Join(a) && Boxed(b)[1..|Boxed(b)| - 1] == Join(b);
  }

  // ---- Merging again --------------------------------------------------------------------------------

  /** The same keys on every line, and the same indentation. */
  predicate SameProfile(gen: seq<string>, a: seq<string>, b: seq<string>) {
    |a| == |b| && forall i | 0 <= i < |a| :: a[i] == b[i] || a[i] == Replaced(gen, b[i])
  }

  lemma {:induction false} ProfileKeys(gen: seq<string>, a: seq<string>, b: seq<string>, line: string)
    requires Managed(gen) && SameProfile(gen, a, b)
    ensures HasKey(a, line) <==> HasKey(b, line)
    ensures EditableAt(a, line) <==> EditableAt(b, line)
  {
    forall i | 0 <= i < |a| ensures (Hits(a[i], line) <==> Hits(b[i], line)) && (Indented(a[i]) <==> Indented(b[i])) {
      ReplacedKeeps(gen, b[i], line);
    }
  }

  lemma {:induction false} ProfileEditable(gen: seq<string>, other: seq<string>, a: seq<string>, b: seq<string>)
    requires Managed(gen) && SameProfile(gen, a, b)
    ensures Editable(other, a) <==> Editable(other, b)
    ensures Missing(other, a) == Missing(other, b)
  {
    forall k | 0 <= k < |other|
      ensures (EditableAt(a, other[k]) <==> EditableAt(b, other[k])) && (HasKey(a, other[k]) <==> HasKey(b, other[k]))
    {
      ProfileKeys(gen, a, b, other[k]);
    }
    MissingKeepsOthers(other, b, a);
  }

  lemma {:induction false} ClosingAgain(f: Fence, y: Layout, body: seq<string>, gen: seq<string>, m: nat)
    requires Managed(gen) && Closing(body, 0).None? && Closing(y.rest, 0) == Some(m)
    ensures var above := Rewrite(gen, DropBlank(y.rest[..m])) + Missing(gen, Seen(f, y, body).value);
            Closing(NextLayout(f, y, body, gen).rest, 0) == Some(|above|)
              && NextLayout(f, y, body, gen).rest[..|above|] == above
  {
    var quoted, seen := DropBlank(y.rest[..m]), Seen(f, y, body).value;
    var next, above := NextLayout(f, y, body, gen).rest, Rewrite(gen, quoted) + Missing(gen, seen);
    ClosingIsFirst(y.rest, 0);
    forall k | 0 <= k < |above| ensures next[k] != RULE {
      if k < |quoted| {
        assert quoted[k] == y.rest[k];
        if Pick(gen, quoted[k]).Some? {
          PickHits(gen, quoted[k]);
          var i :| 0 <= i < |gen| && gen[i] == next[k];
          assert ':' in gen[i];
        }
      } else {
        MissingLine(gen, seen, k - |quoted|);
      }
    }
    assert next[|above|] == y.rest[m];
    ClosingIs(next, 0, |above|);
  }

  /** Off the opening tag's line, a file that was merged can be merged again, and the first merge leaves
   * no trace in the section. */
  lemma {:induction false} FitsAgain(f: Fence, y: Layout, body: seq<string>, g1: seq<string>, g2: seq<string>)
    requires IsFence(f) && Managed(g1) && Managed(g2) && SameKeys(g1, g2) && PlainLines(g1)
    requires Fits(f, y, body, g1) && Pick(g1, y.left + f.open).None?
    ensures var next := NextLayout(f, y, body, g1);
            && Fits(f, next, body, g2) && NextBody(f, next, body, g2) == NextBody(f, y, body, g2)
            && next.left == y.left && (Stamped(next, body) <==> Stamped(y, body))
  {
    var next, seen, lo, cr := NextLayout(f, y, body, g1), Seen(f, y, body).value, y.left + f.open, f.close + y.right;
    ProfileKeys(g1, next.top, y.top, STAMP + ":") by { assert SameProfile(g1, next.top, y.top); }
    StampIsKey(y.top);
    StampIsKey(next.top);
    SameKeysEditable(g1, g2, seen);
    match Closing(body, 0)
    case Some(m) =>
      assert SameProfile(g1, Seen(f, next, body).value, seen);
      ProfileEditable(g1, g2, Seen(f, next, body).value, seen);
    case None =>
      var m := Closing(y.rest, 0).value;
      ClosingAgain(f, y, body, g1, m);
      EditableBelow(f, y, body, g1, g2, m);
  }

  lemma {:induction false} StampIsKey(lines: seq<string>)
    ensures HasStamp(lines) <==> HasKey(lines, STAMP + ":")
  {
    assert KeyOf(STAMP + ":") == STAMP by { HitsIsSameKey(STAMP + ":", STAMP + ":"); KeyOfStamp(STAMP); }
  }

  lemma {:induction false} KeyOfStamp(key: string)
    requires ':' !in key
    ensures KeyOf(key + ":") == key
  {
    if key != "" {
      assert key[0] in key;
      KeyOfStamp(key[1..]);
      assert (key + ":")[1..] == key[1..] + ":";
    }
  }

  lemma {:induction false} EditableBelow(f: Fence, y: Layout, body: seq<string>, g1: seq<string>, g2: seq<string>,
                                         m: nat)
    requires IsFence(f) && Managed(g1) && Managed(g2) && SameKeys(g1, g2) && PlainLines(g1)
    requires Fits(f, y, body, g1) && Pick(g1, y.left + f.open).None? && Closing(body, 0).None?
             && Closing(y.rest, 0) == Some(m)
    ensures Fits(f, NextLayout(f, y, body, g1), body, g2)
  {
    hide Managed, SameKeys, PlainLines, Editable;
    var next, seen, lo, cr := NextLayout(f, y, body, g1), Seen(f, y, body).value, y.left + f.open, f.close + y.right;
    ClosingAgain(f, y, body, g1, m);
    UpdatedBelow(f, y, body, g1, m);
    var above := Rewrite(g1, DropBlank(y.rest[..m])) + Missing(g1, seen);
    var up := next.top + [lo] + body + [cr];
    UpdatedIsEditable(g1, g2, seen);
    assert SameProfile(g1, Updated(g1, seen), up + above);
    ProfileEditable(g1, g2, Updated(g1, seen), up + above);
    EditablePrefix(g2, up + above);
    TagLines(f, y);
    DropBlankAfter(up, above);
  }

  // ---- The layout of a file -------------------------------------------------------------------------

  lemma {:induction false} JoinAcross(up: seq<string>, last: string, first: string, down: seq<string>)
    ensures Join(up + [last]) + Join([first] + down) == Join(up + ([last + first] + down))
  {
    JoinPrepend(last, first, down);
    if up == [] {
      assert [] + [last] == [last] && [] + ([last + first] + down) == [last + first] + down;
    } else {
      JoinConcat(up, [last]);
      JoinConcat(up, [last + first] + down);
      assert Join(up) + "\n" + last + Join([first] + down) == Join(up) + "\n" + (last + Join([first] + down));
    }
  }

  lemma {:induction false} SplitConcat(a: string, b: string)
    ensures var s := Split(a); Split(a + b) == s[..|s| - 1] + ([s[|s| - 1] + Split(b)[0]] + Split(b)[1..])
  {
    var s, r := Split(a), Split(b);
    var up, last, first, down := s[..|s| - 1], s[|s| - 1], r[0], r[1..];
    JoinSplit(a);
    JoinSplit(b);
    SplitIsOneLiners(a);
    SplitIsOneLiners(b);
    assert up + [last] == s && [first] + down == r;
    JoinAcross(up, last, first, down);
    SplitJoin(up + ([last + first] + down));
  }

  function LayoutOf(f: Fence, text: string): Layout
    requires FenceSpan(f, text).Some?
  {
    var s := FenceSpan(f, text).value;
    var up, down := Split(text[..s.start]), Split(text[s.end..]);
    Layout(if |up| > 1 then up[1..|up| - 1] else [], up[|up| - 1], down[0], down[1..])
  }

  lemma {:induction false} FenceParts(f: Fence, text: string)
    requires IsFence(f) && FenceSpan(f, text).Some?
    ensures var s := FenceSpan(f, text).value;
            Section(f, text).Some? && text == text[..s.start] + Owned(f, Section(f, text).value) + text[s.end..]
  {
    hide FenceSpan, IsFence;
    var s := FenceSpan(f, text).value;
    FenceSlices(f, text, s);
    FiveParts(text, s.start, s.start + |f.open|, s.end - |f.close|, s.end);
  }

  lemma {:induction false} FenceSlices(f: Fence, text: string, s: Span)
    requires IsFence(f) && FenceSpan(f, text) == Some(s)
    ensures s.start + |f.open| + |f.close| <= s.end <= |text|
    ensures text[s.start..s.start + |f.open|] == f.open && text[s.end - |f.close|..s.end] == f.close
  {
    FenceSpanOnce(f, text);
    OccursSlice(text, f.open, s.start);
    OccursSlice(text, f.close, s.end - |f.close|);
  }

  lemma FiveParts(text: string, b: nat, c: nat, d: nat, e: nat)
    requires b <= c <= d <= e <= |text|
    ensures text == text[..b] + (text[b..c] + text[c..d] + text[d..e]) + text[e..]
  {
  }

  lemma {:induction false} FreeParts(f: Fence, text: string)
    requires IsFence(f) && FenceSpan(f, text).Some?
    ensures var s := FenceSpan(f, text).value;
            && Section(f, text).Some? && FreeOfFence(f, Section(f, text).value)
            && FreeOfFence(f, text[..s.start]) && FreeOfFence(f, text[s.end..])
  {
    hide Free, OccursAt;
    var s := FenceSpan(f, text).value;
    FenceSpanOnce(f, text);
    PartsFree(f, text, f.open, s.start, 0, s);
    PartsFree(f, text, f.close, s.end - |f.close|, 0, s);
    assert text[0..s.start] == text[..s.start];
  }

  lemma {:induction false} SplitFree(f: Fence, s: string)
    requires IsFence(f) && FreeOfFence(f, s)
    ensures CleanLines(f, Split(s))
  {
    SplitIsOneLiners(s);
    JoinSplit(s);
    FreeLines(Split(s), f.open);
    FreeLines(Split(s), f.close);
  }

  /** Above the fence the lines are those of the text. */
  lemma {:induction false} LinesAbove(f: Fence, text: string)
    requires IsFence(f) && FenceSpan(f, text).Some?
    ensures var up, all := Split(text[..FenceSpan(f, text).value.start]), Split(text);
            && |up| <= |all| && (forall k | 0 <= k < |up| - 1 :: all[k] == up[k])
            && all[|up| - 1] != RULE
  {
    var s := FenceSpan(f, text).value;
    var a, b := text[..s.start], text[s.start..];
    FenceSpanOnce(f, text);
    OccursSlice(text, f.open, s.start);
    SplitConcat(a, b);
    assert a + b == text && b[0] == '<';
    var up, line := Split(a), Split(a)[|Split(a)| - 1] + Split(b)[0];
    assert Split(b)[0][0] == '<';
    assert line[|up[|up| - 1]|] == '<';
  }

  /** A head that ends among the lines `up` of a front part fits into it. */
  lemma {:induction false} HeadFits(up: seq<string>, all: seq<string>, j: nat)
    requires 2 <= j < |up| - 1 && |up| <= |all| && (forall k | 0 <= k < |up| - 1 :: all[k] == up[k])
    requires all[0] == RULE && all[j] == RULE
    ensures |Head(all[1..j])| <= |Join(up)|
  {
    var top := [RULE] + all[1..j] + [RULE];
    forall k | 0 <= k <= j ensures up[k] == top[k] { assert all[k] == up[k]; }
    assert up[..j + 1] == top;
    JoinConcat(up[..j + 1], up[j + 1..]);
    assert up[..j + 1] + up[j + 1..] == up;
  }

  lemma {:induction false} ClosedAbove(f: Fence, text: string, j: nat)
    requires IsFence(f) && FenceSpan(f, text).Some? && HeaderEnd(text) == Some(j)
    requires j < |Split(text[..FenceSpan(f, text).value.start])| - 1
    ensures NoteOf(f, text).Some?
  {
    var s := FenceSpan(f, text).value;
    var up, all := Split(text[..s.start]), Split(text);
    LinesAbove(f, text);
    FenceSpanOnce(f, text);
    ClosingIsFirst(all, 2);
    JoinSplit(text[..s.start]);
    HeadFits(up, all, j);
  }

  /** The first rule opens a frontmatter that does not close above the fence. */
  lemma {:induction false} OpenAbove(f: Fence, text: string, k: nat)
    requires IsFence(f) && FenceSpan(f, text).Some? && Split(text)[0] == RULE && NoteOf(f, text).None?
    requires 2 <= k < |Split(text[..FenceSpan(f, text).value.start])| - 1
    ensures k < |Split(text)| && Split(text)[k] != RULE
  {
    var all := Split(text);
    LinesAbove(f, text);
    match Closing(all, 2)
    case None => NoClosing(all, 2);
    case Some(j) =>
      ClosingIsFirst(all, 2);
      if j <= k { ClosedAbove(f, text, j); }
  }

  lemma {:induction false} LayoutIsOk(f: Fence, text: string)
    requires IsFence(f) && FenceSpan(f, text).Some? && Split(text)[0] == RULE && NoteOf(f, text).None?
    ensures LayoutOk(f, LayoutOf(f, text)) && |Split(text[..FenceSpan(f, text).value.start])| > 1
  {
    hide FreeOfFence, NoteOf, FenceSpan, OneLine;
    var s, y := FenceSpan(f, text).value, LayoutOf(f, text);
    var up := Split(text[..s.start]);
    FreeParts(f, text);
    SplitFree(f, text[..s.start]);
    SplitFree(f, text[s.end..]);
    LinesAbove(f, text);
    assert |up| > 1;
    forall k | 1 <= k < |y.top| ensures y.top[k] != RULE {
      OpenAbove(f, text, k + 1);
      assert y.top[k] == Split(text)[k + 1];
    }
  }

  /** A fenced file that starts with a rule and closes no frontmatter above its fence is framed. */
  lemma {:induction false} LayoutOfIs(f: Fence, text: string)
    requires IsFence(f) && FenceSpan(f, text).Some? && Split(text)[0] == RULE && NoteOf(f, text).None?
    ensures Section(f, text).Some? && FreeOfFence(f, Section(f, text).value)
    ensures LayoutOk(f, LayoutOf(f, text)) && text == Framed(f, LayoutOf(f, text), Section(f, text).value)
  {
    hide FreeOfFence, LayoutOk, NoteOf, FenceSpan, Owned;
    var s, y := FenceSpan(f, text).value, LayoutOf(f, text);
    var up, down := Split(text[..s.start]), Split(text[s.end..]);
    FenceParts(f, text);
    FreeParts(f, text);
    LayoutIsOk(f, text);
    LinesAbove(f, text);
    JoinSplit(text[..s.start]);
    JoinSplit(text[s.end..]);
    assert [RULE] + y.top + [y.left] == up;
    assert [y.right] + y.rest == down;
  }
}
