/**
 * Note text and attribute runs to markdown (packages/apple-notes/fulcra_apple_notes/body.py): runs
 * are character ranges, and every U+FFFC in the text stands for the attachment of the run over it.
 */
module NoteBody {
  import opened Wrappers
  import opened TextLines

  const OBJECT_REPLACEMENT: char := '\U{FFFC}'

  datatype Run = Run(length: nat, style: Option<nat>, indent: nat, checked: bool, attachment: string)

  const STYLE_TITLE := 0
  const STYLE_HEADING := 1
  const STYLE_SUBHEADING := 2
  const STYLE_MONOSPACED := 4
  const STYLE_DOTTED := 100
  const STYLE_DASHED := 101
  const STYLE_NUMBERED := 102
  const STYLE_CHECKBOX := 103

  // ---- Runs over offsets ------------------------------------------------------------------------

  /** The run over `offset`, the runs starting at `cursor`. */
  function RunFrom(runs: seq<Run>, cursor: nat, offset: nat): Option<Run>
    decreases |runs|
  {
    if runs == [] then None
    else if offset < cursor + runs[0].length then Some(runs[0])
    else RunFrom(runs[1..], cursor + runs[0].length, offset)
  }

  /** `_run_at`. */
  method RunAt(runs: seq<Run>, offset: nat) returns (run: Option<Run>)
    ensures run == RunFrom(runs, 0, offset)
  {
    var cursor: nat := 0;
    for i := 0 to |runs|
      invariant RunFrom(runs[i..], cursor, offset) == RunFrom(runs, 0, offset)
    {
      assert runs[i..][0] == runs[i] && runs[i..][1..] == runs[i + 1..];
      if offset < cursor + runs[i].length { return Some(runs[i]); }
      cursor := cursor + runs[i].length;
    }
    run := None;
  }

  /** The attachment ids of the runs overlapping `[start, end)`. */
  function IdsFrom(runs: seq<Run>, cursor: nat, start: nat, end: nat): seq<string>
    decreases |runs|
  {
    if runs == [] then []
    else
      var next := cursor + runs[0].length;
      (if runs[0].attachment != "" && cursor < end && next > start then [runs[0].attachment] else [])
      + IdsFrom(runs[1..], next, start, end)
  }

  /** `_attachments_in`. */
  method AttachmentsIn(runs: seq<Run>, start: nat, end: nat) returns (found: seq<string>)
    ensures found == IdsFrom(runs, 0, start, end)
  {
    found := [];
    var cursor: nat := 0;
    for i := 0 to |runs|
      invariant found + IdsFrom(runs[i..], cursor, start, end) == IdsFrom(runs, 0, start, end)
    {
      assert runs[i..][0] == runs[i] && runs[i..][1..] == runs[i + 1..];
      var next := cursor + runs[i].length;
      if runs[i].attachment != "" && cursor < end && next > start { found := found + [runs[i].attachment]; }
      cursor := next;
    }
  }

  // ---- One line ---------------------------------------------------------------------------------

  function Token(id: string): string {
    if id != "" then "{{attachment:" + id + "}}" else "*(attachment)*"
  }

  function IdAt(ids: seq<string>, k: nat): string {
    if k < |ids| then ids[k] else ""
  }

  /** The line with its placeholders replaced, the first of them taking `ids[k]`. */
  function Fill(line: string, ids: seq<string>, k: nat): string {
    if line == "" then ""
    else if line[0] == OBJECT_REPLACEMENT then Token(IdAt(ids, k)) + Fill(line[1..], ids, k + 1)
    else [line[0]] + Fill(line[1..], ids, k)
  }

  /** The ids placed on a line. */
  function Placed(line: string, ids: seq<string>, k: nat): seq<string> {
    if line == "" then []
    else if line[0] == OBJECT_REPLACEMENT then
      (if IdAt(ids, k) != "" then [IdAt(ids, k)] else []) + Placed(line[1..], ids, k + 1)
    else Placed(line[1..], ids, k)
  }

  lemma Assoc<T>(a: seq<T>, b: seq<T>, c: seq<T>)
    ensures a + (b + c) == a + b + c
  {
  }

  /** What is filled of a line so far, with the rest of it filled from `k` on, is all of it. */
  predicate Filling(line: string, ids: seq<string>, filled: string, placed: seq<string>, i: nat, k: nat)
    requires i <= |line|
  {
    filled + Fill(line[i..], ids, k) == Fill(line, ids, 0) && placed + Placed(line[i..], ids, k) == Placed(line, ids, 0)
  }

  lemma {:induction false} FillStep(line: string, ids: seq<string>, filled: string, placed: seq<string>, i: nat, k: nat)
    requires i < |line| && Filling(line, ids, filled, placed, i, k)
    ensures line[i] == OBJECT_REPLACEMENT ==>
              Filling(line, ids, filled + Token(IdAt(ids, k)),
                      if IdAt(ids, k) != "" then placed + [IdAt(ids, k)] else placed, i + 1, k + 1)
    ensures line[i] != OBJECT_REPLACEMENT ==> Filling(line, ids, filled + [line[i]], placed, i + 1, k)
  {
    var rest, last := line[i..], line[i + 1..];
    assert rest[0] == line[i] && rest[1..] == last;
    if line[i] == OBJECT_REPLACEMENT {
      var one := if IdAt(ids, k) != "" then [IdAt(ids, k)] else [];
      Assoc(filled, Token(IdAt(ids, k)), Fill(last, ids, k + 1));
      Assoc(placed, one, Placed(last, ids, k + 1));
    } else {
      Assoc(filled, [line[i]], Fill(last, ids, k));
    }
  }

  lemma {:induction false} FillEnds(line: string, ids: seq<string>, filled: string, placed: seq<string>)
    ensures Filling(line, ids, "", [], 0, 0)
    ensures forall k: nat :: Filling(line, ids, filled, placed, |line|, k) ==>
              filled == Fill(line, ids, 0) && placed == Placed(line, ids, 0)
  {
    assert line[0..] == line && line[|line|..] == "";
    assert filled + "" == filled && placed + [] == placed;
  }

  method FillLine(line: string, ids: seq<string>) returns (filled: string, placed: seq<string>)
    ensures filled == Fill(line, ids, 0) && placed == Placed(line, ids, 0)
  {
    hide Fill, Placed, Token, Filling;
    filled, placed := "", [];
    var idx: nat := 0;
    FillEnds(line, ids, filled, placed);
    for i := 0 to |line|
      invariant Filling(line, ids, filled, placed, i, idx)
    {
      FillStep(line, ids, filled, placed, i, idx);
      if line[i] == OBJECT_REPLACEMENT {
        var aid := if idx < |ids| then ids[idx] else "";
        idx := idx + 1;
        if aid != "" { placed := placed + [aid]; }
        filled := filled + Token(aid);
      } else {
        filled := filled + [line[i]];
      }
    }
    FillEnds(line, ids, filled, placed);
  }

  function Decimal(n: nat): string {
    if n < 10 then [('0' as int + n) as char] else Decimal(n / 10) + [('0' as int + n % 10) as char]
  }

  function Indent(n: nat): string {
    if n == 0 then "" else "    " + Indent(n - 1)
  }

  function StyleOf(run: Option<Run>): Option<nat> {
    match run case Some(r) => r.style case None => None
  }

  function Prefix(style: Option<nat>): string {
    if style == Some(STYLE_TITLE) then "# "
    else if style == Some(STYLE_HEADING) then "## "
    else if style == Some(STYLE_SUBHEADING) then "### "
    else if style == Some(STYLE_DOTTED) || style == Some(STYLE_DASHED) then "- "
    else ""
  }

  /** A filled line as a markdown block; `counter` is its number in a numbered list. */
  function Block(run: Option<Run>, counter: nat, line: string): string {
    var style, stripped := StyleOf(run), Strip(line);
    var indent := match run case Some(r) => Indent(r.indent) case None => "";
    if stripped == "" then ""
    else if style == Some(STYLE_CHECKBOX) then
      indent + "- " + (if run.value.checked then "[x]" else "[ ]") + " " + stripped
    else if style == Some(STYLE_NUMBERED) then indent + Decimal(counter) + ". " + stripped
    else if style == Some(STYLE_MONOSPACED) then indent + "    " + RTrim(line)
    else indent + Prefix(style) + stripped
  }

  // ---- All lines --------------------------------------------------------------------------------

  datatype Walked = Walked(out: seq<string>, ids: seq<string>)

  function LineIds(runs: seq<Run>, offset: nat, line: string): seq<string> {
    if OBJECT_REPLACEMENT in line then IdsFrom(runs, 0, offset, offset + |line|) else []
  }

  function NextCounter(run: Option<Run>, counter: nat): nat {
    if StyleOf(run) == Some(STYLE_NUMBERED) then counter + 1 else 0
  }

  function Walk(lines: seq<string>, runs: seq<Run>, offset: nat, counter: nat): Walked
    decreases |lines|
  {
    if lines == [] then Walked([], [])
    else
      var line, run := lines[0], RunFrom(runs, 0, offset);
      var ids := LineIds(runs, offset, line);
      var next := NextCounter(run, counter);
      var rest := Walk(lines[1..], runs, offset + |line| + 1, next);
      Walked([Block(run, next, Fill(line, ids, 0))] + rest.out, Placed(line, ids, 0) + rest.ids)
  }

  lemma {:induction false} FillNothing(line: string, ids: seq<string>, k: nat)
    requires OBJECT_REPLACEMENT !in line
    ensures Fill(line, ids, k) == line && Placed(line, ids, k) == []
  {
    if line != "" {
      assert line == [line[0]] + line[1..];
      FillNothing(line[1..], ids, k);
    }
  }

  lemma {:induction false} WalkStep(lines: seq<string>, runs: seq<Run>, i: nat, offset: nat, counter: nat)
    requires i < |lines|
    ensures var line, run := lines[i], RunFrom(runs, 0, offset);
            var ids, next := LineIds(runs, offset, line), NextCounter(run, counter);
            var here, rest := Walk(lines[i..], runs, offset, counter),
              Walk(lines[i + 1..], runs, offset + |line| + 1, next);
            here.out == [Block(run, next, Fill(line, ids, 0))] + rest.out && here.ids == Placed(line, ids, 0) + rest.ids
  {
    assert lines[i..][0] == lines[i] && lines[i..][1..] == lines[i + 1..];
  }

  /** The line as it is written, and the ids placed on it. */
  method OneLineFilled(runs: seq<Run>, offset: nat, line: string) returns (filled: string, placed: seq<string>)
    ensures filled == Fill(line, LineIds(runs, offset, line), 0)
            && placed == Placed(line, LineIds(runs, offset, line), 0)
  {
    if OBJECT_REPLACEMENT in line {
      var end := if offset + |line| >= offset + 1 then offset + |line| else offset + 1;
      var found := AttachmentsIn(runs, offset, end);
      filled, placed := FillLine(line, found);
    } else {
      FillNothing(line, [], 0);
      filled, placed := line, [];
    }
  }

  /** What is written so far, with what is to come, is all. */
  predicate Progress(all: Walked, out: seq<string>, ids: seq<string>, rest: Walked) {
    out + rest.out == all.out && ids + rest.ids == all.ids
  }

  lemma {:induction false} ProgressStep(all: Walked, out: seq<string>, ids: seq<string>, here: Walked, rest: Walked,
                                        block: string, placed: seq<string>)
    requires Progress(all, out, ids, here) && here.out == [block] + rest.out && here.ids == placed + rest.ids
    ensures Progress(all, out + [block], ids + placed, rest)
  {
    Assoc(out, [block], rest.out);
    Assoc(ids, placed, rest.ids);
  }

  lemma {:induction false} ProgressEnds(lines: seq<string>, runs: seq<Run>, out: seq<string>, ids: seq<string>)
    ensures Progress(Walk(lines, runs, 0, 0), [], [], Walk(lines[0..], runs, 0, 0))
    ensures forall offset: nat, counter: nat ::
              Progress(Walk(lines, runs, 0, 0), out, ids, Walk(lines[|lines|..], runs, offset, counter)) ==>
              out == Walk(lines, runs, 0, 0).out && ids == Walk(lines, runs, 0, 0).ids
  {
    var all := Walk(lines, runs, 0, 0);
    assert lines[0..] == lines && [] + all.out == all.out && [] + all.ids == all.ids;
    assert lines[|lines|..] == [] && out + [] == out && ids + [] == ids;
  }

  /** `_to_markdown`. */
  method ToMarkdown(text: string, runs: seq<Run>) returns (markdown: string, attachments: seq<string>)
    ensures markdown == Strip(Join(Walk(Split(text), runs, 0, 0).out))
    ensures attachments == Walk(Split(text), runs, 0, 0).ids
  {
    hide Walk, Block, Fill, Placed, LineIds, RunFrom, Split, Join, Strip, Progress;
    var lines := Split(text);
    var out: seq<string>, offset: nat, counter: nat := [], 0, 0;
    attachments := [];
    ghost var all := Walk(lines, runs, 0, 0);
    ProgressEnds(lines, runs, out, attachments);
    for i := 0 to |lines|
      invariant Progress(all, out, attachments, Walk(lines[i..], runs, offset, counter))
    {
      WalkStep(lines, runs, i, offset, counter);
      ghost var here := Walk(lines[i..], runs, offset, counter);
      var run := RunAt(runs, offset);
      var line, placed := OneLineFilled(runs, offset, lines[i]);
      if StyleOf(run) == Some(STYLE_NUMBERED) { counter := counter + 1; } else { counter := 0; }
      offset := offset + |lines[i]| + 1;
      var block := Block(run, counter, line);
      ProgressStep(all, out, attachments, here, Walk(lines[i + 1..], runs, offset, counter), block, placed);
      out := out + [block];
      attachments := attachments + placed;
    }
    ProgressEnds(lines, runs, out, attachments);
    markdown := Strip(Join(out));
  }

  // ---- Alignment --------------------------------------------------------------------------------

  predicate NoObject(text: string, lo: nat, hi: nat) {
    forall o | lo <= o < hi && o < |text| :: text[o] != OBJECT_REPLACEMENT
  }

  /** Every placeholder is under its own run of length 1, and these runs carry the only ids. */
  predicate Aligned(text: string, runs: seq<Run>, cursor: nat)
    decreases |runs|
  {
    if runs == [] then NoObject(text, cursor, |text|)
    else
      var next := cursor + runs[0].length;
      && (if runs[0].attachment != "" then runs[0].length == 1 && cursor < |text| && text[cursor] == OBJECT_REPLACEMENT
          else NoObject(text, cursor, next))
      && Aligned(text, runs[1..], next)
  }

  /** The id of the run over `offset`. */
  function IdOver(runs: seq<Run>, cursor: nat, offset: nat): string {
    match RunFrom(runs, cursor, offset) case Some(run) => run.attachment case None => ""
  }

  /** The ids over the placeholders of `[lo, hi)`, in text order. */
  function IdsOver(text: string, runs: seq<Run>, cursor: nat, lo: nat, hi: nat): seq<string>
    requires hi <= |text|
    decreases hi - lo
  {
    if lo >= hi then []
    else
      (if text[lo] == OBJECT_REPLACEMENT then [IdOver(runs, cursor, lo)] else [])
        + IdsOver(text, runs, cursor, lo + 1, hi)
  }

  lemma {:induction false} IdsOverSkips(text: string, runs: seq<Run>, cursor: nat, lo: nat, mid: nat, hi: nat)
    requires hi <= |text| && lo <= mid && NoObject(text, lo, mid)
    ensures IdsOver(text, runs, cursor, lo, hi) == IdsOver(text, runs, cursor, mid, hi)
    decreases mid - lo
  {
    if lo < mid && lo < hi { IdsOverSkips(text, runs, cursor, lo + 1, mid, hi); }
  }

  lemma {:induction false} IdsOverRest(text: string, runs: seq<Run>, cursor: nat, lo: nat, hi: nat)
    requires hi <= |text| && runs != [] && lo >= cursor + runs[0].length
    ensures IdsOver(text, runs, cursor, lo, hi) == IdsOver(text, runs[1..], cursor + runs[0].length, lo, hi)
    decreases hi - lo
  {
    if lo < hi { IdsOverRest(text, runs, cursor, lo + 1, hi); }
  }

  function Max(a: nat, b: nat): nat {
    if a < b then b else a
  }

  lemma IdOverHead(runs: seq<Run>, cursor: nat)
    requires runs != [] && runs[0].length > 0
    ensures IdOver(runs, cursor, cursor) == runs[0].attachment
  {
  }

  /** The first run's share of the ids over a range. */
  lemma {:induction false} HeadIds(text: string, runs: seq<Run>, cursor: nat, start: nat, end: nat)
    requires end <= |text| && runs != [] && Aligned(text, runs, cursor)
    ensures var next := cursor + runs[0].length;
            IdsOver(text, runs, cursor, Max(start, cursor), end)
            == (if runs[0].attachment != "" && cursor < end && next > start then [runs[0].attachment] else [])
               + IdsOver(text, runs, cursor, Max(start, next), end)
  {
    var lo, next := Max(start, cursor), cursor + runs[0].length;
    if runs[0].attachment == "" {
      IdsOverSkips(text, runs, cursor, lo, Max(lo, next), end);
    } else {
      hide RunFrom, IdOver;
      IdOverHead(runs, cursor);
    }
  }

  /** In order, the ids on the runs over a range are the ids over its placeholders. */
  lemma {:induction false} IdsFromAreIdsOver(text: string, runs: seq<Run>, cursor: nat, start: nat, end: nat)
    requires end <= |text| && Aligned(text, runs, cursor)
    ensures IdsFrom(runs, cursor, start, end) == IdsOver(text, runs, cursor, Max(start, cursor), end)
    decreases |runs|
  {
    if runs == [] {
      IdsOverSkips(text, runs, cursor, Max(start, cursor), Max(Max(start, cursor), |text|), end);
    } else {
      var next := cursor + runs[0].length;
      IdsFromAreIdsOver(text, runs[1..], next, start, end);
      HeadIds(text, runs, cursor, start, end);
      hide IdsOver, Aligned;
      IdsOverRest(text, runs, cursor, Max(start, next), end);
    }
  }

  function Objects(line: string): nat {
    if line == "" then 0 else (if line[0] == OBJECT_REPLACEMENT then 1 else 0) + Objects(line[1..])
  }

  /** The ids of a line that lies at `offset` in the text. */
  lemma {:induction false} LineIdsAreOver(text: string, runs: seq<Run>, offset: nat, line: string)
    requires Aligned(text, runs, 0) && offset + |line| <= |text| && text[offset..offset + |line|] == line
    ensures LineIds(runs, offset, line) == IdsOver(text, runs, 0, offset, offset + |line|)
  {
    if OBJECT_REPLACEMENT in line {
      IdsFromAreIdsOver(text, runs, 0, offset, offset + |line|);
    } else {
      forall o | offset <= o < offset + |line| ensures text[o] != OBJECT_REPLACEMENT {
        assert line[o - offset] == text[o];
      }
      IdsOverSkips(text, runs, 0, offset, offset + |line|, offset + |line|);
    }
  }

  /** The k-th placeholder of a line takes the k-th id: the id over its own offset. */
  lemma {:induction false} PlaceholderTakesItsId(text: string, runs: seq<Run>, offset: nat, end: nat, at: nat)
    requires offset <= at < end <= |text| && text[at] == OBJECT_REPLACEMENT
    ensures IdAt(IdsOver(text, runs, 0, offset, end), Objects(text[offset..at])) == IdOver(runs, 0, at)
    decreases at - offset
  {
    if offset < at {
      PlaceholderTakesItsId(text, runs, offset + 1, end, at);
      assert text[offset..at][1..] == text[offset + 1..at];
    }
  }

  /** A placeholder's own run carries an id. */
  lemma {:induction false} ObjectsHaveIds(text: string, runs: seq<Run>, cursor: nat, at: nat)
    requires Aligned(text, runs, cursor) && cursor <= at < |text| && text[at] == OBJECT_REPLACEMENT
    ensures IdOver(runs, cursor, at) != ""
    decreases |runs|
  {
    if runs != [] && at >= cursor + runs[0].length { ObjectsHaveIds(text, runs[1..], cursor + runs[0].length, at); }
  }

  lemma {:induction false} IdsOverAreIds(text: string, runs: seq<Run>, lo: nat, hi: nat)
    requires Aligned(text, runs, 0) && hi <= |text|
    ensures forall k | 0 <= k < |IdsOver(text, runs, 0, lo, hi)| :: IdsOver(text, runs, 0, lo, hi)[k] != ""
    decreases hi - lo
  {
    if lo < hi {
      IdsOverAreIds(text, runs, lo + 1, hi);
      if text[lo] == OBJECT_REPLACEMENT { ObjectsHaveIds(text, runs, 0, lo); }
    }
  }

  lemma {:induction false} PlacedAll(line: string, ids: seq<string>, k: nat)
    requires k + Objects(line) == |ids| && forall i | 0 <= i < |ids| :: ids[i] != ""
    ensures Placed(line, ids, k) == ids[k..]
  {
    if line != "" { PlacedAll(line[1..], ids, if line[0] == OBJECT_REPLACEMENT then k + 1 else k); }
  }

  lemma {:induction false} IdsOverCount(text: string, runs: seq<Run>, lo: nat, hi: nat)
    requires lo <= hi <= |text|
    ensures |IdsOver(text, runs, 0, lo, hi)| == Objects(text[lo..hi])
    decreases hi - lo
  {
    if lo < hi {
      IdsOverCount(text, runs, lo + 1, hi);
      assert text[lo..hi][1..] == text[lo + 1..hi];
    }
  }

  lemma {:induction false} IdsOverSplit(text: string, runs: seq<Run>, lo: nat, mid: nat, hi: nat)
    requires lo <= mid <= hi <= |text|
    ensures IdsOver(text, runs, 0, lo, hi) == IdsOver(text, runs, 0, lo, mid) + IdsOver(text, runs, 0, mid, hi)
    decreases mid - lo
  {
    if lo < mid { IdsOverSplit(text, runs, lo + 1, mid, hi); }
  }

  lemma {:induction false} LineOfRest(text: string, lines: seq<string>, offset: nat)
    requires lines != [] && offset <= |text| && text[offset..] == Join(lines)
    ensures var end := offset + |lines[0]|;
            && end <= |text| && text[offset..end] == lines[0]
            && (|lines| == 1 ==> end == |text|)
            && (|lines| > 1 ==> end < |text| && text[end] == '\n' && text[end + 1..] == Join(lines[1..]))
  {
    var line, rest := lines[0], text[offset..];
    assert rest[..|line|] == line && rest[..|line|] == text[offset..offset + |line|];
    if |lines| > 1 {
      assert rest[|line|..] == "\n" + Join(lines[1..]) by { assert rest == line + ("\n" + Join(lines[1..])); }
      assert rest[|line|..] == text[offset + |line|..];
      assert text[offset + |line|..][1..] == text[offset + |line| + 1..];
    }
  }

  lemma {:induction false} LinePlacesAll(text: string, runs: seq<Run>, offset: nat, line: string)
    requires Aligned(text, runs, 0) && offset + |line| <= |text| && text[offset..offset + |line|] == line
    ensures Placed(line, LineIds(runs, offset, line), 0) == IdsOver(text, runs, 0, offset, offset + |line|)
  {
    LineIdsAreOver(text, runs, offset, line);
    IdsOverCount(text, runs, offset, offset + |line|);
    IdsOverAreIds(text, runs, offset, offset + |line|);
    PlacedAll(line, LineIds(runs, offset, line), 0);
  }

  /** Line by line, the placed ids are the ids over the rest of the text. */
  lemma {:induction false} WalkPlacesAll(text: string, lines: seq<string>, runs: seq<Run>, offset: nat, counter: nat)
    requires Aligned(text, runs, 0) && lines != [] && offset <= |text| && text[offset..] == Join(lines)
    ensures Walk(lines, runs, offset, counter).ids == IdsOver(text, runs, 0, offset, |text|)
    decreases |lines|
  {
    hide Aligned, LineIds, RunFrom, Placed, Fill, Block;
    var line, next := lines[0], NextCounter(RunFrom(runs, 0, offset), counter);
    var end := offset + |line|;
    LineOfRest(text, lines, offset);
    LinePlacesAll(text, runs, offset, line);
    WalkStep(lines, runs, 0, offset, counter);
    assert lines[0..] == lines;
    if |lines| == 1 {
      assert Walk(lines[1..], runs, end + 1, next).ids == [];
    } else {
      hide Walk;
      WalkPlacesAll(text, lines[1..], runs, end + 1, next);
      IdsOverSplit(text, runs, offset, end, |text|);
    }
  }

  /** All attachment ids, in run order. */
  function AllIds(runs: seq<Run>): seq<string> {
    if runs == [] then [] else (if runs[0].attachment != "" then [runs[0].attachment] else []) + AllIds(runs[1..])
  }

  lemma {:induction false} EveryRunIsInText(text: string, runs: seq<Run>, cursor: nat)
    requires Aligned(text, runs, cursor)
    ensures IdsFrom(runs, cursor, 0, |text|) == AllIds(runs)
    decreases |runs|
  {
    if runs != [] { EveryRunIsInText(text, runs[1..], cursor + runs[0].length); }
  }

  /** The returned list is every attachment id, once each and in run order. */
  lemma {:induction false} ReturnedIdsAreAll(text: string, runs: seq<Run>)
    requires Aligned(text, runs, 0)
    ensures Walk(Split(text), runs, 0, 0).ids == AllIds(runs)
  {
    JoinSplit(text);
    assert text[0..] == text;
    WalkPlacesAll(text, Split(text), runs, 0, 0);
    IdsFromAreIdsOver(text, runs, 0, 0, |text|);
    EveryRunIsInText(text, runs, 0);
  }

  lemma {:induction false} PlaceholderId(text: string, runs: seq<Run>, offset: nat, line: string, at: nat)
    requires Aligned(text, runs, 0) && offset + |line| <= |text| && text[offset..offset + |line|] == line
    requires at < |line| && line[at] == OBJECT_REPLACEMENT
    ensures IdAt(LineIds(runs, offset, line), Objects(line[..at])) == IdOver(runs, 0, offset + at) != ""
  {
    hide Aligned, IdOver, LineIds, IdsOver;
    LineIdsAreOver(text, runs, offset, line);
    assert text[offset + at] == text[offset..offset + |line|][at];
    PlaceholderTakesItsId(text, runs, offset, offset + |line|, offset + at);
    assert text[offset..offset + at] == line[..at];
    ObjectsHaveIds(text, runs, 0, offset + at);
  }

  /** Each placeholder of a line is replaced by the token of the run over its own offset. */
  lemma {:induction false} PlaceholderIsItsRun(text: string, runs: seq<Run>, offset: nat, line: string, at: nat)
    requires Aligned(text, runs, 0) && offset + |line| <= |text| && text[offset..offset + |line|] == line
    requires at < |line| && line[at] == OBJECT_REPLACEMENT
    ensures var ids := LineIds(runs, offset, line);
            && IdOver(runs, 0, offset + at) != ""
            && Fill(line, ids, 0)
               == Fill(line[..at], ids, 0) + Token(IdOver(runs, 0, offset + at))
                 + Fill(line[at + 1..], ids, Objects(line[..at]) + 1)
  {
    hide Aligned, IdOver, LineIds, IdsOver, Fill, Token, Objects;
    PlaceholderId(text, runs, offset, line, at);
    FillSplit(line, LineIds(runs, offset, line), 0, at);
  }

  lemma {:induction false} FillSplit(line: string, ids: seq<string>, k: nat, at: nat)
    requires at < |line| && line[at] == OBJECT_REPLACEMENT
    ensures Fill(line, ids, k) ==
            Fill(line[..at], ids, k) + Token(IdAt(ids, k + Objects(line[..at])))
              + Fill(line[at + 1..], ids, k + Objects(line[..at]) + 1)
    decreases |line|
  {
    hide Token, IdAt;
    if at > 0 {
      var next := if line[0] == OBJECT_REPLACEMENT then k + 1 else k;
      var head := if line[0] == OBJECT_REPLACEMENT then Token(IdAt(ids, k)) else [line[0]];
      var rest := line[1..];
      FillSplit(rest, ids, next, at - 1);
      assert line[..at][1..] == rest[..at - 1] && rest[at..] == line[at + 1..];
      assert Fill(line, ids, k) == head + Fill(rest, ids, next);
      assert Fill(line[..at], ids, k) == head + Fill(rest[..at - 1], ids, next);
      assert next + Objects(rest[..at - 1]) == k + Objects(line[..at]);
      hide Fill, Objects;
      Regrouped(head, Fill(rest[..at - 1], ids, next), Token(IdAt(ids, k + Objects(line[..at]))),
                Fill(line[at + 1..], ids, k + Objects(line[..at]) + 1));
    } else {
      assert line[..0] == "";
    }
  }

  lemma Regrouped<T>(a: seq<T>, b: seq<T>, c: seq<T>, d: seq<T>)
    ensures a + (b + c + d) == a + b + c + d
  {
  }

  // ---- The markdown as a whole ------------------------------------------------------------------

  /** A stretch of the text, each placeholder replaced by the token of the run over its own offset. */
  function Substituted(text: string, runs: seq<Run>, lo: nat, hi: nat): string
    requires hi <= |text|
    decreases hi - lo
  {
    if lo >= hi then ""
    else
      (if text[lo] == OBJECT_REPLACEMENT then Token(IdOver(runs, 0, lo)) else [text[lo]])
        + Substituted(text, runs, lo + 1, hi)
  }

  /** The blocks of the lines of the text from `offset` on, each from its own stretch. */
  function BlocksOver(text: string, lines: seq<string>, runs: seq<Run>, offset: nat, counter: nat): seq<string>
    decreases |lines|
  {
    if lines == [] || offset + |lines[0]| > |text| then []
    else
      var end, run := offset + |lines[0]|, RunFrom(runs, 0, offset);
      [Block(run, NextCounter(run, counter), Substituted(text, runs, offset, end))]
      + BlocksOver(text, lines[1..], runs, end + 1, NextCounter(run, counter))
  }

  lemma {:induction false} FillIsSubstituted(text: string, runs: seq<Run>, offset: nat, lo: nat, end: nat)
    requires offset <= lo <= end <= |text|
    ensures Fill(text[lo..end], IdsOver(text, runs, 0, offset, end), Objects(text[offset..lo]))
            == Substituted(text, runs, lo, end)
    decreases end - lo
  {
    hide Token, IdOver, IdsOver;
    if lo < end {
      FillIsSubstituted(text, runs, offset, lo + 1, end);
      assert text[lo..end][1..] == text[lo + 1..end];
      ObjectsSnoc(text[offset..lo], text[lo]);
      assert text[offset..lo] + [text[lo]] == text[offset..lo + 1];
      if text[lo] == OBJECT_REPLACEMENT { PlaceholderTakesItsId(text, runs, offset, end, lo); }
    }
  }

  lemma {:induction false} ObjectsSnoc(line: string, c: char)
    ensures Objects(line + [c]) == Objects(line) + if c == OBJECT_REPLACEMENT then 1 else 0
  {
    if line == "" {
      assert (line + [c])[1..] == "";
    } else {
      ObjectsSnoc(line[1..], c);
      assert (line + [c])[1..] == line[1..] + [c];
    }
  }

  lemma {:induction false} LineIsSubstituted(text: string, runs: seq<Run>, offset: nat, line: string)
    requires Aligned(text, runs, 0) && offset + |line| <= |text| && text[offset..offset + |line|] == line
    ensures Fill(line, LineIds(runs, offset, line), 0) == Substituted(text, runs, offset, offset + |line|)
  {
    LineIdsAreOver(text, runs, offset, line);
    FillIsSubstituted(text, runs, offset, offset, offset + |line|);
    assert text[offset..offset] == "";
  }

  lemma {:induction false} WalkIsBlocks(text: string, lines: seq<string>, runs: seq<Run>, offset: nat, counter: nat)
    requires Aligned(text, runs, 0) && lines != [] && offset <= |text| && text[offset..] == Join(lines)
    ensures Walk(lines, runs, offset, counter).out == BlocksOver(text, lines, runs, offset, counter)
    decreases |lines|
  {
    hide Aligned, LineIds, RunFrom, Placed, Fill, Block, Substituted;
    var line, next := lines[0], NextCounter(RunFrom(runs, 0, offset), counter);
    var end := offset + |line|;
    LineOfRest(text, lines, offset);
    LineIsSubstituted(text, runs, offset, line);
    WalkStep(lines, runs, 0, offset, counter);
    assert lines[0..] == lines;
    if |lines| == 1 {
      assert Walk(lines[1..], runs, end + 1, next).out == [] == BlocksOver(text, lines[1..], runs, end + 1, next);
    } else {
      hide Walk;
      WalkIsBlocks(text, lines[1..], runs, end + 1, next);
    }
  }

  /**
   * The blocks of the walk are those of the text with every placeholder replaced by the token of the
   * run over its own offset: the markdown does not depend on how the lines share out the ids.
   */
  lemma {:induction false} MarkdownIsSubstituted(text: string, runs: seq<Run>)
    requires Aligned(text, runs, 0)
    ensures Walk(Split(text), runs, 0, 0).out == BlocksOver(text, Split(text), runs, 0, 0)
  {
    JoinSplit(text);
    assert text[0..] == text;
    WalkIsBlocks(text, Split(text), runs, 0, 0);
  }
}
