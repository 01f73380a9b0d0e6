/**
 * The markdown blocks of `_to_markdown` (packages/apple-notes/fulcra_apple_notes/body.py), line by
 * line: which prefix each paragraph style gets, and how numbered lists count.
 */
module NoteBlocks {
  import opened Wrappers
  import opened TextLines
  import opened NoteBody

  // ---- One block ----------------------------------------------------------------------------------

  predicate Spaces(s: string) {
    forall c | c in s :: c == ' '
  }

  lemma {:induction false} IndentIsSpaces(n: nat)
    ensures |Indent(n)| == 4 * n && Spaces(Indent(n))
  {
    if n > 0 { IndentIsSpaces(n - 1); }
  }

  predicate Digits(s: string) {
    forall i | 0 <= i < |s| :: '0' <= s[i] <= '9'
  }

  /** The number a text of digits stands for. */
  function Number(digits: string): nat
    requires Digits(digits)
  {
    if digits == "" then 0
    else 10 * Number(digits[..|digits| - 1]) + (digits[|digits| - 1] as int - '0' as int)
  }

  lemma {:induction false} DecimalIsNumber(n: nat)
    ensures Digits(Decimal(n))
    ensures Number(Decimal(n)) == n && Decimal(n) != "" && (n > 0 ==> Decimal(n)[0] != '0')
  {
    if n < 10 {
      assert Decimal(n)[..0] == "";
    } else {
      DecimalIsNumber(n / 10);
      assert Decimal(n)[..|Decimal(n)| - 1] == Decimal(n / 10);
    }
  }

  /**
   * Each paragraph style has its own block: titles and headings one to three signs, list items a dash,
   * a number or a box that shows whether it is checked, code four more blanks; other text is bare.
   * White space around a line goes, except before code; a blank line stays blank in every style.
   */
  lemma {:induction false} BlockMeans(run: Run, counter: nat, line: string)
    ensures var block, indent, text := Block(Some(run), counter, line), Indent(run.indent), Strip(line);
            && (Blank(line) ==> block == "")
            && (!Blank(line) ==>
                  match run.style
                  case Some(0) => block == indent + "# " + text
                  case Some(1) => block == indent + "## " + text
                  case Some(2) => block == indent + "### " + text
                  case Some(4) => block == indent + "    " + RTrim(line)
                  case Some(100) => block == indent + "- " + text
                  case Some(101) => block == indent + "- " + text
                  case Some(102) => block == indent + Decimal(counter) + ". " + text
                  case Some(103) => block == indent + (if run.checked then "- [x] " else "- [ ] ") + text
                  case _ => block == indent + text)
    ensures Block(None, counter, line) == if Blank(line) then "" else Strip(line)
  {
    hide Strip, RTrim, LTrim, Blank, Indent, Decimal;
    StripsToNothing(line);
    Pieces(Indent(run.indent), Strip(line));
    Pieces("", Strip(line));
  }

  lemma {:induction false} Pieces(indent: string, text: string)
    ensures indent + "- " + "[x]" + " " + text == indent + "- [x] " + text
    ensures indent + "- " + "[ ]" + " " + text == indent + "- [ ] " + text
    ensures indent + "" + text == indent + text && "" + text == text
  {
    assert indent + "- " + "[x]" + " " == indent + "- [x] ";
    assert indent + "- " + "[ ]" + " " == indent + "- [ ] ";
  }

  lemma {:induction false} StripsToNothing(line: string)
    ensures Strip(line) == "" <==> Blank(line)
  {
    LTrimIs(line);
    RTrimIs(LTrim(line));
  }

  lemma {:induction false} LTrimIs(s: string)
    ensures (LTrim(s) == "" <==> Blank(s)) && (LTrim(s) != "" ==> !Space(LTrim(s)[0]))
  {
    if s != "" {
      assert s == [s[0]] + s[1..];
      LTrimIs(s[1..]);
    }
  }

  lemma {:induction false} RTrimIs(s: string)
    requires s == "" || !Space(s[0])
    ensures RTrim(s) == "" <==> s == ""
    decreases |s|
  {
    if s != "" && Space(s[|s| - 1]) { RTrimIs(s[..|s| - 1]); }
  }

  // ---- Every line ---------------------------------------------------------------------------------

  /** Where line `i` starts in the text. */
  function OffsetOf(lines: seq<string>, i: nat): nat
    requires i <= |lines|
  {
    if i == 0 then 0 else OffsetOf(lines, i - 1) + |lines[i - 1]| + 1
  }

  function RunOf(lines: seq<string>, runs: seq<Run>, i: nat): Option<Run>
    requires i < |lines|
  {
    RunFrom(runs, 0, OffsetOf(lines, i))
  }

  predicate Numbered(lines: seq<string>, runs: seq<Run>, i: nat)
    requires i < |lines|
  {
    var run := RunOf(lines, runs, i);
    run.Some? && run.value.style == Some(102)
  }

  /** How many numbered lines end at line `i`, one after the other. */
  function Streak(lines: seq<string>, runs: seq<Run>, i: nat): nat
    requires i < |lines|
  {
    if !Numbered(lines, runs, i) then 0 else (if i == 0 then 0 else Streak(lines, runs, i - 1)) + 1
  }

  lemma {:induction false} StreakIs(lines: seq<string>, runs: seq<Run>, i: nat)
    requires i < |lines|
    ensures var n := Streak(lines, runs, i);
            && n <= i + 1 && (forall j | i - n < j <= i :: Numbered(lines, runs, j))
            && (n <= i ==> !Numbered(lines, runs, i - n))
  {
    if Numbered(lines, runs, i) && i > 0 { StreakIs(lines, runs, i - 1); }
  }

  function CounterBefore(lines: seq<string>, runs: seq<Run>, i: nat): nat
    requires i <= |lines|
  {
    if i == 0 then 0 else Streak(lines, runs, i - 1)
  }

  /** The block of line `i`: by the run over its start, numbered by the streak of numbered lines it ends. */
  function BlockOf(lines: seq<string>, runs: seq<Run>, i: nat): string
    requires i < |lines|
  {
    Block(RunOf(lines, runs, i), Streak(lines, runs, i), Fill(lines[i], LineIds(runs, OffsetOf(lines, i), lines[i]), 0))
  }

  /** The blocks of the walk from line `from` on. */
  function RestOut(lines: seq<string>, runs: seq<Run>, from: nat): seq<string>
    requires from <= |lines|
  {
    Walk(lines[from..], runs, OffsetOf(lines, from), CounterBefore(lines, runs, from)).out
  }

  lemma {:induction false} NextIsStreak(lines: seq<string>, runs: seq<Run>, i: nat)
    requires i < |lines|
    ensures NextCounter(RunOf(lines, runs, i), CounterBefore(lines, runs, i)) == Streak(lines, runs, i)
  {
  }

  lemma {:induction false} RestStep(lines: seq<string>, runs: seq<Run>, from: nat)
    requires from < |lines|
    ensures RestOut(lines, runs, from) == [BlockOf(lines, runs, from)] + RestOut(lines, runs, from + 1)
  {
    WalkStep(lines, runs, from, OffsetOf(lines, from), CounterBefore(lines, runs, from));
    NextIsStreak(lines, runs, from);
    hide Walk, Block, Fill, LineIds, Streak, RunFrom, NextCounter;
  }

  lemma RestEmpty(lines: seq<string>, runs: seq<Run>)
    ensures RestOut(lines, runs, |lines|) == []
  {
    assert lines[|lines|..] == [];
  }

  lemma {:induction false} RestAt(lines: seq<string>, runs: seq<Run>, from: nat, i: nat)
    requires from <= |lines| && from <= i
    ensures |RestOut(lines, runs, from)| == |lines| - from
    ensures i < |lines| ==> RestOut(lines, runs, from)[i - from] == BlockOf(lines, runs, i)
    decreases |lines| - from
  {
    hide RestOut, BlockOf;
    if from == |lines| {
      RestEmpty(lines, runs);
    } else {
      RestStep(lines, runs, from);
      RestAt(lines, runs, from + 1, if i > from then i else from + 1);
    }
  }

  /** The walk puts exactly these blocks out. */
  lemma {:induction false} WalkAt(lines: seq<string>, runs: seq<Run>, i: nat)
    requires i < |lines|
    ensures |Walk(lines, runs, 0, 0).out| == |lines| && Walk(lines, runs, 0, 0).out[i] == BlockOf(lines, runs, i)
  {
    assert lines[0..] == lines && RestOut(lines, runs, 0) == Walk(lines, runs, 0, 0).out;
    hide Walk, BlockOf, RestOut;
    RestAt(lines, runs, 0, i);
  }

  function Count(line: string): nat {
    if line == "" then 0 else (if line[0] == '\U{fffc}' then 1 else 0) + Count(line[1..])
  }

  /** What stands for one character, the n-th placeholder if it is one. */
  function Piece(c: char, ids: seq<string>, n: nat): string {
    if c != '\U{fffc}' then [c]
    else if n < |ids| && ids[n] != "" then "{{attachment:" + ids[n] + "}}" else "*(attachment)*"
  }

  lemma FillHead(line: string, ids: seq<string>, k: nat)
    requires line != ""
    ensures Fill(line, ids, k)
            == Piece(line[0], ids, k) + Fill(line[1..], ids, if line[0] == '\U{fffc}' then k + 1 else k)
  {
  }

  lemma Regroup(a: string, b: string, c: string, d: string)
    ensures a + (b + c + d) == a + b + c + d
  {
  }

  /**
   * A line is filled character by character: the n-th placeholder becomes the token of the n-th id, or
   * the marker of an attachment without one where the ids give out; every other character stays.
   */
  lemma {:induction false} FillAt(before: string, c: char, after: string, ids: seq<string>, k: nat)
    ensures var n := k + Count(before);
            Fill(before + [c] + after, ids, k)
            == Fill(before, ids, k) + Piece(c, ids, n) + Fill(after, ids, if c == '\U{fffc}' then n + 1 else n)
  {
    var line := before + [c] + after;
    FillHead(line, ids, k);
    if before == "" {
      assert line[0] == c && line[1..] == after;
    } else {
      assert line[0] == before[0] && line[1..] == before[1..] + [c] + after;
      FillHead(before, ids, k);
      var next := if before[0] == '\U{fffc}' then k + 1 else k;
      FillAt(before[1..], c, after, ids, next);
      var n := k + Count(before);
      hide Fill, Piece;
      Regroup(Piece(before[0], ids, k), Fill(before[1..], ids, next), Piece(c, ids, n),
              Fill(after, ids, if c == '\U{fffc}' then n + 1 else n));
    }
  }

  /** A token tells its attachment, and whether there was one. */
  lemma {:induction false} TokenTellsId(a: string, b: string)
    requires a != b
    ensures Token(a) != Token(b)
  {
    assert Token("")[0] == '*';
    if a != "" { assert Token(a)[0] == '{' && Token(a)[13..|Token(a)| - 2] == a; }
    if b != "" { assert Token(b)[0] == '{' && Token(b)[13..|Token(b)| - 2] == b; }
  }
}
