/**
 * Managed frontmatter (packages/apple-notes/fulcra_apple_notes/render.py, `merge_note`): every
 * generated `key: value` line replaces the one line of that key, or is appended.
 */
module NoteHeader {
  import opened Wrappers
  import opened TextLines

  /** `line.split(":", 1)[0]`. */
  function KeyOf(line: string): string {
    if line == "" || line[0] == ':' then "" else [line[0]] + KeyOf(line[1..])
  }

  /** `old.startswith(key + ":")` for the key of `line`. */
  predicate Hits(prior: string, line: string) {
    KeyOf(line) + ":" <= prior
  }

  predicate Indented(line: string) {
    line != "" && line[0] in {' ', '\t'}
  }

  lemma {:induction false} KeyShape(line: string)
    ensures ':' !in KeyOf(line) && KeyOf(line) <= line
    ensures ':' in line ==> |KeyOf(line)| < |line| && line[|KeyOf(line)|] == ':'
  {
    if line != "" && line[0] != ':' {
      KeyShape(line[1..]);
      if ':' in line { assert ':' in line[1..] by { assert line == [line[0]] + line[1..]; } }
    }
  }

  /** A line is hit by the keys equal to its own, and by no other. */
  lemma {:induction false} HitsIsSameKey(prior: string, line: string)
    ensures Hits(prior, line) <==> ':' in prior && KeyOf(prior) == KeyOf(line)
  {
    KeyShape(prior);
    KeyShape(line);
    var k := KeyOf(line);
    if Hits(prior, line) {
      assert prior[|k|] == (k + ":")[|k|] == ':' && prior[..|k|] == k;
      assert ':' in prior;
      var o := KeyOf(prior);
      assert o == prior[..|o|];
    }
    if ':' in prior && KeyOf(prior) == k {
      assert prior[..|k| + 1] == k + ":";
    }
  }

  /** A generated header: single `key: value` lines with distinct keys. */
  predicate Managed(gen: seq<string>) {
    && (forall i | 0 <= i < |gen| :: ':' in gen[i] && OneLine(gen[i]) && !Indented(gen[i]))
    && (forall i, j | 0 <= i < j < |gen| :: KeyOf(gen[i]) != KeyOf(gen[j]))
  }

  // ---- One line at a time ---------------------------------------------------------------------

  /** The first line from `from` on that `line` hits. */
  function HitFrom(lines: seq<string>, line: string, from: nat): Option<nat>
    requires from <= |lines|
    decreases |lines| - from
  {
    if from == |lines| then None
    else if Hits(lines[from], line) then Some(from)
    else HitFrom(lines, line, from + 1)
  }

  /** One turn of the loop: None when the edit would be ambiguous or cut into a multi-line value. */
  function Put(lines: seq<string>, line: string): Option<seq<string>> {
    match HitFrom(lines, line, 0)
    case None => Some(lines + [line])
    case Some(i) =>
      HitInRange(lines, line, 0);
      if HitFrom(lines, line, i + 1).Some? then None
      else if i + 1 < |lines| && Indented(lines[i + 1]) then None
      else Some(lines[i := line])
  }

  function PutAll(lines: seq<string>, gen: seq<string>): Option<seq<string>>
    decreases |gen|
  {
    if gen == [] then Some(lines)
    else match Put(lines, gen[0])
         case None => None
         case Some(next) => PutAll(next, gen[1..])
  }

  lemma {:induction false} HitInRange(lines: seq<string>, line: string, from: nat)
    requires from <= |lines|
    ensures match HitFrom(lines, line, from)
            case None => forall j | from <= j < |lines| :: !Hits(lines[j], line)
            case Some(i) =>
              from <= i < |lines| && Hits(lines[i], line)
              && forall j | from <= j < i :: !Hits(lines[j], line)
    decreases |lines| - from
  {
    if from < |lines| && !Hits(lines[from], line) { HitInRange(lines, line, from + 1); }
  }

  /** The loop of `merge_note` over the generated header lines, editing `lines` in place. */
  method UpdateHeader(header: seq<string>, gen: seq<string>) returns (result: Option<seq<string>>)
    ensures result == PutAll(header, gen)
  {
    var lines := header;
    for n := 0 to |gen|
      invariant PutAll(lines, gen[n..]) == PutAll(header, gen)
    {
      var line := gen[n];
      assert gen[n..][1..] == gen[n + 1..];
      var hits: seq<nat> := [];
      for i := 0 to |lines|
        invariant hits == [] ==> forall j | 0 <= j < i :: !Hits(lines[j], line)
        invariant hits != [] ==>
                    hits[0] < i && Hits(lines[hits[0]], line) && forall j | 0 <= j < hits[0] :: !Hits(lines[j], line)
        invariant |hits| == 1 ==> forall j | hits[0] < j < i :: !Hits(lines[j], line)
        invariant |hits| > 1 ==> hits[0] < hits[1] < i && Hits(lines[hits[1]], line)
      {
        if Hits(lines[i], line) { hits := hits + [i]; }
      }
      HitInRange(lines, line, 0);
      if |hits| > 1 {
        HitInRange(lines, line, hits[0] + 1);
        return None;
      }
      if hits != [] {
        var i := hits[0];
        HitInRange(lines, line, i + 1);
        if i + 1 < |lines| && Indented(lines[i + 1]) { return None; }
        lines := lines[i := line];
      } else {
        lines := lines + [line];
      }
    }
    assert gen[|gen|..] == [];
    result := Some(lines);
  }

  // ---- All lines at once ----------------------------------------------------------------------

  /** The generated line that replaces `prior`, if one does. */
  function Pick(gen: seq<string>, prior: string): Option<string> {
    if gen == [] then None
    else if Hits(prior, gen[0]) then Some(gen[0])
    else Pick(gen[1..], prior)
  }

  function Replaced(gen: seq<string>, prior: string): string {
    match Pick(gen, prior) case Some(line) => line case None => prior
  }

  function Rewrite(gen: seq<string>, lines: seq<string>): seq<string> {
    seq(|lines|, i requires 0 <= i < |lines| => Replaced(gen, lines[i]))
  }

  predicate HasKey(lines: seq<string>, line: string) {
    exists i | 0 <= i < |lines| :: Hits(lines[i], line)
  }

  /** The generated lines whose key the header does not have yet, in order. */
  function Missing(gen: seq<string>, lines: seq<string>): seq<string> {
    if gen == [] then []
    else (if HasKey(lines, gen[0]) then [] else [gen[0]]) + Missing(gen[1..], lines)
  }

  /** The header has the key at most once, and not with a multi-line value. */
  predicate EditableAt(lines: seq<string>, line: string) {
    && (forall i, j | 0 <= i < j < |lines| :: !(Hits(lines[i], line) && Hits(lines[j], line)))
    && (forall i, j | 0 <= i && j == i + 1 < |lines| :: Hits(lines[i], line) ==> !Indented(lines[j]))
  }

  predicate Editable(gen: seq<string>, lines: seq<string>) {
    forall k | 0 <= k < |gen| :: EditableAt(lines, gen[k])
  }

  /** The whole edit in closed form. */
  function Updated(gen: seq<string>, lines: seq<string>): seq<string> {
    Rewrite(gen, lines) + Missing(gen, lines)
  }

  lemma {:induction false} Exclusive(prior: string, a: string, b: string)
    requires KeyOf(a) != KeyOf(b) && Hits(prior, a)
    ensures !Hits(prior, b)
  {
    HitsIsSameKey(prior, a);
    HitsIsSameKey(prior, b);
  }

  /** A managed line has its own key, and whatever it hits starts as it does. */
  lemma {:induction false} ManagedLine(line: string, prior: string)
    requires ':' in line && !Indented(line)
    ensures Hits(line, line)
    ensures Hits(prior, line) ==> !Indented(prior)
  {
    HitsIsSameKey(line, line);
    KeyShape(line);
    if Hits(prior, line) { assert prior[0] == (KeyOf(line) + ":")[0] == line[0]; }
  }

  lemma {:induction false} PutDecides(lines: seq<string>, line: string)
    ensures Put(lines, line).Some? <==> EditableAt(lines, line)
    ensures Put(lines, line).Some? ==>
              if HasKey(lines, line) then
                exists i :: 0 <= i < |lines| && Hits(lines[i], line) && Put(lines, line) == Some(lines[i := line])
              else Put(lines, line) == Some(lines + [line])
  {
    HitInRange(lines, line, 0);
    match HitFrom(lines, line, 0)
    case None =>
    case Some(i) =>
      HitInRange(lines, line, i + 1);
      match HitFrom(lines, line, i + 1)
      case Some(j) => assert Hits(lines[i], line) && Hits(lines[j], line);
      case None =>
        if i + 1 < |lines| { assert Hits(lines[i], line) ==> (Indented(lines[i + 1]) ==> !EditableAt(lines, line)); }
  }

  /** Putting one line leaves every other key where it was. */
  lemma {:induction false} PutKeepsOtherKeys(lines: seq<string>, line: string, next: seq<string>, other: string)
    requires Put(lines, line) == Some(next) && ':' in line && !Indented(line) && KeyOf(line) != KeyOf(other)
    ensures HasKey(next, other) <==> HasKey(lines, other)
    ensures EditableAt(next, other) <==> EditableAt(lines, other)
  {
    PutDecides(lines, line);
    ManagedLine(line, line);
    Exclusive(line, line, other);
    if HasKey(lines, line) {
      var i :| 0 <= i < |lines| && Hits(lines[i], line) && next == lines[i := line];
      ManagedLine(line, lines[i]);
      Exclusive(lines[i], line, other);
      assert forall j | 0 <= j < |lines| :: Hits(next[j], other) <==> Hits(lines[j], other);
      assert forall j | 0 <= j < |lines| :: Indented(next[j]) <==> Indented(lines[j]);
    } else {
      assert forall j | 0 <= j < |lines| :: next[j] == lines[j];
      if HasKey(lines, other) {
        var j :| 0 <= j < |lines| && Hits(lines[j], other);
        assert Hits(next[j], other);
      }
      AppendKeepsEditable(lines, line, other);
    }
  }

  lemma {:induction false} AppendKeepsEditable(lines: seq<string>, line: string, other: string)
    requires !Hits(line, other) && !Indented(line)
    ensures EditableAt(lines + [line], other) <==> EditableAt(lines, other)
  {
    var next := lines + [line];
    if EditableAt(next, other) {
      forall i, j | 0 <= i < j < |lines| ensures !(Hits(lines[i], other) && Hits(lines[j], other)) {
        assert !(Hits(next[i], other) && Hits(next[j], other));
      }
      forall i, j | 0 <= i && j == i + 1 < |lines| ensures Hits(lines[i], other) ==> !Indented(lines[j]) {
        assert Hits(next[i], other) ==> !Indented(next[j]);
      }
    }
  }

  lemma {:induction false} MissingKeepsOthers(gen: seq<string>, lines: seq<string>, next: seq<string>)
    requires forall k | 0 <= k < |gen| :: HasKey(next, gen[k]) <==> HasKey(lines, gen[k])
    ensures Missing(gen, next) == Missing(gen, lines)
  {
    if gen != [] {
      assert forall k | 0 <= k < |gen[1..]| :: gen[1..][k] == gen[k + 1];
      MissingKeepsOthers(gen[1..], lines, next);
    }
  }

  lemma {:induction false} PickNone(gen: seq<string>, prior: string)
    requires forall k | 0 <= k < |gen| :: !Hits(prior, gen[k])
    ensures Pick(gen, prior) == None
  {
    if gen != [] {
      assert forall k | 0 <= k < |gen[1..]| :: gen[1..][k] == gen[k + 1];
      PickNone(gen[1..], prior);
    }
  }

  lemma {:induction false} NoOtherHits(line: string, rest: seq<string>, prior: string)
    requires Managed([line] + rest) && Hits(prior, line)
    ensures Pick(rest, prior) == None
  {
    var gen := [line] + rest;
    forall k | 0 <= k < |rest| ensures !Hits(prior, rest[k]) {
      assert gen[k + 1] == rest[k] && gen[0] == line;
      Exclusive(prior, line, rest[k]);
    }
    PickNone(rest, prior);
  }

  /** One turn of the loop, seen in the closed form. */
  lemma {:induction false} PutIsOneStep(lines: seq<string>, line: string, rest: seq<string>, next: seq<string>)
    requires Managed([line] + rest) && Put(lines, line) == Some(next)
    ensures Updated(rest, next) == Updated([line] + rest, lines)
    ensures Editable(rest, next) <==> Editable([line] + rest, lines)
  {
    PutKeepsEditable(lines, line, rest, next);
    PutUpdates(lines, line, rest, next);
  }

  lemma {:induction false} PutUpdates(lines: seq<string>, line: string, rest: seq<string>, next: seq<string>)
    requires Managed([line] + rest) && Put(lines, line) == Some(next)
    ensures Updated(rest, next) == Updated([line] + rest, lines)
  {
    var gen := [line] + rest;
    assert gen[0] == line && gen[1..] == rest;
    forall k | 0 <= k < |rest| ensures HasKey(next, rest[k]) <==> HasKey(lines, rest[k]) {
      PutKeepsManaged(lines, line, rest, next, k);
    }
    MissingKeepsOthers(rest, lines, next);
    PutRewrites(lines, line, rest, next);
  }

  lemma {:induction false} PutKeepsEditable(lines: seq<string>, line: string, rest: seq<string>, next: seq<string>)
    requires Managed([line] + rest) && Put(lines, line) == Some(next)
    ensures Editable(rest, next) <==> Editable([line] + rest, lines)
  {
    forall k | 0 <= k < |rest| ensures EditableAt(next, rest[k]) <==> EditableAt(lines, rest[k]) {
      PutKeepsManaged(lines, line, rest, next, k);
    }
    EditableSplits(lines, line, rest, next);
  }

  lemma {:induction false} PutKeepsManaged(lines: seq<string>, line: string, rest: seq<string>, next: seq<string>,
                                           k: nat)
    requires Managed([line] + rest) && Put(lines, line) == Some(next) && k < |rest|
    ensures HasKey(next, rest[k]) <==> HasKey(lines, rest[k])
    ensures EditableAt(next, rest[k]) <==> EditableAt(lines, rest[k])
  {
    var gen := [line] + rest;
    assert gen[0] == line && gen[k + 1] == rest[k];
    PutKeepsOtherKeys(lines, line, next, rest[k]);
  }

  lemma {:induction false} EditableSplits(lines: seq<string>, line: string, rest: seq<string>, next: seq<string>)
    requires Put(lines, line) == Some(next)
    requires forall k | 0 <= k < |rest| :: EditableAt(next, rest[k]) <==> EditableAt(lines, rest[k])
    ensures Editable(rest, next) <==> Editable([line] + rest, lines)
  {
    PutDecides(lines, line);
    var gen := [line] + rest;
    if Editable(gen, lines) {
      forall k | 0 <= k < |rest| ensures EditableAt(next, rest[k]) { assert gen[k + 1] == rest[k]; }
    }
    if Editable(rest, next) {
      forall k | 0 <= k < |gen| ensures EditableAt(lines, gen[k]) { assert k > 0 ==> gen[k] == rest[k - 1]; }
    }
  }

  lemma {:induction false} PutRewrites(lines: seq<string>, line: string, rest: seq<string>, next: seq<string>)
    requires Managed([line] + rest) && Put(lines, line) == Some(next)
    ensures Rewrite(rest, next) == Rewrite([line] + rest, lines) + if HasKey(lines, line) then [] else [line]
  {
    var gen := [line] + rest;
    assert gen[0] == line && gen[1..] == rest;
    PutDecides(lines, line);
    ManagedLine(line, line);
    NoOtherHits(line, rest, line);
    forall j | 0 <= j < |lines|
      ensures Replaced(gen, lines[j]) == if Hits(lines[j], line) then line else Replaced(rest, lines[j])
    {
    }
    if HasKey(lines, line) {
      var i :| 0 <= i < |lines| && Hits(lines[i], line) && next == lines[i := line];
      assert forall j | 0 <= j < |lines| && j != i :: !Hits(lines[j], line);
    }
  }

  /** The loop computes the closed form, and refuses exactly when some key is not editable. */
  lemma {:induction false} PutAllIsUpdated(lines: seq<string>, gen: seq<string>)
    requires Managed(gen)
    ensures PutAll(lines, gen) == if Editable(gen, lines) then Some(Updated(gen, lines)) else None
    decreases |gen|
  {
    if gen == [] {
      assert Updated(gen, lines) == lines;
    } else {
      PutDecides(lines, gen[0]);
      if EditableAt(lines, gen[0]) {
        var next := Put(lines, gen[0]).value;
        assert gen == [gen[0]] + gen[1..];
        PutAllIsUpdated(next, gen[1..]);
        PutIsOneStep(lines, gen[0], gen[1..], next);
      } else {
        assert !Editable(gen, lines);
      }
    }
  }

  // ---- Two edits in a row -----------------------------------------------------------------------

  /** The same managed keys in the same order. */
  predicate SameKeys(g1: seq<string>, g2: seq<string>) {
    |g1| == |g2| && forall k | 0 <= k < |g1| :: KeyOf(g1[k]) == KeyOf(g2[k])
  }

  lemma {:induction false} SameKeysEditable(g1: seq<string>, g2: seq<string>, lines: seq<string>)
    requires SameKeys(g1, g2)
    ensures Editable(g1, lines) <==> Editable(g2, lines)
  {
    forall k | 0 <= k < |g1| ensures EditableAt(lines, g1[k]) <==> EditableAt(lines, g2[k]) {
      assert forall prior: string :: Hits(prior, g1[k]) <==> Hits(prior, g2[k]);
    }
  }

  /** Which line is picked depends on the keys alone. */
  lemma {:induction false} PickSameKeys(g1: seq<string>, g2: seq<string>, prior: string)
    requires SameKeys(g1, g2)
    ensures Pick(g1, prior).Some? <==> Pick(g2, prior).Some?
    ensures Pick(g1, prior).Some? ==>
              exists k :: 0 <= k < |g1| && Pick(g1, prior) == Some(g1[k]) && Pick(g2, prior) == Some(g2[k])
  {
    if g1 != [] && !Hits(prior, g1[0]) {
      var r1, r2 := g1[1..], g2[1..];
      assert forall k | 0 <= k < |r1| :: r1[k] == g1[k + 1] && r2[k] == g2[k + 1];
      PickSameKeys(r1, r2, prior);
      if Pick(r1, prior).Some? {
        var k :| 0 <= k < |r1| && Pick(r1, prior) == Some(r1[k]) && Pick(r2, prior) == Some(r2[k]);
        assert Pick(g1, prior) == Some(g1[k + 1]) && Pick(g2, prior) == Some(g2[k + 1]);
      }
    } else if g1 != [] {
      assert Pick(g1, prior) == Some(g1[0]) && Pick(g2, prior) == Some(g2[0]);
    }
  }

  /** A generated line picks itself. */
  lemma {:induction false} PickSelf(gen: seq<string>, line: string, k: nat)
    requires Managed(gen) && k < |gen| && KeyOf(line) == KeyOf(gen[k]) && ':' in line && !Indented(line)
    ensures Pick(gen, line) == Some(gen[k])
  {
    ManagedLine(line, line);
    if k > 0 {
      Exclusive(line, gen[k], gen[0]);
      assert Managed(gen[1..]) && gen[1..][k - 1] == gen[k];
      PickSelf(gen[1..], line, k - 1);
    }
  }

  lemma {:induction false} ReplacedTwice(g1: seq<string>, g2: seq<string>, prior: string)
    requires Managed(g1) && Managed(g2) && SameKeys(g1, g2)
    ensures Replaced(g2, Replaced(g1, prior)) == Replaced(g2, prior)
  {
    PickSameKeys(g1, g2, prior);
    if Pick(g1, prior).Some? {
      var k :| 0 <= k < |g1| && Pick(g1, prior) == Some(g1[k]) && Pick(g2, prior) == Some(g2[k]);
      PickSelf(g2, g1[k], k);
    }
  }

  lemma {:induction false} MissingRewritten(g1: seq<string>, g2: seq<string>, all: seq<string>, lines: seq<string>,
                                            from: nat)
    requires Managed(all) && from + |g1| == |all| && g2 == all[from..] && SameKeys(g1, g2)
    requires forall k | 0 <= k < |g1| :: ':' in g1[k] && !Indented(g1[k])
    ensures Rewrite(all, Missing(g1, lines)) == Missing(g2, lines)
  {
    if g1 != [] {
      assert g2[1..] == all[from + 1..] && g2[0] == all[from];
      assert forall k | 0 <= k < |g1| - 1 :: g1[1..][k] == g1[k + 1] && g2[1..][k] == g2[k + 1];
      MissingRewritten(g1[1..], g2[1..], all, lines, from + 1);
      PickSelf(all, g1[0], from);
      assert HasKey(lines, g1[0]) <==> HasKey(lines, g2[0]);
    }
  }

  lemma {:induction false} NothingMissing(gen: seq<string>, lines: seq<string>)
    requires forall k | 0 <= k < |gen| :: HasKey(lines, gen[k])
    ensures Missing(gen, lines) == []
  {
    if gen != [] {
      assert forall k | 0 <= k < |gen[1..]| :: gen[1..][k] == gen[k + 1];
      NothingMissing(gen[1..], lines);
    }
  }

  lemma {:induction false} MissingMembers(gen: seq<string>, lines: seq<string>, line: string)
    ensures line in Missing(gen, lines) <==> line in gen && !HasKey(lines, line)
  {
    if gen != [] {
      MissingMembers(gen[1..], lines, line);
      assert line in gen <==> line == gen[0] || line in gen[1..];
    }
  }

  /** After an edit every managed key is present. */
  lemma {:induction false} UpdatedHasKeys(gen: seq<string>, lines: seq<string>, k: nat)
    requires Managed(gen) && k < |gen|
    ensures HasKey(Updated(gen, lines), gen[k])
  {
    var next := Updated(gen, lines);
    var line := gen[k];
    ManagedLine(line, line);
    if HasKey(lines, line) {
      var i :| 0 <= i < |lines| && Hits(lines[i], line);
      PickSameKeys(gen, gen, lines[i]);
      PickHit(gen, lines[i], k);
      assert next[i] == line;
    } else {
      MissingMembers(gen, lines, line);
      var m :| 0 <= m < |Missing(gen, lines)| && Missing(gen, lines)[m] == line;
      assert next[|lines| + m] == line;
    }
  }

  /** A line with a managed key is replaced by the line of that key. */
  lemma {:induction false} PickHit(gen: seq<string>, prior: string, k: nat)
    requires Managed(gen) && k < |gen| && Hits(prior, gen[k])
    ensures Pick(gen, prior) == Some(gen[k])
  {
    if k > 0 {
      assert KeyOf(gen[0]) != KeyOf(gen[k]);
      Exclusive(prior, gen[k], gen[0]);
      assert Managed(gen[1..]) && gen[1..][k - 1] == gen[k];
      PickHit(gen[1..], prior, k - 1);
    }
  }

  /** Absorption: of two edits with the same keys, only the second is seen. */
  lemma {:induction false} UpdateAbsorbs(g1: seq<string>, g2: seq<string>, lines: seq<string>)
    requires Managed(g1) && Managed(g2) && SameKeys(g1, g2)
    ensures Updated(g2, Updated(g1, lines)) == Updated(g2, lines)
  {
    var once := Updated(g1, lines);
    forall k | 0 <= k < |g2| ensures HasKey(once, g2[k]) {
      UpdatedHasKeys(g1, lines, k);
      var i :| 0 <= i < |once| && Hits(once[i], g1[k]);
      assert Hits(once[i], g2[k]);
    }
    NothingMissing(g2, once);
    assert g2 == g2[0..];
    MissingRewritten(g1, g2, g2, lines, 0);
    forall j | 0 <= j < |lines| ensures Rewrite(g2, once)[j] == Rewrite(g2, lines)[j] {
      ReplacedTwice(g1, g2, lines[j]);
    }
    assert Rewrite(g2, once) == Rewrite(g2, lines) + Rewrite(g2, Missing(g1, lines));
  }

  /** Replacing a line changes neither which keys hit it nor its indentation. */
  lemma {:induction false} ReplacedKeeps(gen: seq<string>, prior: string, line: string)
    requires Managed(gen)
    ensures Hits(Replaced(gen, prior), line) <==> Hits(prior, line)
    ensures Indented(Replaced(gen, prior)) <==> Indented(prior)
  {
    PickSameKeys(gen, gen, prior);
    if Pick(gen, prior).Some? {
      var f := Pick(gen, prior).value;
      PickHits(gen, prior);
      ManagedLine(f, prior);
      HitsIsSameKey(prior, f);
      HitsIsSameKey(prior, line);
      HitsIsSameKey(f, line);
    }
  }

  lemma {:induction false} PickHits(gen: seq<string>, prior: string)
    requires Pick(gen, prior).Some?
    ensures Pick(gen, prior).value in gen && Hits(prior, Pick(gen, prior).value)
  {
    if !Hits(prior, gen[0]) { PickHits(gen[1..], prior); }
  }

  lemma {:induction false} MissingIsDistinct(gen: seq<string>, lines: seq<string>)
    requires Managed(gen)
    ensures forall i, j | 0 <= i < j < |Missing(gen, lines)| ::
              KeyOf(Missing(gen, lines)[i]) != KeyOf(Missing(gen, lines)[j])
  {
    if gen != [] {
      assert Managed(gen[1..]);
      MissingIsDistinct(gen[1..], lines);
      var tail := Missing(gen[1..], lines);
      forall m | 0 <= m < |tail| ensures KeyOf(tail[m]) != KeyOf(gen[0]) {
        MissingMembers(gen[1..], lines, tail[m]);
        var k :| 0 <= k < |gen[1..]| && gen[1..][k] == tail[m];
        assert gen[k + 1] == tail[m];
      }
    }
  }

  /** What the edit appends: managed lines with keys the header did not have. */
  lemma {:induction false} MissingLine(gen: seq<string>, lines: seq<string>, m: nat)
    requires Managed(gen) && m < |Missing(gen, lines)|
    ensures var line := Missing(gen, lines)[m]; line in gen && ':' in line && !Indented(line) && !HasKey(lines, line)
  {
    var line := Missing(gen, lines)[m];
    MissingMembers(gen, lines, line);
    var k :| 0 <= k < |gen| && gen[k] == line;
  }

  /** An edit that succeeded can be followed by another with the same keys. */
  lemma {:induction false} UpdatedIsEditable(g1: seq<string>, g2: seq<string>, lines: seq<string>)
    requires Managed(g1) && Managed(g2) && SameKeys(g1, g2) && Editable(g1, lines)
    ensures Editable(g2, Updated(g1, lines))
  {
    forall k | 0 <= k < |g2| ensures EditableAt(Updated(g1, lines), g2[k]) {
      assert EditableAt(lines, g1[k]);
      OneKeyStaysEditable(g1, lines, g1[k]);
      assert forall prior: string :: Hits(prior, g1[k]) <==> Hits(prior, g2[k]);
    }
  }

  lemma {:induction false} OneKeyStaysEditable(gen: seq<string>, lines: seq<string>, line: string)
    requires Managed(gen) && EditableAt(lines, line)
    ensures EditableAt(Updated(gen, lines), line)
  {
    var next, added := Updated(gen, lines), Missing(gen, lines);
    MissingIsDistinct(gen, lines);
    forall i | 0 <= i < |next|
      ensures i < |lines| ==>
                (Hits(next[i], line) <==> Hits(lines[i], line)) && (Indented(next[i]) <==> Indented(lines[i]))
      ensures i >= |lines| ==>
                !Indented(next[i]) && (Hits(next[i], line) ==> KeyOf(next[i]) == KeyOf(line) && !HasKey(lines, line))
    {
      if i < |lines| {
        ReplacedKeeps(gen, lines[i], line);
      } else {
        assert next[i] == added[i - |lines|];
        MissingLine(gen, lines, i - |lines|);
        if Hits(next[i], line) {
          HitsIsSameKey(next[i], line);
          assert forall prior: string :: Hits(prior, line) <==> Hits(prior, next[i]);
        }
      }
    }
    forall i, j | 0 <= i < j < |next| ensures !(Hits(next[i], line) && Hits(next[j], line)) {
      if i >= |lines| { assert next[i] == added[i - |lines|] && next[j] == added[j - |lines|]; }
    }
  }

  // ---- What the edit leaves alone -----------------------------------------------------------------

  /** The header lines that carry none of the managed keys. */
  function Unmanaged(gen: seq<string>, lines: seq<string>): seq<string> {
    if lines == [] then []
    else (if Pick(gen, lines[0]).None? then [lines[0]] else []) + Unmanaged(gen, lines[1..])
  }

  lemma {:induction false} UnmanagedConcat(gen: seq<string>, a: seq<string>, b: seq<string>)
    ensures Unmanaged(gen, a + b) == Unmanaged(gen, a) + Unmanaged(gen, b)
  {
    if a == [] {
      assert a + b == b;
    } else {
      UnmanagedConcat(gen, a[1..], b);
      assert (a + b)[1..] == a[1..] + b;
    }
  }

  lemma {:induction false} UnmanagedRewritten(gen: seq<string>, lines: seq<string>)
    requires Managed(gen)
    ensures Unmanaged(gen, Rewrite(gen, lines)) == Unmanaged(gen, lines)
  {
    if lines != [] {
      UnmanagedRewritten(gen, lines[1..]);
      assert Rewrite(gen, lines)[1..] == Rewrite(gen, lines[1..]);
      PickSameKeys(gen, gen, lines[0]);
      if Pick(gen, lines[0]).Some? {
        var k :| 0 <= k < |gen| && Pick(gen, lines[0]) == Some(gen[k]);
        PickSelf(gen, gen[k], k);
      }
    }
  }

  lemma {:induction false} NoneUnmanaged(gen: seq<string>, lines: seq<string>)
    requires forall i | 0 <= i < |lines| :: Pick(gen, lines[i]).Some?
    ensures Unmanaged(gen, lines) == []
  {
    if lines != [] {
      assert forall i | 0 <= i < |lines[1..]| :: lines[1..][i] == lines[i + 1];
      NoneUnmanaged(gen, lines[1..]);
    }
  }

  /** Every unmanaged line stays, in its order. */
  lemma {:induction false} UpdateKeepsUnmanaged(gen: seq<string>, lines: seq<string>)
    requires Managed(gen)
    ensures Unmanaged(gen, Updated(gen, lines)) == Unmanaged(gen, lines)
  {
    var added := Missing(gen, lines);
    UnmanagedConcat(gen, Rewrite(gen, lines), added);
    UnmanagedRewritten(gen, lines);
    forall m | 0 <= m < |added| ensures Pick(gen, added[m]).Some? {
      MissingLine(gen, lines, m);
      var k :| 0 <= k < |gen| && gen[k] == added[m];
      PickSelf(gen, added[m], k);
    }
    NoneUnmanaged(gen, added);
  }
}
