/**
 * `parse_vault_note` (packages/apple-notes/fulcra_apple_notes/reconcile.py): reading the owned
 * section back. The reader takes more tags than `merge_note` writes: any spacing, any owner.
 */
module NoteReader {
  import opened Wrappers
  import opened TextLines
  import opened NoteText

  /** The texts taken for the tag that opens, or closes, the owned section. */
  datatype Reader = Reader(opening: string -> bool, closing: string -> bool)

  const NAME := "section:" + SECTION_SLUG

  /** `<!--\s*section:apple-note\s+owner:[^>]+?-->`, on the whole of `tag`. */
  predicate IsOpening(tag: string) {
    "<!--" <= tag
    && var named := LTrim(tag[4..]);
       NAME <= named
       && var spaced := named[|NAME|..];
          Spaced(spaced) && "owner:" <= LTrim(spaced)
          && var owner := LTrim(spaced)[6..];
             |owner| > 3 && owner[|owner| - 3..] == "-->" && '>' !in owner[..|owner| - 3]
  }

  predicate Spaced(s: string) {
    s != "" && Space(s[0])
  }

  // `<!--\s*/section:apple-note\s*-->`, on the whole of `tag`.
  predicate IsClosing(tag: string) {
    "<!--" <= tag
    && var named := LTrim(tag[4..]);
       "/" + NAME <= named && LTrim(named[1 + |NAME|..]) == "-->"
  }

  const OWNER_READER := Reader(IsOpening, IsClosing)

  /** A tag ends at its first `>`. */
  predicate Angled(tag: string) {
    |tag| >= 2 && tag[0] == '<' && tag[|tag| - 1] == '>' && forall i | 0 <= i < |tag| - 1 :: tag[i] != '>'
  }

  predicate OneAngle(tag: string) {
    forall i | 1 <= i < |tag| :: tag[i] != '<'
  }

  /** The reader takes the tags of the fence, each for what it is, and only angled texts. */
  ghost predicate IsReader(r: Reader, f: Fence) {
    && r.opening(f.open) && r.closing(f.close) && !r.closing(f.open)
    && (forall tag | r.opening(tag) :: Angled(tag))
    && (forall tag | r.closing(tag) :: Angled(tag) && OneAngle(tag))
  }

  // ---- The patterns are a reader ------------------------------------------------------------------

  lemma {:induction false} LTrimCuts(s: string)
    ensures |LTrim(s)| <= |s| && s[|s| - |LTrim(s)|..] == LTrim(s)
    ensures forall i | 0 <= i < |s| - |LTrim(s)| :: Space(s[i])
  {
    if s != "" && Space(s[0]) {
      var rest := s[1..];
      LTrimCuts(rest);
      assert rest[|rest| - |LTrim(rest)|..] == s[|s| - |LTrim(rest)|..];
      assert forall i | 1 <= i < |s| :: s[i] == rest[i - 1];
    }
  }

  /** Both patterns have the shape `<!--`, white space, a name, and more. */
  lemma {:induction false} NamedParts(tag: string, name: string) returns (k: nat)
    requires "<!--" <= tag && name <= LTrim(tag[4..])
    ensures 4 <= k && k + |name| <= |tag| && (forall i | 4 <= i < k :: Space(tag[i]))
    ensures tag[k..k + |name|] == name && LTrim(tag[4..])[|name|..] == tag[k + |name|..]
  {
    var s := tag[4..];
    LTrimCuts(s);
    k := |tag| - |LTrim(s)|;
    assert LTrim(s) == tag[k..] by { assert s[k - 4..] == tag[k..]; }
    assert tag[k..][..|name|] == name;
    forall i | 4 <= i < k ensures Space(tag[i]) { assert tag[i] == s[i - 4]; }
  }

  lemma {:induction false} PlainName(i: nat)
    ensures i < |NAME| ==> NAME[i] != '<' && NAME[i] != '>'
    ensures i < |"/" + NAME| ==> ("/" + NAME)[i] != '<' && ("/" + NAME)[i] != '>'
  {
    assert forall i | 0 <= i < |"section:"| :: "section:"[i] != '<' && "section:"[i] != '>';
    assert forall i | 0 <= i < |SECTION_SLUG| :: SECTION_SLUG[i] != '<' && SECTION_SLUG[i] != '>';
  }

  lemma {:induction false} ClosingIsAngled(tag: string)
    requires IsClosing(tag)
    ensures Angled(tag) && OneAngle(tag)
  {
    var name := "/" + NAME;
    var k := NamedParts(tag, name);
    var rest := tag[k + |name|..];
    LTrimCuts(rest);
    var e := |tag| - 3;
    assert tag[e..] == "-->" by { assert rest[|rest| - 3..] == LTrim(rest); }
    forall i | 0 <= i < |tag| ensures (i > 0 ==> tag[i] != '<') && (i < |tag| - 1 ==> tag[i] != '>') {
      if i < 4 { assert tag[i] == "<!--"[i]; }
      else if k <= i < k + |name| { PlainName(i - k); assert tag[i] == tag[k..k + |name|][i - k]; }
      else if k + |name| <= i < e { assert tag[i] == rest[i - k - |name|]; }
      else if e <= i { assert tag[i] == tag[e..][i - e]; }
    }
  }

  lemma {:induction false} OwnerPart(tag: string, o: nat)
    requires o <= |tag| && "owner:" <= tag[o..]
    requires var owner := tag[o..][6..]; |owner| > 3 && owner[|owner| - 3..] == "-->" && '>' !in owner[..|owner| - 3]
    ensures |tag| >= o + 9 && tag[|tag| - 1] == '>' && forall i | o <= i < |tag| - 1 :: tag[i] != '>'
  {
    var owner, e := tag[o..][6..], |tag| - 3;
    assert owner == tag[o + 6..];
    assert tag[e..] == "-->" by { assert owner[|owner| - 3..] == tag[e..]; }
    assert tag[|tag| - 1] == tag[e..][2];
    forall i | o <= i < |tag| - 1 ensures tag[i] != '>' {
      if i < o + 6 { assert tag[i] == tag[o..][i - o] == "owner:"[i - o]; }
      else if i < e { assert tag[i] == owner[..|owner| - 3][i - o - 6]; }
      else { assert tag[i] == tag[e..][i - e]; }
    }
  }

  lemma {:induction false} OpeningIsAngled(tag: string)
    requires IsOpening(tag)
    ensures Angled(tag)
  {
    var k := NamedParts(tag, NAME);
    var rest := tag[k + |NAME|..];
    LTrimCuts(rest);
    var o := |tag| - |LTrim(rest)|;
    assert LTrim(rest) == tag[o..] by { assert rest[o - k - |NAME|..] == tag[o..]; }
    OwnerPart(tag, o);
    forall i | 0 <= i < |tag| - 1 ensures tag[i] != '>' {
      if i < 4 { assert tag[i] == "<!--"[i]; }
      else if k <= i < k + |NAME| { PlainName(i - k); assert tag[i] == tag[k..k + |NAME|][i - k]; }
      else if k + |NAME| <= i < o { assert tag[i] == rest[i - k - |NAME|]; }
    }
  }

  lemma {:induction false} LTrimSpace(s: string)
    requires s == "" || !Space(s[0])
    ensures LTrim(s) == s && LTrim(" " + s) == s
  {
    assert (" " + s)[1..] == s;
  }

  lemma {:induction false} CloseFenceIsClosing()
    ensures IsClosing(OWNER_FENCE.close)
  {
    var name := "/" + NAME;
    LTrimSpace(name + " -->");
    LTrimSpace("-->");
    assert OWNER_FENCE.close == "<!--" + (" " + (name + " -->"));
    assert OWNER_FENCE.close[4..] == " " + (name + " -->");
    assert (name + " -->")[|name|..] == " -->" == " " + "-->";
  }

  /** Whatever the owner, the tag opens the section. */
  lemma {:induction false} AnyOwnerOpens(owner: string)
    requires owner != "" && '>' !in owner
    ensures var tag := "<!--" + (" " + (NAME + (" " + ("owner:" + (owner + "-->"))))); IsOpening(tag) && !IsClosing(tag)
  {
    var tail := "owner:" + (owner + "-->");
    var named := NAME + (" " + tail);
    var tag := "<!--" + (" " + named);
    assert NAME[0] == 's';
    LTrimSpace(named);
    LTrimSpace(tail);
    assert tag[4..] == " " + named;
    assert named[|NAME|..] == " " + tail;
    assert tail[6..] == owner + "-->";
    assert (owner + "-->")[|owner|..] == "-->" && (owner + "-->")[..|owner|] == owner;
  }

  lemma Regrouped(a: string, b: string, c: string, s: string, d: string, o: string, e: string)
    ensures a + (b + c) + s + (b + d) + o + (b + e) == a + (b + ((c + s) + (b + (d + ((o + b) + e)))))
  {
  }

  lemma {:induction false} OpenFenceIsOpening()
    ensures IsOpening(OWNER_FENCE.open) && !IsClosing(OWNER_FENCE.open)
  {
    hide IsOpening, IsClosing;
    var owner := OWNER + " ";
    assert '>' !in owner by { assert forall i | 0 <= i < |OWNER| :: OWNER[i] != '>'; }
    AnyOwnerOpens(owner);
    assert "<!-- section:" == "<!--" + (" " + "section:") && " owner:" == " " + "owner:" && " -->" == " " + "-->";
    Regrouped("<!--", " ", "section:", SECTION_SLUG, "owner:", OWNER, "-->");
  }

  /** The patterns of `parse_vault_note` read the fence `merge_note` writes. */
  lemma {:induction false} OwnerReader()
    ensures IsFence(OWNER_FENCE) && IsReader(OWNER_READER, OWNER_FENCE)
  {
    OwnerFence();
    CloseFenceIsClosing();
    OpenFenceIsOpening();
    forall tag | IsOpening(tag) ensures Angled(tag) { OpeningIsAngled(tag); }
    forall tag | IsClosing(tag) ensures Angled(tag) && OneAngle(tag) { ClosingIsAngled(tag); }
  }

  // ---- Searching ------------------------------------------------------------------------------

  /** The first `>` from `i`. */
  function AngleFrom(text: string, i: nat): (g: Option<nat>)
    ensures match g
            case None => forall k | i <= k < |text| :: text[k] != '>'
            case Some(at) => i <= at < |text| && text[at] == '>' && forall k | i <= k < at :: text[k] != '>'
    decreases |text| - i
  {
    if i >= |text| then None else if text[i] == '>' then Some(i) else AngleFrom(text, i + 1)
  }

  /** Where the tag that starts at `i` ends. */
  function TagEnd(accepts: string -> bool, text: string, i: nat): (e: Option<nat>)
    ensures e.Some? ==> i < e.value <= |text| && accepts(text[i..e.value])
  {
    match AngleFrom(text, i)
    case None => None
    case Some(g) => if accepts(text[i..g + 1]) then Some(g + 1) else None
  }

  /** Where the section starts: after the first opening tag with a line end. */
  function OpeningLine(r: Reader, text: string, from: nat): (start: Option<nat>)
    ensures start.Some? ==> from < start.value <= |text|
    decreases |text| - from
  {
    if from >= |text| then None
    else match TagEnd(r.opening, text, from)
         case Some(e) => if e < |text| && text[e] == '\n' then Some(e + 1) else OpeningLine(r, text, from + 1)
         case None => OpeningLine(r, text, from + 1)
  }

  /** Where the section ends: at the first line end before a closing tag. */
  function ClosingLine(r: Reader, text: string, from: nat): (j: Option<nat>)
    ensures j.Some? ==> from <= j.value < |text|
    decreases |text| - from
  {
    if from >= |text| then None
    else if text[from] == '\n' && TagEnd(r.closing, text, from + 1).Some? then Some(from)
    else ClosingLine(r, text, from + 1)
  }

  /** The body `parse_vault_note` finds: None when there is no section. */
  function ParseBody(r: Reader, text: string): Option<string> {
    match OpeningLine(r, text, 0)
    case None => None
    case Some(start) =>
      match ClosingLine(r, text, start)
      case None => None
      case Some(j) => Some(text[start..j])
  }

  // ---- The parse is a regex search ----------------------------------------------------------------

  ghost predicate OpensAt(r: Reader, text: string, i: int, e: int) {
    0 <= i < e < |text| && text[e] == '\n' && r.opening(text[i..e])
  }

  ghost predicate ClosesAt(r: Reader, text: string, j: int, z: int) {
    0 <= j < z <= |text| && text[j] == '\n' && r.closing(text[j + 1..z])
  }

  lemma {:induction false} TagEndIs(accepts: string -> bool, text: string, i: nat, e: nat)
    requires i <= e <= |text| && accepts(text[i..e]) && Angled(text[i..e])
    ensures TagEnd(accepts, text, i) == Some(e)
  {
    var tag := text[i..e];
    assert text[e - 1] == tag[|tag| - 1];
    forall k | i <= k < e - 1 ensures text[k] != '>' { assert text[k] == tag[k - i]; }
  }

  lemma {:induction false} OpeningIs(r: Reader, f: Fence, text: string, i: nat)
    requires IsReader(r, f)
    ensures forall e :: OpensAt(r, text, i, e) <==>
              TagEnd(r.opening, text, i) == Some(e) && e < |text| && text[e] == '\n'
  {
    forall e | OpensAt(r, text, i, e) ensures TagEnd(r.opening, text, i) == Some(e) {
      TagEndIs(r.opening, text, i, e);
    }
  }

  lemma {:induction false} ClosingIs(r: Reader, f: Fence, text: string, j: nat)
    requires IsReader(r, f) && j < |text| && text[j] == '\n'
    ensures forall z :: ClosesAt(r, text, j, z) <==> TagEnd(r.closing, text, j + 1) == Some(z)
  {
    forall z | ClosesAt(r, text, j, z) ensures TagEnd(r.closing, text, j + 1) == Some(z) {
      TagEndIs(r.closing, text, j + 1, z);
    }
  }

  /** Where the first opening line starts. */
  lemma {:induction false} OpeningLineIsFirst(r: Reader, f: Fence, text: string, from: nat) returns (i: nat)
    requires IsReader(r, f)
    ensures OpeningLine(r, text, from).Some? ==> from <= i && OpensAt(r, text, i, OpeningLine(r, text, from).value - 1)
    ensures forall k, e | from <= k && OpensAt(r, text, k, e) :: OpeningLine(r, text, from).Some? && i <= k
    decreases |text| - from
  {
    i := from;
    if from < |text| {
      OpeningIs(r, f, text, from);
      var here := TagEnd(r.opening, text, from);
      if !(here.Some? && here.value < |text| && text[here.value] == '\n') {
        i := OpeningLineIsFirst(r, f, text, from + 1);
        forall k, e | from <= k && OpensAt(r, text, k, e) ensures from + 1 <= k { }
      }
    }
  }

  lemma {:induction false} ClosingLineIsFirst(r: Reader, f: Fence, text: string, from: nat) returns (z: nat)
    requires IsReader(r, f)
    ensures ClosingLine(r, text, from).Some? ==> ClosesAt(r, text, ClosingLine(r, text, from).value, z)
    ensures forall k, l | from <= k && ClosesAt(r, text, k, l) ::
              ClosingLine(r, text, from).Some? && ClosingLine(r, text, from).value <= k
    decreases |text| - from
  {
    z := 0;
    if from < |text| {
      if text[from] == '\n' { ClosingIs(r, f, text, from); }
      if text[from] == '\n' && TagEnd(r.closing, text, from + 1).Some? {
        z := TagEnd(r.closing, text, from + 1).value;
      } else {
        z := ClosingLineIsFirst(r, f, text, from + 1);
        forall k, l | from <= k && ClosesAt(r, text, k, l) ensures from + 1 <= k { }
      }
    }
  }

  /** An opening tag that starts later ends no earlier. */
  lemma {:induction false} LaterEndsLater(r: Reader, f: Fence, text: string, i: int, e: int, k: int, z: int)
    requires IsReader(r, f) && i <= k && OpensAt(r, text, i, e) && OpensAt(r, text, k, z)
    ensures e <= z
  {
    var a, b := text[i..e], text[k..z];
    assert Angled(a) && Angled(b);
    assert text[z - 1] == b[|b| - 1];
    forall x | i <= x < e - 1 ensures text[x] != '>' { assert text[x] == a[x - i]; }
  }

  /** The pattern matches at `i`: its opening tag ends at `e`, its body at `j`. */
  ghost predicate MatchesAt(r: Reader, text: string, i: int, e: int, j: int, z: int) {
    OpensAt(r, text, i, e) && e < j && ClosesAt(r, text, j, z)
  }

  ghost predicate NoBetter(r: Reader, text: string, i: int, j: int) {
    forall k, e, l, z | MatchesAt(r, text, k, e, l, z) :: i <= k && (k == i ==> j <= l)
  }

  /** The parse is the regex search: the leftmost match, with its shortest body. */
  lemma {:induction false} ParseIsSearch(r: Reader, f: Fence, text: string, i: int, e: int, j: int, z: int)
    requires IsReader(r, f) && MatchesAt(r, text, i, e, j, z) && NoBetter(r, text, i, j)
    ensures ParseBody(r, text) == Some(text[e + 1..j])
  {
    hide IsReader;
    var k := OpeningLineIsFirst(r, f, text, 0);
    var s := OpeningLine(r, text, 0).value;
    LaterEndsLater(r, f, text, k, s - 1, i, e);
    assert MatchesAt(r, text, k, s - 1, j, z);
    LaterEndsLater(r, f, text, i, e, k, s - 1);
    var y := ClosingLineIsFirst(r, f, text, s);
    assert MatchesAt(r, text, i, e, ClosingLine(r, text, s).value, y);
  }

  /** And it finds nothing exactly where nothing matches. */
  lemma {:induction false} NoBodyNoMatch(r: Reader, f: Fence, text: string)
    requires IsReader(r, f)
    ensures ParseBody(r, text).None? <==> forall i, e, j, z :: !MatchesAt(r, text, i, e, j, z)
  {
    hide IsReader;
    var k := OpeningLineIsFirst(r, f, text, 0);
    if OpeningLine(r, text, 0).Some? {
      var s := OpeningLine(r, text, 0).value;
      var y := ClosingLineIsFirst(r, f, text, s);
      forall i, e, j, z | MatchesAt(r, text, i, e, j, z) ensures ClosingLine(r, text, s).Some? {
        LaterEndsLater(r, f, text, k, s - 1, i, e);
      }
      if ClosingLine(r, text, s).Some? { assert MatchesAt(r, text, k, s - 1, ClosingLine(r, text, s).value, y); }
    }
  }

  // ---- Reading a section back ---------------------------------------------------------------------

  /** Searching a longer text for a tag that ends in the shorter one. */
  lemma {:induction false} TagEndIn(accepts: string -> bool, text: string, a: string, i: nat)
    requires a <= text && AngleFrom(a, i).Some?
    ensures TagEnd(accepts, text, i) == TagEnd(accepts, a, i)
  {
    var g := AngleFrom(a, i).value;
    AngleIs(text, i, g);
    assert text[i..g + 1] == a[i..g + 1];
  }

  lemma {:induction false} AngleIs(text: string, i: nat, g: nat)
    requires i <= g < |text| && text[g] == '>' && forall k | i <= k < g :: text[k] != '>'
    ensures AngleFrom(text, i) == Some(g)
  {
  }

  /** `text` goes on after `a` with `tag`. */
  predicate GoesOn(text: string, a: string, tag: string) {
    a <= text && tag <= text[|a|..]
  }

  lemma {:induction false} PrefixOf(text: string, a: string, tag: string)
    requires GoesOn(text, a, tag) && Angled(tag)
    ensures a <= text && |a| + |tag| <= |text| && text[|a|] == '<' && forall k | 0 <= k < |a| :: text[k] == a[k]
  {
    assert text[|a|] == text[|a|..][0];
  }

  /** A tag that does not end in `a` ends with the tag after it. */
  lemma {:induction false} TagEndOver(accepts: string -> bool, text: string, a: string, tag: string, i: nat)
    requires i <= |a| && AngleFrom(a, i).None? && Angled(tag) && GoesOn(text, a, tag)
    ensures TagEnd(accepts, text, i) == if accepts(a[i..] + tag) then Some(|a| + |tag|) else None
  {
    forall k | i <= k < |a| + |tag| ensures text[k] == if k < |a| then a[k] else tag[k - |a|] {
      if k >= |a| { assert text[|a|..][k - |a|] == tag[k - |a|]; }
    }
    AngleIs(text, i, |a| + |tag| - 1);
    assert text[i..|a| + |tag|] == a[i..] + tag;
  }

  lemma {:induction false} TagsOfReader(r: Reader, f: Fence)
    requires IsReader(r, f)
    ensures r.opening(f.open) && Angled(f.open) && !r.closing(f.open) && r.closing(f.close) && Angled(f.close)
  {
  }

  /** Before an opening tag on its own line, the first opening line is one of `front`, or that one. */
  lemma {:induction false} OpeningLineOf(r: Reader, text: string, front: string, tag: string, from: nat)
    requires r.opening(tag) && Angled(tag) && from <= |front| && GoesOn(text, front, tag)
    requires |text| > |front| + |tag| && text[|front| + |tag|] == '\n'
    ensures OpeningLine(r, text, from) ==
            if OpeningLine(r, front, from).Some? then OpeningLine(r, front, from) else Some(|front| + |tag| + 1)
    decreases |front| - from
  {
    hide AngleFrom, TagEnd, GoesOn;
    PrefixOf(text, front, tag);
    if AngleFrom(front, from).None? {
      TagEndOver(r.opening, text, front, tag, from);
      NoAngleNoOpening(r, front, from);
      assert front[|front|..] + tag == tag;
    } else {
      TagEndIn(r.opening, text, front, from);
    }
    if from < |front| { OpeningLineOf(r, text, front, tag, from + 1); }
  }

  lemma {:induction false} NoAngleNoOpening(r: Reader, front: string, from: nat)
    requires AngleFrom(front, from).None?
    ensures OpeningLine(r, front, from).None?
    decreases |front| - from
  {
    if from < |front| { NoAngleNoOpening(r, front, from + 1); }
  }

  lemma {:induction false} StraddlesNothing(r: Reader, f: Fence, a: string, tag: string)
    requires IsReader(r, f) && a != "" && Angled(tag)
    ensures !r.closing(a + tag)
  {
    var both := a + tag;
    assert both[|a|] == '<';
    assert r.closing(both) ==> OneAngle(both);
  }

  /** Up to a tag after `a`, the first closing line is one of `a`, or the tag's own. */
  lemma {:induction false} ClosingLineOf(r: Reader, f: Fence, text: string, a: string, tag: string, from: nat)
    requires IsReader(r, f) && from <= |a| && Angled(tag) && GoesOn(text, a, tag)
    ensures ClosingLine(r, text, from) ==
            if ClosingLine(r, a, from).Some? then ClosingLine(r, a, from)
            else if from < |a| && a[|a| - 1] == '\n' && r.closing(tag) then Some(|a| - 1)
            else ClosingLine(r, text, |a|)
    decreases |a| - from
  {
    hide IsReader, AngleFrom;
    if from < |a| {
      if a[from] == '\n' {
        if AngleFrom(a, from + 1).None? {
          TagEndOver(r.closing, text, a, tag, from + 1);
          NoAngleNoClosing(r, a, from + 1);
          if from + 1 < |a| { StraddlesNothing(r, f, a[from + 1..], tag); } else { assert a[from + 1..] + tag == tag; }
        } else {
          TagEndIn(r.closing, text, a, from + 1);
        }
      }
      ClosingLineOf(r, f, text, a, tag, from + 1);
    }
  }

  lemma {:induction false} NoAngleNoClosing(r: Reader, a: string, from: nat)
    requires AngleFrom(a, from).None?
    ensures ClosingLine(r, a, from).None?
    decreases |a| - from
  {
    if from < |a| { NoAngleNoClosing(r, a, from + 1); }
  }

  lemma {:induction false} AngleShift(x: string, y: string, i: nat)
    ensures AngleFrom(x + y, |x| + i) == match AngleFrom(y, i) case Some(g) => Some(|x| + g) case None => None
  {
    match AngleFrom(y, i)
    case Some(g) => AngleIs(x + y, |x| + i, |x| + g);
    case None =>
  }

  lemma {:induction false} TagEndShift(r: Reader, x: string, body: string, i: nat)
    requires i <= |body|
    ensures TagEnd(r.closing, x + body + "\n", |x| + i).Some? <==> TagEnd(r.closing, body, i).Some?
  {
    var text, y := x + body + "\n", body + "\n";
    assert text == x + y;
    AngleShift(x, y, i);
    match AngleFrom(body, i)
    case Some(g) =>
      AngleIs(y, i, g);
      assert text[|x| + i..|x| + g + 1] == body[i..g + 1];
    case None =>
  }

  /** Closing lines of a body, found in a text that has it between `x` and a line end. */
  lemma {:induction false} ClosingShift(r: Reader, x: string, body: string, i: nat)
    requires i <= |body|
    ensures var text := x + body + "\n";
            ClosingLine(r, text, |x| + i)
              == match ClosingLine(r, body, i) case Some(j) => Some(|x| + j) case None => None
    decreases |body| - i
  {
    var text := x + body + "\n";
    assert TagEnd(r.closing, text, |text|).None?;
    hide TagEnd;
    if i < |body| {
      TagEndShift(r, x, body, i + 1);
      ClosingShift(r, x, body, i + 1);
    } else {
      assert ClosingLine(r, text, |text|).None?;
    }
  }

  /** What the reader makes of a body between the fence's own lines: it stops at the first closing line. */
  function CutBody(r: Reader, body: string): string {
    match ClosingLine(r, body, 0) case Some(j) => body[..j] case None => body
  }

  /** What it reads before the fence: None where no opening line stands, the text up to a closing line otherwise. */
  function ReadsBack(r: Reader, front: string, body: string): bool {
    match OpeningLine(r, front, 0)
    case None => ClosingLine(r, body, 0).None?
    case Some(start) =>
      match ClosingLine(r, front, start)
      case None => false
      case Some(j) => front[start..j] == body
  }

  lemma Around(f: Fence, front: string, body: string, after: string)
    ensures var text, x := front + Owned(f, "\n" + body + "\n") + after, front + f.open + "\n";
            && GoesOn(text, front, f.open) && |text| > |front| + |f.open| && text[|front| + |f.open|] == '\n'
            && GoesOn(text, x + body + "\n", f.close) && x + body <= text && |x| == |front| + |f.open| + 1
  {
  }

  lemma {:induction false} CutInText(text: string, x: string, body: string, j: nat)
    requires j <= |body| && x + body <= text
    ensures text[|x|..|x| + j] == body[..j]
  {
  }

  lemma {:induction false} QuietFront(r: Reader, f: Fence, front: string, body: string, after: string)
    requires IsReader(r, f) && OpeningLine(r, front, 0).None?
    ensures ParseBody(r, front + Owned(f, "\n" + body + "\n") + after) == Some(CutBody(r, body))
  {
    hide IsReader, OpeningLine, ClosingLine, Owned, Angled, GoesOn;
    TagsOfReader(r, f);
    var text, x := front + Owned(f, "\n" + body + "\n") + after, front + f.open + "\n";
    var a := x + body + "\n";
    Around(f, front, body, after);
    OpeningLineOf(r, text, front, f.open, 0);
    ClosingLineOf(r, f, text, a, f.close, |x|);
    ClosingShift(r, x, body, 0);
    var j := match ClosingLine(r, body, 0) case Some(j) => j case None => |body|;
    assert ClosingLine(r, text, |x|) == Some(|x| + j) by { assert |x| + 0 == |x|; }
    CutInText(text, x, body, j);
    assert body[..|body|] == body;
  }

  lemma {:induction false} SectionAfter(f: Fence, front: string, body: string, after: string, start: nat, j: nat)
    requires var text := front + Owned(f, "\n" + body + "\n") + after;
             start <= |front| && |front| + |f.open| <= j <= |text|
    ensures var text := front + Owned(f, "\n" + body + "\n") + after; OccursAt(text[start..j], f.open, |front| - start)
  {
    var text, at := front + Owned(f, "\n" + body + "\n") + after, |front| - start;
    SliceOfSlice(text, start, j, at, at + |f.open|);
    WholeOccurs(text[start..j], f.open, at);
  }

  /** An opening line before the fence takes the section's place. */
  lemma {:induction false} LoudFront(r: Reader, f: Fence, front: string, body: string, after: string)
    requires IsFence(f) && IsReader(r, f) && OpeningLine(r, front, 0).Some?
    ensures var start, text := OpeningLine(r, front, 0).value, front + Owned(f, "\n" + body + "\n") + after;
            match ClosingLine(r, front, start)
            case Some(j) => ParseBody(r, text) == Some(front[start..j])
            case None => ParseBody(r, text).Some? ==> OccursAt(ParseBody(r, text).value, f.open, |front| - start)
  {
    hide IsReader, OccursAt, Owned, GoesOn, OpeningLine;
    TagsOfReader(r, f);
    var start, text := OpeningLine(r, front, 0).value, front + Owned(f, "\n" + body + "\n") + after;
    Around(f, front, body, after);
    OpeningLineOf(r, text, front, f.open, 0);
    ClosingLineOf(r, f, text, front, f.open, start);
    match ClosingLine(r, front, start)
    case Some(j) =>
      PrefixOf(text, front, f.open);
      assert text[start..j] == front[start..j];
    case None =>
      TagAt(text, front, f.open);
      NoClosingInTag(r, text, |front|, f.open);
      match ClosingLine(r, text, |front|)
      case None =>
      case Some(j) => SectionAfter(f, front, body, after, start, j);
  }

  lemma {:induction false} TagAt(text: string, a: string, tag: string)
    requires GoesOn(text, a, tag)
    ensures |a| + |tag| <= |text| && text[|a|..|a| + |tag|] == tag
  {
    assert text[|a|..][..|tag|] == text[|a|..|a| + |tag|];
  }

  lemma {:induction false} WholeOccurs(text: string, pat: string, i: nat)
    requires i + |pat| <= |text| && text[i..i + |pat|] == pat
    ensures OccursAt(text, pat, i)
  {
    forall k | 0 <= k < |pat| ensures SameAt(text, pat, i, k) { assert text[i..i + |pat|][k] == pat[k]; }
  }

  lemma {:induction false} NoClosingInTag(r: Reader, text: string, i: nat, tag: string)
    requires i + |tag| <= |text| && text[i..i + |tag|] == tag && OneLine(tag)
    ensures ClosingLine(r, text, i).Some? ==> ClosingLine(r, text, i).value >= i + |tag|
    decreases |tag|
  {
    if tag != "" {
      assert text[i] == tag[0] && tag[0] in tag;
      assert text[i + 1..i + |tag|] == tag[1..];
      NoClosingInTag(r, text, i + 1, tag[1..]);
    }
  }

  /**
   * A body between the fence's own lines reads back exactly if no line of it starts with a tag the
   * reader takes for the closing one -- unless an opening line stands before the fence: then the
   * text there is read, up to a closing line, and gives the body only where it happens to equal it.
   */
  lemma {:induction false} ReadBackIff(r: Reader, f: Fence, front: string, body: string, after: string)
    requires IsFence(f) && IsReader(r, f) && FreeOfFence(f, body)
    ensures ParseBody(r, front + Owned(f, "\n" + body + "\n") + after) == Some(body) <==> ReadsBack(r, front, body)
  {
    if OpeningLine(r, front, 0).None? {
      QuietFront(r, f, front, body, after);
    } else {
      LoudFront(r, f, front, body, after);
    }
  }

  lemma {:induction false} OpeningIsAngle(r: Reader, f: Fence, text: string, i: int, e: int)
    requires IsReader(r, f) && OpensAt(r, text, i, e)
    ensures '<' in text
  {
    assert Angled(text[i..e]);
    assert text[i] == text[i..e][0];
  }

  /** Text without a `<` holds no opening line. */
  lemma {:induction false} PlainIsQuiet(r: Reader, f: Fence, front: string, from: nat)
    requires IsReader(r, f) && '<' !in front
    ensures OpeningLine(r, front, from).None?
  {
    var i := OpeningLineIsFirst(r, f, front, from);
    match OpeningLine(r, front, from)
    case None =>
    case Some(s) =>
      OpeningIsAngle(r, f, front, i, s - 1);
  }

  // ---- A tag the merge does not know ----------------------------------------------------------------

  const OTHER_CLOSE := "<!--/" + NAME + "-->"

  /** A body that `merge_note` accepts and `parse_vault_note` cuts short. */
  const CUT_BODY := "a\n" + OTHER_CLOSE + "\nb"

  lemma {:induction false} OtherCloseIsClosing()
    ensures IsClosing(OTHER_CLOSE) && OTHER_CLOSE != OWNER_FENCE.close
  {
    var name := "/" + NAME;
    LTrimSpace(name + "-->");
    LTrimSpace("-->");
    assert OTHER_CLOSE == "<!--" + (name + "-->");
    assert OTHER_CLOSE[4..] == name + "-->";
    assert (name + "-->")[|name|..] == "-->";
    assert OTHER_CLOSE[4] == '/' && OWNER_FENCE.close[4] == ' ';
  }

  /** The closing tag in another spelling: the body holds no fence, and reads back as its first line. */
  lemma {:induction false} OtherSpellingCuts(front: string, after: string)
    requires OpeningLine(OWNER_READER, front, 0).None?
    ensures FreeOfFence(OWNER_FENCE, CUT_BODY)
    ensures ParseBody(OWNER_READER, front + Owned(OWNER_FENCE, "\n" + CUT_BODY + "\n") + after) == Some("a")
  {
    OwnerReader();
    OtherCloseIsClosing();
    CutBodyIsFree();
    CutBodyIsCut();
    QuietFront(OWNER_READER, OWNER_FENCE, front, CUT_BODY, after);
  }

  lemma {:induction false} OtherTagIsFree(tag: string, pat: string)
    requires Angled(tag) && OneAngle(tag) && IsTag(pat) && pat != tag
    ensures Free(tag, pat)
  {
    assert tag[0..|tag|] == tag;
    forall i ensures !OccursAt(tag, pat, i) {
      if OccursAt(tag, pat, i) {
        assert SameAt(tag, pat, i, 0) && SameAt(tag, pat, i, |pat| - 1);
        OccursSlice(tag, pat, i);
      }
    }
  }

  lemma {:induction false} CutBodyIsFree()
    ensures FreeOfFence(OWNER_FENCE, CUT_BODY)
  {
    hide IsClosing, IsOpening;
    OwnerReader();
    OtherCloseIsClosing();
    assert Angled(OTHER_CLOSE) && OneAngle(OTHER_CLOSE) by { ClosingIsAngled(OTHER_CLOSE); }
    assert OWNER_FENCE.open != OTHER_CLOSE by { OpenFenceIsOpening(); }
    FreeInLines(OWNER_FENCE.open);
    FreeInLines(OWNER_FENCE.close);
  }

  lemma {:induction false} FreeInLines(pat: string)
    requires IsTag(pat) && pat != OTHER_CLOSE && Angled(OTHER_CLOSE) && OneAngle(OTHER_CLOSE)
    ensures Free(CUT_BODY, pat)
  {
    hide Free;
    OtherTagIsFree(OTHER_CLOSE, pat);
    NoAngle("a\n", pat);
    NoAngle("\nb", pat);
    FreeAcross("a\n", OTHER_CLOSE, pat);
    FreeAcross("a\n" + OTHER_CLOSE, "\nb", pat);
  }

  lemma {:induction false} CutBodyIsCut()
    ensures ClosingLine(OWNER_READER, CUT_BODY, 0) == Some(1) && CutBody(OWNER_READER, CUT_BODY) == "a"
  {
    hide IsClosing;
    OtherCloseIsClosing();
    ClosingIsAngled(OTHER_CLOSE);
    var e := 2 + |OTHER_CLOSE|;
    assert CUT_BODY[2..e] == OTHER_CLOSE;
    TagEndIs(IsClosing, CUT_BODY, 2, e);
    assert ClosingLine(OWNER_READER, CUT_BODY, 1) == Some(1);
    assert CUT_BODY[0] == 'a' && CUT_BODY[..1] == "a";
  }
}
