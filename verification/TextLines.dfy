/** Python's `str.split("\n")`, `"\n".join` and substring search. */
module TextLines {

  predicate OneLine(s: string) {
    '\n' !in s
  }

  predicate OneLiners(lines: seq<string>) {
    forall i | 0 <= i < |lines| :: OneLine(lines[i])
  }

  function Split(s: string): (lines: seq<string>)
    ensures |lines| > 0
  {
    if s == "" then [""]
    else
      var rest := Split(s[1..]);
      if s[0] == '\n' then [""] + rest else [[s[0]] + rest[0]] + rest[1..]
  }

  function Join(lines: seq<string>): string {
    if |lines| == 0 then ""
    else if |lines| == 1 then lines[0]
    else lines[0] + "\n" + Join(lines[1..])
  }

  lemma {:induction false} SplitIsOneLiners(s: string)
    ensures OneLiners(Split(s))
  {
    if s != "" { SplitIsOneLiners(s[1..]); }
  }

  lemma {:induction false} JoinSplit(s: string)
    ensures Join(Split(s)) == s
  {
    if s != "" {
      JoinSplit(s[1..]);
      var rest := Split(s[1..]);
      if s[0] != '\n' {
        assert Split(s)[1..] == rest[1..];
        assert Join(Split(s)) == [s[0]] + Join(rest);
      } else {
        assert Split(s)[1..] == rest;
      }
    }
  }

  lemma {:induction false} SplitJoin(lines: seq<string>)
    requires |lines| > 0 && OneLiners(lines)
    ensures Split(Join(lines)) == lines
  {
    if |lines| == 1 {
      SplitOneLine(lines[0]);
    } else {
      SplitJoin(lines[1..]);
      SplitAtNewline(lines[0], Join(lines[1..]));
      assert lines[0] + "\n" + Join(lines[1..]) == Join(lines);
    }
  }

  lemma {:induction false} SplitOneLine(s: string)
    requires OneLine(s)
    ensures Split(s) == [s]
  {
    if s != "" {
      SplitOneLine(s[1..]);
      assert s[0] in s && s == [s[0]] + s[1..];
    }
  }

  lemma {:induction false} SplitAtNewline(a: string, b: string)
    requires OneLine(a)
    ensures Split(a + "\n" + b) == [a] + Split(b)
  {
    if a == "" {
      assert (a + "\n" + b)[1..] == b;
    } else {
      SplitAtNewline(a[1..], b);
      assert (a + "\n" + b)[1..] == a[1..] + "\n" + b;
      assert a[0] in a && a == [a[0]] + a[1..];
    }
  }

  lemma {:induction false} JoinConcat(a: seq<string>, b: seq<string>)
    requires |a| > 0 && |b| > 0
    ensures Join(a + b) == Join(a) + "\n" + Join(b)
  {
    if |a| == 1 {
      assert (a + b)[1..] == b;
    } else {
      JoinConcat(a[1..], b);
      assert (a + b)[1..] == a[1..] + b;
    }
  }

  // ---- White space ----------------------------------------------------------------------------

  /** What `strip` and `\s` take for white space. */
  predicate Space(c: char) {
    || '\t' <= c <= '\r' || '\U{1c}' <= c <= ' ' || c == '\U{85}' || c == '\U{a0}' || c == '\U{1680}'
    || '\U{2000}' <= c <= '\U{200a}' || '\U{2028}' <= c <= '\U{2029}'
    || c == '\U{202f}' || c == '\U{205f}' || c == '\U{3000}'
  }

  /** `not text.strip()`. */
  predicate Blank(text: string) {
    forall c | c in text :: Space(c)
  }

  function LTrim(s: string): string {
    if s != "" && Space(s[0]) then LTrim(s[1..]) else s
  }

  function RTrim(s: string): string {
    if s != "" && Space(s[|s| - 1]) then RTrim(s[..|s| - 1]) else s
  }

  /** `s.strip()`. */
  function Strip(s: string): string {
    RTrim(LTrim(s))
  }

  // ---- Substrings -----------------------------------------------------------------------------

  predicate SameAt(text: string, pat: string, i: int, k: nat)
    requires 0 <= i && i + |pat| <= |text| && k < |pat|
  {
    text[i + k] == pat[k]
  }

  predicate OccursAt(text: string, pat: string, i: int) {
    0 <= i && i + |pat| <= |text|
      && forall k {:trigger SameAt(text, pat, i, k)} | 0 <= k < |pat| :: SameAt(text, pat, i, k)
  }

  /** `pat` does not occur in `text`. */
  ghost predicate Free(text: string, pat: string) {
    forall i :: !OccursAt(text, pat, i)
  }

  /** `pat` occurs in `text` exactly once, at `i`: `text.count(pat) == 1` and `text.index(pat) == i`. */
  ghost predicate OnceAt(text: string, pat: string, i: int) {
    OccursAt(text, pat, i) && forall j :: OccursAt(text, pat, j) ==> j == i
  }

  /** A tag: its angle brackets stand only at its two ends, and it fits on a line. */
  predicate IsTag(pat: string) {
    && |pat| >= 2 && pat[0] == '<' && pat[|pat| - 1] == '>' && OneLine(pat)
    && (forall i | 1 <= i < |pat| :: pat[i] != '<')
    && (forall i | 0 <= i < |pat| - 1 :: pat[i] != '>')
  }

  /** An occurrence in one text is one in another that has the same characters there. */
  lemma {:induction false} OccursMoved(text: string, other: string, pat: string, i: int, j: int)
    requires OccursAt(text, pat, i) && 0 <= j && j + |pat| <= |other|
    requires text[i..i + |pat|] == other[j..j + |pat|]
    ensures OccursAt(other, pat, j)
  {
    forall k | 0 <= k < |pat| ensures SameAt(other, pat, j, k) {
      assert SameAt(text, pat, i, k);
      assert text[i + k] == text[i..i + |pat|][k] == other[j..j + |pat|][k] == other[j + k];
    }
  }

  lemma {:induction false} OccursSlice(text: string, pat: string, i: int)
    requires OccursAt(text, pat, i)
    ensures text[i..i + |pat|] == pat
  {
    forall k | 0 <= k < |pat| ensures text[i + k] == pat[k] { assert SameAt(text, pat, i, k); }
  }

  lemma {:induction false} SliceOfSlice(text: string, lo: nat, hi: nat, i: nat, k: nat)
    requires lo <= hi <= |text| && i <= k <= hi - lo
    ensures text[lo..hi][i..k] == text[lo + i..lo + k]
  {
    var a, b := text[lo..hi][i..k], text[lo + i..lo + k];
    assert forall j | 0 <= j < |a| :: a[j] == b[j];
  }

  lemma {:induction false} OccursInLeft(a: string, b: string, pat: string, i: int)
    requires i + |pat| <= |a|
    ensures OccursAt(a + b, pat, i) <==> OccursAt(a, pat, i)
  {
    if 0 <= i {
      assert (a + b)[i..i + |pat|] == a[i..i + |pat|];
      if OccursAt(a, pat, i) { OccursMoved(a, a + b, pat, i, i); }
      if OccursAt(a + b, pat, i) { OccursMoved(a + b, a, pat, i, i); }
    }
  }

  lemma {:induction false} OccursInRight(a: string, b: string, pat: string, i: int)
    requires |a| <= i
    ensures OccursAt(a + b, pat, i) <==> OccursAt(b, pat, i - |a|)
  {
    if i + |pat| <= |a| + |b| {
      assert (a + b)[i..i + |pat|] == b[i - |a|..i - |a| + |pat|];
      if OccursAt(b, pat, i - |a|) { OccursMoved(b, a + b, pat, i - |a|, i); }
      if OccursAt(a + b, pat, i) { OccursMoved(a + b, b, pat, i, i - |a|); }
    }
  }

  lemma {:induction false} NoAngle(s: string, pat: string)
    requires IsTag(pat) && '<' !in s
    ensures Free(s, pat)
  {
    forall i ensures !OccursAt(s, pat, i) {
      if 0 <= i && i + |pat| <= |s| { assert !SameAt(s, pat, i, 0); }
    }
  }

  /** No tag runs over a line end, into the start of a tag, or out of the end of one. */
  predicate Seam(a: string, b: string) {
    (b != "" && b[0] in {'<', '\n'}) || (a != "" && a[|a| - 1] in {'>', '\n'}) || a == "" || b == ""
  }

  lemma {:induction false} NoStraddle(a: string, b: string, pat: string, i: nat)
    requires IsTag(pat) && Seam(a, b) && i < |a| < i + |pat| <= |a + b|
    ensures !OccursAt(a + b, pat, i)
  {
    assert !SameAt(a + b, pat, i, |a| - i) || !SameAt(a + b, pat, i, |a| - 1 - i);
  }

  /** Across a seam the occurrences are those of the two parts. */
  lemma {:induction false} OccursAcross(a: string, b: string, pat: string, i: int)
    requires IsTag(pat) && Seam(a, b)
    ensures OccursAt(a + b, pat, i) <==> OccursAt(a, pat, i) || OccursAt(b, pat, i - |a|)
  {
    if 0 <= i < |a| < i + |pat| <= |a + b| { NoStraddle(a, b, pat, i); }
    if i + |pat| <= |a| { OccursInLeft(a, b, pat, i); }
    if |a| <= i { OccursInRight(a, b, pat, i); }
  }

  lemma {:induction false} FreeAcross(a: string, b: string, pat: string)
    requires IsTag(pat) && Seam(a, b)
    ensures Free(a + b, pat) <==> Free(a, pat) && Free(b, pat)
  {
    forall i ensures OccursAt(a + b, pat, i) <==> OccursAt(a, pat, i) || OccursAt(b, pat, i - |a|) {
      OccursAcross(a, b, pat, i);
    }
    if Free(a + b, pat) {
      forall i ensures !OccursAt(b, pat, i) { assert !OccursAt(a + b, pat, i + |a|); assert i + |a| - |a| == i; }
    }
  }

  lemma {:induction false} OnceLeft(a: string, b: string, pat: string, i: int)
    requires IsTag(pat) && Seam(a, b) && OnceAt(a, pat, i) && Free(b, pat)
    ensures OnceAt(a + b, pat, i)
  {
    forall j ensures OccursAt(a + b, pat, j) <==> j == i { OccursAcross(a, b, pat, j); }
  }

  lemma {:induction false} OnceRight(a: string, b: string, pat: string, i: int)
    requires IsTag(pat) && Seam(a, b) && Free(a, pat) && OnceAt(b, pat, i)
    ensures OnceAt(a + b, pat, |a| + i)
  {
    forall j ensures OccursAt(a + b, pat, j) <==> j == |a| + i { OccursAcross(a, b, pat, j); }
  }

  /** Text without a tag, line by line. */
  lemma {:induction false} FreeLines(lines: seq<string>, pat: string)
    requires IsTag(pat)
    ensures Free(Join(lines), pat) <==> forall k | 0 <= k < |lines| :: Free(lines[k], pat)
  {
    if |lines| > 1 {
      var rest := lines[1..];
      FreeLines(rest, pat);
      FreeAcross(lines[0], "\n" + Join(rest), pat);
      FreeAcross("\n", Join(rest), pat);
      assert Free("\n", pat);
      assert lines[0] + ("\n" + Join(rest)) == Join(lines);
      assert forall k | 0 <= k < |rest| :: rest[k] == lines[k + 1];
    }
  }
}
