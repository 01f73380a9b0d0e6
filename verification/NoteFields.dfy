/**
 * The frontmatter of a note file, field by field: what `render_note` writes under which key
 * (packages/apple-notes/fulcra_apple_notes/render.py) and what `parse_vault_note` reads of it
 * (reconcile.py).
 */
module NoteFields {
  import opened Wrappers
  import opened TextLines
  import opened NoteHeader
  import opened NoteText
  import opened NoteMerge
  import opened NoteRender

  // ---- One line per key ---------------------------------------------------------------------------

  /** The lines give `key` this value, or have no line for it. */
  ghost predicate Says(lines: seq<string>, key: string, value: Option<string>) {
    && (forall k | 0 <= k < |lines| && KeyOf(lines[k]) == key ::
          value.Some? && lines[k] == key + ": " + FmValue(value.value))
    && (value.Some? ==> key + ": " + FmValue(value.value) in lines)
  }

  lemma {:induction false} FieldSays(fields: seq<Field>, i: nat)
    requires GoodFields(fields) && i < |fields|
    ensures Says(FrontLines(fields), fields[i].key, fields[i].value)
  {
    hide GoodFields, FrontLines, FmValue;
    var lines, key, value := FrontLines(fields), fields[i].key, fields[i].value;
    forall k | 0 <= k < |lines| && KeyOf(lines[k]) == key
      ensures value.Some? && lines[k] == FrontLine(key, value.value)
    {
      LineOfField(fields, i, k);
    }
    if value.Some? {
      FieldHasLine(fields, i);
      assert FrontLine(key, value.value) == key + ": " + FmValue(value.value);
    }
  }

  lemma {:induction false} LineOfField(fields: seq<Field>, i: nat, k: nat)
    requires GoodFields(fields) && i < |fields| && k < |FrontLines(fields)|
    requires KeyOf(FrontLines(fields)[k]) == fields[i].key
    ensures fields[i].value.Some? && FrontLines(fields)[k] == FrontLine(fields[i].key, fields[i].value.value)
  {
    hide FrontLines, FrontLine, FmValue;
    var line := FrontLines(fields)[k];
    LineFromField(fields, k);
    var j :| 0 <= j < |fields| && fields[j].value.Some? && line == FrontLine(fields[j].key, fields[j].value.value);
    FrontLineIs(fields[j].key, fields[j].value.value);
    assert i == j;
  }

  lemma {:induction false} FieldHasLine(fields: seq<Field>, i: nat)
    requires i < |fields| && fields[i].value.Some?
    ensures FrontLine(fields[i].key, fields[i].value.value) in FrontLines(fields)
  {
    if i > 0 { FieldHasLine(fields[1..], i - 1); }
  }

  /**
   * What the frontmatter of a rendered note says: under each key the value of that property of the
   * note, and no line for a date it does not have.
   */
  lemma {:induction false} RenderedSays(n: AppleNote, hash: string, now: Moment)
    ensures var lines := FrontLines(Fields(n, hash, now));
            && Says(lines, "title", Some(if n.title == "" then "Untitled" else n.title))
            && Says(lines, "source", Some("apple-notes"))
            && Says(lines, "apple-uuid", Some(n.uuid))
            && Says(lines, "apple-folder", Some(n.folder))
            && Says(lines, "apple-modified", n.modified)
            && Says(lines, "apple-created", n.created)
            && Says(lines, "apple-hash", Some(hash))
            && Says(lines, "apple-deleted", Some(if n.deleted then "true" else "false"))
            && Says(lines, "synced-at", Some(now.iso))
            && Says(lines, "updated-by", Some("fulcra-collect/apple-notes"))
  {
    hide Says, FrontLines, GoodFields;
    var fields := Fields(n, hash, now);
    FieldsAreGood(n, hash, now);
    FieldSays(fields, 0);
    FieldSays(fields, 1);
    FieldSays(fields, 2);
    FieldSays(fields, 3);
    FieldSays(fields, 4);
    FieldSays(fields, 5);
    FieldSays(fields, 6);
    FieldSays(fields, 7);
    FieldSays(fields, 8);
    FieldSays(fields, 9);
  }

  // ---- Reading a value ----------------------------------------------------------------------------

  /** `s.replace('\\' + c, c)`: from the left, without overlaps. */
  function Unescaped(s: string, c: char): string {
    if |s| < 2 then s
    else if s[0] == '\\' && s[1] == c then [c] + Unescaped(s[2..], c)
    else [s[0]] + Unescaped(s[1..], c)
  }

  /** What `parse_vault_note` makes of the text behind a key. */
  function ReadValue(text: string): string {
    var value := Strip(text);
    if |value| >= 2 && value[0] == '"' && value[|value| - 1] == '"' then
      Unescaped(Unescaped(value[1..|value| - 1], '"'), '\\')
    else value
  }

  /** With only the backslashes escaped. */
  function HalfEscaped(text: string): string {
    if text == "" then "" else (if text[0] == '\\' then "\\\\" else [text[0]]) + HalfEscaped(text[1..])
  }

  predicate Breakless(text: string) {
    '\n' !in text && '\r' !in text
  }

  lemma {:induction false} QuotesUnescape(text: string)
    requires Breakless(text)
    ensures Unescaped(EscapedAll(text), '"') == HalfEscaped(text)
    ensures EscapedAll(text) != "" ==> EscapedAll(text)[0] != '"'
  {
    if text != "" {
      var c, rest := text[0], EscapedAll(text[1..]);
      assert text == [c] + text[1..];
      QuotesUnescape(text[1..]);
      if c == '\\' {
        assert EscapedAll(text) == ['\\', '\\'] + rest && EscapedAll(text)[1..] == ['\\'] + rest;
        assert (['\\'] + rest)[1..] == rest;
        if rest == "" { assert Unescaped(['\\'], '"') == ['\\']; }
      } else if c == '"' {
        assert EscapedAll(text) == ['\\', '"'] + rest && EscapedAll(text)[2..] == rest;
      } else {
        assert EscapedAll(text) == [c] + rest && EscapedAll(text)[1..] == rest;
        assert c in text;
      }
    }
  }

  lemma {:induction false} BackslashesUnescape(text: string)
    ensures Unescaped(HalfEscaped(text), '\\') == text
  {
    if text != "" {
      var c, rest := text[0], HalfEscaped(text[1..]);
      BackslashesUnescape(text[1..]);
      if c == '\\' {
        assert HalfEscaped(text) == ['\\', '\\'] + rest && HalfEscaped(text)[2..] == rest;
      } else {
        assert HalfEscaped(text) == [c] + rest && HalfEscaped(text)[1..] == rest;
      }
      assert text == [c] + text[1..];
    }
  }

  lemma {:induction false} UnescapedKeepsOut(s: string, c: char, x: char)
    requires x !in s && x != c
    ensures x !in Unescaped(s, c)
    decreases |s|
  {
    if |s| >= 2 {
      if s[0] == '\\' && s[1] == c {
        assert forall y | y in s[2..] :: y in s;
        UnescapedKeepsOut(s[2..], c, x);
      } else {
        assert s[0] in s && forall y | y in s[1..] :: y in s;
        UnescapedKeepsOut(s[1..], c, x);
      }
    }
  }

  lemma {:induction false} EscapedHasNoBreaks(text: string)
    ensures '\n' !in EscapedAll(text) && '\r' !in EscapedAll(text)
  {
    if text != "" { EscapedHasNoBreaks(text[1..]); }
  }

  lemma {:induction false} StripOfUnpadded(text: string)
    requires !Padded(text)
    ensures Strip(text) == text && (text != "" ==> Strip(" " + text) == text)
  {
    if text != "" {
      assert (" " + text)[1..] == text;
      assert LTrim(text) == text && RTrim(text) == text;
      assert LTrim(" " + text) == LTrim(text);
    }
  }

  /** A field reads back as it was, exactly if its value has no line feed and, where it is quoted, no
   * carriage return. */
  lemma {:induction false} FieldReadsBackIff(value: string)
    ensures ReadValue(" " + FmValue(value)) == value <==>
              '\n' !in value && ('\r' in value ==> !NeedsQuotes(value))
  {
    if NeedsQuotes(value) {
      QuotedReadsBackIff(value);
    } else {
      StripOfUnpadded(value);
      assert '\n' in ":#[]{}\",\n" && '"' in ":#[]{}\",\n";
      assert value[0] in value;
    }
  }

  lemma {:induction false} QuotedReadsBackIff(value: string)
    requires NeedsQuotes(value)
    ensures ReadValue(" " + FmValue(value)) == value <==> Breakless(value)
  {
    var inner, text := EscapedAll(value), FmValue(value);
    assert text[0] == '"' && text[|text| - 1] == '"' && text[1..|text| - 1] == inner;
    StripOfUnpadded(text);
    if Breakless(value) {
      QuotesUnescape(value);
      BackslashesUnescape(value);
    } else {
      EscapedHasNoBreaks(value);
      UnescapedKeepsOut(inner, '"', '\n');
      UnescapedKeepsOut(inner, '"', '\r');
      UnescapedKeepsOut(Unescaped(inner, '"'), '\\', '\n');
      UnescapedKeepsOut(Unescaped(inner, '"'), '\\', '\r');
    }
  }
}
