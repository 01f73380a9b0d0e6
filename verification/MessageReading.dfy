/**
 * What `parseRow` makes of any row (packages/aicq-claude-mod/hooks/wire.ts), whoever wrote it, and
 * what comes back of a written message besides its id, kind and body.
 */
module MessageReading {
  import opened Wrappers
  import opened Picking
  import opened MessageCodec

  // ---- What a row carries -------------------------------------------------------------------------

  predicate HasV1(row: Row) {
    || row.fields.protocol == "connect-our-agents/1"
    || (row.data.Some? && row.data.value.protocol == "connect-our-agents/1")
    || (row.note.Some? && row.note.value.fields.protocol == "connect-our-agents/1")
  }

  /** The row's v1 envelope: its own fields, else its data object, else its note. */
  predicate IsV1(row: Row, e: Envelope) {
    if row.fields.protocol == "connect-our-agents/1" then e == row.fields
    else if row.data.Some? && row.data.value.protocol == "connect-our-agents/1" then e == row.data.value
    else HasV1(row) && e == row.note.value.fields
  }

  predicate HasWorkspace(row: Row) {
    row.note.Some? && row.note.value.coord.Some? && row.note.value.coord.value.protocol == "fulcra.workspaces/1"
  }

  predicate IsWorkspace(row: Row, e: Envelope) {
    !HasV1(row) && HasWorkspace(row) && e == row.note.value.coord.value
  }

  predicate IsMesh(row: Row, note: MessageCodec.Note) {
    !HasV1(row) && !HasWorkspace(row) && row.note == Some(note) && note.mid != ""
  }

  // ---- Reading an envelope ---------------------------------------------------------------------------

  function Named(recipients: seq<string>): set<int> {
    set i | 0 <= i < |recipients| && recipients[i] != ""
  }

  lemma {:induction false} NonEmptyArePicked(recipients: seq<string>)
    ensures Picked(recipients, Named(recipients), NonEmpty(recipients))
    ensures forall r :: r in NonEmpty(recipients) <==> r in recipients && r != ""
  {
    hide Picked;
    if recipients == [] {
      NothingPicked(recipients);
      assert Named(recipients) == {};
    } else {
      var first, rest := recipients[0], recipients[1..];
      NonEmptyArePicked(rest);
      PickedCons(first, rest, Named(rest), NonEmpty(rest));
      assert recipients == [first] + rest;
      NamedCons(first, rest);
      assert NonEmpty(recipients) == if first == "" then NonEmpty(rest) else [first] + NonEmpty(rest);
    }
  }

  lemma NamedCons(first: string, rest: seq<string>)
    ensures Named([first] + rest) == if first == "" then Shifted(Named(rest)) else {0} + Shifted(Named(rest))
  {
    var all, up := Named([first] + rest), Shifted(Named(rest));
    forall k ensures k in all <==> k in up || (k == 0 && first != "") {
      if k in all && k > 0 { assert k - 1 in Named(rest); }
    }
  }

  /** The reader is meant: it has no name, nobody is named, or it is named, alone or with everyone. */
  ghost predicate Reaches(name: string, recipients: seq<string>) {
    name == "" || (forall r | r in recipients :: r == "")
    || exists r :: r in recipients && (r == name || r == "all" || r == "*")
  }

  /** The first recipient that is neither blank nor everyone, "all" if there is none. */
  ghost predicate IsPartner(recipients: seq<string>, contact: string) {
    || (contact == "all" && forall r | r in recipients :: r == "" || r == "all" || r == "*")
    || exists i :: 0 <= i < |recipients| && IsPartnerAt(recipients, i) && contact == recipients[i]
  }

  ghost predicate IsPartnerAt(recipients: seq<string>, i: nat)
    requires i < |recipients|
  {
    recipients[i] !in {"", "all", "*"} && forall j | 0 <= j < i :: recipients[j] in {"", "all", "*"}
  }

  lemma {:induction false} FirstNamedIsPartner(recipients: seq<string>)
    ensures IsPartner(recipients, FirstNamed(NonEmpty(recipients)))
  {
    if recipients != [] {
      var first, rest := recipients[0], recipients[1..];
      FirstNamedIsPartner(rest);
      var contact := FirstNamed(NonEmpty(rest));
      assert NonEmpty(recipients) == if first == "" then NonEmpty(rest) else [first] + NonEmpty(rest);
      assert first != "" ==> NonEmpty(recipients)[1..] == NonEmpty(rest);
      if first !in {"", "all", "*"} {
        assert IsPartnerAt(recipients, 0);
      } else if exists i :: 0 <= i < |rest| && IsPartnerAt(rest, i) && contact == rest[i] {
        var i :| 0 <= i < |rest| && IsPartnerAt(rest, i) && contact == rest[i];
        forall j | 0 <= j < i + 1 ensures recipients[j] in {"", "all", "*"} {
          if j > 0 { assert recipients[j] == rest[j - 1]; }
        }
        assert recipients[i + 1] == rest[i] && IsPartnerAt(recipients, i + 1);
      } else {
        assert forall r | r in recipients :: r == first || r in rest;
      }
    }
  }

  /** What is read from the body and the topic. */
  ghost predicate Says(m: Incoming, kind: string, topic: string, body: string) {
    && m.topic == topic && KindIs(m.kind, kind, topic)
    && Split(m.body, m.state, m.purpose) == SplitFrom(Split(body, None, None), 2)
  }

  /** The suffix of the topic goes first, then the two names mesh has for a kind. */
  predicate KindIs(read: string, kind: string, topic: string) {
    if EndsWith(topic, "-ack") then read == "ack"
    else if EndsWith(topic, "-retracted") then read == "retraction"
    else match kind
         case "directive" => read == "message"
         case "" => read == "message"
         case "response" => read == "reply"
         case _ => read == kind
  }

  /** A topic ends in a suffix exactly if something stands before it. */
  lemma {:induction false} EndsWithIff(topic: string, suffix: string)
    ensures EndsWith(topic, suffix) <==> exists before :: topic == before + suffix
  {
    if EndsWith(topic, suffix) { assert topic == topic[..|topic| - |suffix|] + suffix; }
    if before :| topic == before + suffix { assert topic[|topic| - |suffix|..] == suffix; }
  }

  /** A v1 or workspace envelope: who reads it, why the others do not, and what they read. */
  lemma {:induction false} EnvelopeIsRead(row: Row, ctx: Context, e: Envelope)
    requires IsV1(row, e) || IsWorkspace(row, e)
    ensures var r, mine := ParseRow(row, ctx), ctx.agentName != "" && e.sender == ctx.agentName;
            && (r.Ok? <==> e.messageId != "" && e.kind != "heartbeat"
                           && (ctx.mesh || mine || Reaches(ctx.agentName, e.recipients)))
            && (r.Err? ==> r.error == if e.messageId == "" then Malformed
                                      else if e.kind == "heartbeat" then Presence else NotForMe)
            && (r.Ok? ==>
                  var m := r.value;
                  && m.id == e.messageId && m.inReplyTo == e.inReplyTo && Says(m, e.kind, e.topic, e.body)
                  && m.at == (if HasV1(row) || e.sentAt == "" then row.at else e.sentAt)
                  && Picked(e.recipients, Named(e.recipients), m.recipients)
                  && (ctx.mesh ==> m.direction == ctx.direction && m.contact == ctx.contact)
                  && (!ctx.mesh ==> if mine then m.direction == Out && IsPartner(e.recipients, m.contact)
                                    else m.direction == In
                                         && m.contact == (if e.sender != "" then e.sender else "unknown")))
  {
    hide Picked, SplitFrom, EndsWith, IsPartner;
    NonEmptyArePicked(e.recipients);
    FirstNamedIsPartner(e.recipients);
    var named := NonEmpty(e.recipients);
    assert named != [] ==> named[0] in named;
    assert RawOf(row, ctx) == Some(Raw(e.messageId, e.sender, named, e.kind, e.topic, e.body, e.inReplyTo, "",
                                       if HasV1(row) || e.sentAt == "" then row.at else e.sentAt));
  }

  lemma OnlyOne(to: string)
    ensures NonEmpty([to]) == if to == "" then [] else [to]
    ensures forall r :: r in NonEmpty([to]) <==> r in [to] && r != ""
    ensures to != "" ==> NonEmpty([to])[0] in NonEmpty([to])
  {
  }

  /** A mesh message; `to_user` is looked at in a mesh read of what came in, the names in a workspace read. */
  lemma {:induction false} MeshIsRead(row: Row, ctx: Context, note: MessageCodec.Note)
    requires IsMesh(row, note)
    ensures var r := ParseRow(row, ctx);
            var sender := if ctx.direction == Out then "me" else ctx.contact;
            var mine := ctx.agentName != "" && sender == ctx.agentName;
            && (r.Ok? <==> note.kind != "heartbeat"
                           && (ctx.mesh ==> ctx.direction == Out || note.toUser == "" || note.toUser == ctx.me)
                           && (!ctx.mesh ==> mine || Reaches(ctx.agentName, [note.to])))
            && (r.Err? ==> r.error == if note.kind == "heartbeat" then Presence else NotForMe)
            && (r.Ok? ==>
                  var m := r.value;
                  && m.id == note.mid && m.inReplyTo == "" && m.at == row.at
                  && Says(m, note.kind, note.slug, note.body)
                  && m.recipients == (if note.to == "" then [] else [note.to])
                  && (ctx.mesh ==> m.direction == ctx.direction && m.contact == ctx.contact)
                  && (!ctx.mesh ==> if mine then m.direction == Out && IsPartner([note.to], m.contact)
                                    else
                                      m.direction == In && m.contact == (if sender != "" then sender else "unknown")))
  {
    hide SplitFrom, EndsWith, IsPartner, FirstNamed, NonEmpty;
    FirstNamedIsPartner([note.to]);
    OnlyOne(note.to);
    var named := NonEmpty([note.to]);
    assert RawOf(row, ctx) == Some(Raw(note.mid, if ctx.direction == Out then "me" else ctx.contact, named, note.kind,
                                       note.slug, note.body, "", note.toUser, row.at));
  }

  /** Any other row is malformed. */
  lemma {:induction false} NothingIsRead(row: Row, ctx: Context)
    requires !HasV1(row) && !HasWorkspace(row) && (row.note.None? || row.note.value.mid == "")
    ensures ParseRow(row, ctx) == Err(Malformed)
  {
    assert RawOf(row, ctx) == None;
  }

  /**
   * The read-back check finds an id in a row's v1 envelope, its own or its data object's, in its note's
   * coordination, and in its mesh message, whose topic it takes without an ack's suffix.
   */
  lemma {:induction false} RowHasIff(row: Row, id: string, topic: Option<string>)
    ensures RowHas(row, id, topic) <==>
              || (row.fields.protocol == "connect-our-agents/1" && Told(row.fields, id, topic))
              || (row.fields.protocol != "connect-our-agents/1" && row.data.Some?
                  && row.data.value.protocol == "connect-our-agents/1" && Told(row.data.value, id, topic))
              || (row.note.Some? && row.note.value.coord.Some? && Told(row.note.value.coord.value, id, topic))
              || (row.note.Some? && row.note.value.mid == id != ""
                  && (topic.None? || topic.value == WithoutAck(row.note.value.slug)))
  {
    var v1 := if row.fields.protocol == V1_PROTOCOL then [(row.fields.messageId, row.fields.topic)]
              else if row.data.Some? && row.data.value.protocol == V1_PROTOCOL then
                [(row.data.value.messageId, row.data.value.topic)]
              else [];
    var ws := if row.note.Some? && row.note.value.coord.Some? then
                [(row.note.value.coord.value.messageId, row.note.value.coord.value.topic)]
              else [];
    var mesh := if row.note.Some? && row.note.value.mid != "" then
                  [(row.note.value.mid, WithoutAck(row.note.value.slug))]
                else [];
    assert Candidates(row) == v1 + ws + mesh;
    assert forall c :: c in v1 + ws + mesh <==> c in v1 || c in ws || c in mesh;
    if v1 != [] { assert v1[0] in v1; }
    if ws != [] { assert ws[0] in ws; }
    if mesh != [] { assert mesh[0] in mesh; }
  }

  predicate Told(e: Envelope, id: string, topic: Option<string>) {
    e.messageId == id && (topic.None? || topic.value == e.topic)
  }

  // ---- What else comes back --------------------------------------------------------------------------

  lemma TheOneNamed(to: string)
    ensures FirstNamed(if to == "" then [] else [to]) == if to in {"", "all", "*"} then "all" else to
  {
  }

  /**
   * Of a written message its reader also gets the time, the recipient, and, but for mesh, the message
   * it answers; a workspace reader takes it for its own exactly if it bears its name, and its partner
   * is then the recipient, otherwise the sender.
   */
  lemma {:induction false} EncodeComesBack(o: Outgoing, ctx: Context)
    requires o.id != "" && Addressed(o, ctx)
    ensures ParseRow(Encode(o), ctx).Ok?
    ensures var m := ParseRow(Encode(o), ctx).value;
            && m.at == o.sentAt && m.recipients == (if o.to == "" then [] else [o.to])
            && m.inReplyTo == (if o.wire == Mesh then "" else o.inReplyTo)
            && (ctx.mesh ==> m.direction == ctx.direction && m.contact == ctx.contact)
            && (!ctx.mesh && o.wire != Mesh ==>
                  var mine := ctx.agentName != "" && o.sender == ctx.agentName;
                  && (m.direction == Out <==> mine)
                  && m.contact == (if mine then (if o.to in {"", "all", "*"} then "all" else o.to)
                                   else if o.sender != "" then o.sender else "unknown"))
  {
    hide SplitFrom, WithMarkers, EndsWith;
    DeliveredIffAddressed(o, ctx);
    RawRoundTrip(o, ctx);
    TheOneNamed(o.to);
    assert V1_PROTOCOL != "" && NO_ENVELOPE.protocol == "";
  }

  // ---- Spellings of a state ---------------------------------------------------------------------------

  predicate Gap(c: char) {
    c == '_' || White(c)
  }

  predicate Gaps(s: string) {
    forall c | c in s :: Gap(c)
  }

  /** `s` spells `v`: its letters in either case, and a run of underscores and white space for a dash. */
  ghost predicate Spells(s: string, v: string)
    decreases |v|
  {
    if v == "" then s == ""
    else
      || (exists k :: IsGapAt(s, k) && v[0] == '-' && Spells(s[k..], v[1..]))
      || (s != "" && !Gap(s[0]) && SameLetter(s[0], v[0]) && Spells(s[1..], v[1..]))
  }

  /** The first `k` characters are a whole run. */
  predicate IsGapAt(s: string, k: int) {
    0 < k <= |s| && Gaps(s[..k]) && (k < |s| ==> !Gap(s[k]))
  }

  predicate SameLetter(c: char, d: char) {
    || (c == d && !('A' <= c <= 'Z') && c != '\U{212a}')
    || ('A' <= c <= 'Z' && 'a' <= d <= 'z' && d as int - 'a' as int == c as int - 'A' as int)
    || (c == '\U{212a}' && d == 'k')
  }

  lemma {:induction false} LowerKeepsGaps(s: string)
    ensures |Lower(s)| == |s| && forall i | 0 <= i < |s| :: Gap(Lower(s)[i]) == Gap(s[i])
  {
    if s != "" {
      LowerKeepsGaps(s[1..]);
      assert forall i | 0 < i < |s| :: s[i] == s[1..][i - 1] && Lower(s)[i] == Lower(s[1..])[i - 1];
    }
  }

  /** One more character in front of a run, or a run of one. */
  lemma {:induction false} DashedGap(s: string)
    requires s != "" && Gap(s[0])
    ensures Dashed(Lower(s)) == (if |s| > 1 && Gap(s[1]) then "" else "-") + Dashed(Lower(s[1..]))
  {
    LowerKeepsGaps(s);
    assert Lower(s)[1..] == Lower(s[1..]);
  }

  lemma {:induction false} RunGrows(s: string, n: nat)
    requires s != "" && Gap(s[0]) && IsGapAt(s[1..], n)
    ensures IsGapAt(s, n + 1) && s[1..][n..] == s[n + 1..]
  {
    hide White;
    assert s[..n + 1] == [s[0]] + s[1..][..n];
  }

  lemma {:induction false} RunOfOne(s: string)
    requires s != "" && Gap(s[0]) && (|s| > 1 ==> !Gap(s[1]))
    ensures IsGapAt(s, 1)
  {
    hide White;
    assert s[..1] == [s[0]];
  }

  /** A run at the front becomes one dash. */
  lemma {:induction false} DashedRun(s: string) returns (k: nat)
    requires s != "" && Gap(s[0])
    ensures IsGapAt(s, k) && k <= |s| && Dashed(Lower(s)) == "-" + Dashed(Lower(s[k..]))
  {
    hide Gap, IsGapAt, Dashed, Lower;
    DashedGap(s);
    if |s| > 1 && Gap(s[1]) {
      var n := DashedRun(s[1..]);
      RunGrows(s, n);
      k := n + 1;
    } else {
      RunOfOne(s);
      k := 1;
    }
  }

  lemma {:induction false} RunIs(s: string, k: int)
    requires IsGapAt(s, k)
    ensures 0 < k <= |s| && (forall j | 0 <= j < k :: Gap(s[j])) && (k < |s| ==> !Gap(s[k]))
  {
    forall j | 0 <= j < k ensures Gap(s[j]) { assert s[..k][j] == s[j] && s[j] in s[..k]; }
  }

  lemma {:induction false} OneRun(s: string, k: int, n: int)
    requires IsGapAt(s, k) && IsGapAt(s, n)
    ensures k == n
  {
    RunIs(s, k);
    RunIs(s, n);
  }

  /** Where a run starts, only that run can spell the next character, and only a dash. */
  lemma {:induction false} SpellsRun(s: string, v: string, k: nat)
    requires v != "" && s != "" && Gap(s[0]) && IsGapAt(s, k)
    ensures Spells(s, v) <==> v[0] == '-' && Spells(s[k..], v[1..])
  {
    hide White, IsGapAt, SameLetter;
    forall n | IsGapAt(s, n) ensures n == k { OneRun(s, n, k); }
  }

  lemma {:induction false} RunsStartWithGaps(s: string)
    requires s != ""
    ensures forall n :: IsGapAt(s, n) ==> Gap(s[0])
  {
    forall n | IsGapAt(s, n) ensures Gap(s[0]) { RunIs(s, n); }
  }

  /** Where a letter starts, only that letter can spell the next character. */
  lemma {:induction false} SpellsLetter(s: string, v: string)
    requires v != "" && s != "" && !Gap(s[0])
    ensures Spells(s, v) <==> SameLetter(s[0], v[0]) && Spells(s[1..], v[1..])
  {
    hide White, IsGapAt, SameLetter;
    RunsStartWithGaps(s);
  }

  lemma LetterIsLower(c: char, d: char)
    ensures SameLetter(c, d) <==> LowerOne(c) == d
  {
  }

  /** A letter at the front stays, in lower case. */
  lemma {:induction false} DashedLetter(s: string)
    requires s != "" && !Gap(s[0])
    ensures Dashed(Lower(s)) == [LowerOne(s[0])] + Dashed(Lower(s[1..]))
  {
    LowerKeepsGaps(s);
    assert Lower(s)[1..] == Lower(s[1..]);
  }

  lemma NothingSpells(v: string)
    ensures Dashed(Lower("")) == "" && (Spells("", v) <==> v == "")
  {
  }

  /** A value normalises to `v` exactly if, trimmed, it spells `v`. */
  lemma {:induction false} SpellsIff(s: string, v: string)
    ensures Dashed(Lower(s)) == v <==> Spells(s, v)
    decreases |s|
  {
    hide Gap, Gaps, IsGapAt, SameLetter, Dashed, Lower, Spells;
    if s == "" {
      NothingSpells(v);
    } else if v == "" {
      EmptySpells(s);
    } else if Gap(s[0]) {
      var k := DashedRun(s);
      GapLength(s, k);
      SpellsIff(s[k..], v[1..]);
      SpellsRun(s, v, k);
      assert v == [v[0]] + v[1..];
    } else {
      DashedLetter(s);
      SpellsIff(s[1..], v[1..]);
      SpellsLetter(s, v);
      LetterIsLower(s[0], v[0]);
      assert v == [v[0]] + v[1..];
    }
  }

  lemma GapLength(s: string, k: int)
    requires IsGapAt(s, k)
    ensures 0 < k <= |s|
  {
  }

  lemma {:induction false} EmptySpells(s: string)
    requires s != ""
    ensures Dashed(Lower(s)) != "" && !Spells(s, "")
  {
    if Gap(s[0]) { var k := DashedRun(s); } else { DashedLetter(s); }
  }

  /** A state marker is taken exactly if its value, trimmed, spells a state of the list. */
  lemma {:induction false} StateIsTaken(value: string, v: string)
    ensures NormState(value) == v <==> Spells(Trim(value), v)
  {
    SpellsIff(Trim(value), v);
  }
}
