/**
 * The message codec (packages/aicq-claude-mod/hooks/wire.ts): markers in a body, the three wire
 * formats, parsing a row back, and the read-back check. JSON text stands for the record it encodes;
 * a field that is absent, or no string, reads as "".
 */
module MessageCodec {
  import opened Wrappers

  // ---- Markers ----------------------------------------------------------------------------------

  const STATES := {"waiting", "working", "decision-needed", "prepared-for-approval", "completed",
                   "paused", "unable", "needs-reply", "fyi"}

  const STATE_TAG := "[state:"
  const PURPOSE_TAG := "[purpose:"

  /** What `trim` and `\s` take for white space; `strip` of the Apple Notes modules takes other characters. */
  predicate White(c: char) {
    || '\t' <= c <= '\r' || c == ' ' || c == '\U{a0}' || c == '\U{1680}'
    || '\U{2000}' <= c <= '\U{200a}' || '\U{2028}' <= c <= '\U{2029}'
    || c == '\U{202f}' || c == '\U{205f}' || c == '\U{3000}' || c == '\U{feff}'
  }

  function TrimStart(s: string): string {
    if s != "" && White(s[0]) then TrimStart(s[1..]) else s
  }

  function TrimEnd(s: string): string {
    if s != "" && White(s[|s| - 1]) then TrimEnd(s[..|s| - 1]) else s
  }

  function Trim(s: string): string {
    TrimEnd(TrimStart(s))
  }

  /** `[^\]\n]*` at the front of `s`. */
  function TagValue(s: string): (v: string)
    ensures |v| <= |s|
  {
    if s == "" || s[0] == ']' || s[0] == '\n' then "" else [s[0]] + TagValue(s[1..])
  }

  datatype Marker = Marker(isState: bool, value: string, rest: string)

  /** What follows a tag: its value, `]`, and all white space after it. */
  function AfterTag(isState: bool, s: string): Option<Marker> {
    var v := TagValue(s);
    if |v| < |s| && s[|v|] == ']' then Some(Marker(isState, v, TrimStart(s[|v| + 1..]))) else None
  }

  /** `/^\[(state|purpose):([^\]\n]*)\]\s*\n?/`. */
  function MarkerAt(text: string): Option<Marker> {
    if STATE_TAG <= text then AfterTag(true, text[|STATE_TAG|..])
    else if PURPOSE_TAG <= text then AfterTag(false, text[|PURPOSE_TAG|..])
    else None
  }

  /** The letters a state can come from; `\U{212a}`, the Kelvin sign, has a `k` for its lower case. */
  function LowerOne(c: char): char {
    if 'A' <= c <= 'Z' then (c as int + 32) as char else if c == '\U{212a}' then 'k' else c
  }

  function Lower(s: string): string {
    if s == "" then "" else [LowerOne(s[0])] + Lower(s[1..])
  }

  /** `.replace(/[_\s]+/g, '-')`, a run at a time. */
  function Dashed(s: string): string {
    if s == "" then ""
    else if s[0] == '_' || White(s[0]) then
      (if |s| > 1 && (s[1] == '_' || White(s[1])) then "" else "-") + Dashed(s[1..])
    else [s[0]] + Dashed(s[1..])
  }

  function NormState(value: string): string {
    Dashed(Lower(Trim(value)))
  }

  datatype Split = Split(body: string, state: Option<string>, purpose: Option<string>)

  function Marked(s: Split, m: Marker): Split {
    if m.isState then
      Split(m.rest, if NormState(m.value) in STATES then Some(NormState(m.value)) else s.state, s.purpose)
    else Split(m.rest, s.state, Some(Trim(m.value)))
  }

  function SplitFrom(s: Split, n: nat): Split
    decreases n
  {
    if n == 0 then s
    else match MarkerAt(s.body) case None => s case Some(m) => SplitFrom(Marked(s, m), n - 1)
  }

  /** `splitMarkers`. */
  method SplitMarkers(body: string) returns (s: Split)
    ensures s == SplitFrom(Split(body, None, None), 2)
  {
    hide White, Trim, MarkerAt, NormState;
    var rest := body;
    var state: Option<string>, purpose: Option<string> := None, None;
    for i := 0 to 2
      invariant SplitFrom(Split(rest, state, purpose), 2 - i) == SplitFrom(Split(body, None, None), 2)
    {
      var m := MarkerAt(rest);
      if m.None? { return Split(rest, state, purpose); }
      if m.value.isState {
        var norm := NormState(m.value.value);
        if norm in STATES { state := Some(norm); }
      } else {
        purpose := Some(Trim(m.value.value));
      }
      rest := m.value.rest;
    }
    s := Split(rest, state, purpose);
  }

  function StateLine(state: Option<string>): string {
    match state case Some(v) => if v != "" then STATE_TAG + v + "]\n" else "" case None => ""
  }

  function PurposeLine(purpose: Option<string>): string {
    match purpose case Some(v) => if v != "" then PURPOSE_TAG + v + "]\n" else "" case None => ""
  }

  /** `withMarkers`. */
  function WithMarkers(body: string, state: Option<string>, purpose: Option<string>): string {
    StateLine(state) + PurposeLine(purpose) + body
  }

  predicate PlainValue(v: string) {
    v != "" && Trim(v) == v && ']' !in v && '\n' !in v
  }

  /** A state of the list, or none; a trimmed purpose without `]` or line end, or none. */
  predicate GoodMarkers(state: Option<string>, purpose: Option<string>) {
    (state.Some? ==> state.value in STATES) && (purpose.Some? ==> PlainValue(purpose.value))
  }

  predicate StartsBlank(text: string) {
    text != "" && White(text[0])
  }

  /** What a body must not look like for its markers to come off cleanly: the more markers, the less matters. */
  predicate CleanBody(body: string, state: Option<string>, purpose: Option<string>) {
    && (state.Some? || purpose.Some? ==> !StartsBlank(body))
    && (state.None? || purpose.None? ==> MarkerAt(body).None?)
  }

  lemma {:induction false} TagValueStops(v: string, rest: string)
    requires ']' !in v && '\n' !in v
    ensures TagValue(v + "]" + rest) == v
  {
    if v != "" {
      TagValueStops(v[1..], rest);
      assert (v + "]" + rest)[1..] == v[1..] + "]" + rest;
      assert v == [v[0]] + v[1..] && v[0] in v;
    }
  }

  lemma {:induction false} TrimShortens(s: string)
    ensures |TrimStart(s)| <= |s| && !StartsBlank(TrimStart(s)) && (StartsBlank(s) ==> |TrimStart(s)| < |s|)
            && (!StartsBlank(s) ==> TrimStart(s) == s)
  {
    if StartsBlank(s) { TrimShortens(s[1..]); }
  }

  lemma {:induction false} MarkerShortens(text: string)
    requires MarkerAt(text).Some?
    ensures |MarkerAt(text).value.rest| < |text| && !StartsBlank(MarkerAt(text).value.rest)
  {
    var tag := if STATE_TAG <= text then STATE_TAG else PURPOSE_TAG;
    var s := text[|tag|..];
    TrimShortens(s[|TagValue(s)| + 1..]);
  }

  lemma {:induction false} SplitShortens(s: Split, n: nat)
    ensures |SplitFrom(s, n).body| <= |s.body|
    ensures n > 0 && MarkerAt(s.body).Some? ==> |SplitFrom(s, n).body| < |s.body|
    decreases n
  {
    if n > 0 && MarkerAt(s.body).Some? {
      MarkerShortens(s.body);
      SplitShortens(Marked(s, MarkerAt(s.body).value), n - 1);
    }
  }

  lemma {:induction false} TaggedLine(tag: string, isState: bool, v: string, tail: string)
    requires ']' !in v && '\n' !in v
    ensures AfterTag(isState, v + "]\n" + tail) == Some(Marker(isState, v, TrimStart(tail)))
  {
    var s := v + "]\n" + tail;
    assert s == v + "]" + ("\n" + tail);
    TagValueStops(v, "\n" + tail);
    assert s[|v| + 1..] == "\n" + tail && ("\n" + tail)[1..] == tail;
  }

  lemma {:induction false} StateLineAt(v: string, tail: string)
    requires v != "" && ']' !in v && '\n' !in v
    ensures MarkerAt(StateLine(Some(v)) + tail) == Some(Marker(true, v, TrimStart(tail)))
  {
    var text := StateLine(Some(v)) + tail;
    assert text == STATE_TAG + (v + "]\n" + tail);
    assert text[|STATE_TAG|..] == v + "]\n" + tail;
    TaggedLine(STATE_TAG, true, v, tail);
  }

  lemma {:induction false} PurposeLineAt(v: string, tail: string)
    requires v != "" && ']' !in v && '\n' !in v
    ensures MarkerAt(PurposeLine(Some(v)) + tail) == Some(Marker(false, v, TrimStart(tail)))
    ensures !StartsBlank(PurposeLine(Some(v)) + tail)
  {
    var text := PurposeLine(Some(v)) + tail;
    assert text == PURPOSE_TAG + (v + "]\n" + tail);
    assert text[|PURPOSE_TAG|..] == v + "]\n" + tail;
    assert text[1] == 'p' && STATE_TAG[1] == 's';
    TaggedLine(PURPOSE_TAG, false, v, tail);
  }

  predicate Dashes(s: string) {
    forall i | 0 <= i < |s| :: 'a' <= s[i] <= 'z' || s[i] == '-'
  }

  lemma {:induction false} LowerDashes(s: string)
    requires Dashes(s)
    ensures Lower(s) == s && Dashed(s) == s
  {
    if s != "" {
      assert Dashes(s[1..]) by { assert forall i | 0 <= i < |s| - 1 :: s[1..][i] == s[i + 1]; }
      LowerDashes(s[1..]);
    }
  }

  lemma {:induction false} StatesAreNormal(v: string)
    requires v in STATES
    ensures Dashes(v) && v != "" && NormState(v) == v && ']' !in v && '\n' !in v
  {
    hide STATES;
    StatesAreDashes(v);
    DashesAreNormal(v);
  }

  lemma {:induction false} DashesAreNormal(v: string)
    requires Dashes(v)
    ensures NormState(v) == v && ']' !in v && '\n' !in v
  {
    LowerDashes(v);
  }

  lemma StatesAreDashes(v: string)
    requires v in STATES
    ensures Dashes(v) && v != ""
  {
  }

  lemma {:induction false} OneMarker(text: string, n: nat, isState: bool, v: string, body: string)
    requires n > 0 && MarkerAt(text) == Some(Marker(isState, v, TrimStart(body)))
    requires if isState then v in STATES else PlainValue(v)
    ensures forall s: Split :: s.body == text ==>
              SplitFrom(s, n)
                == SplitFrom(Split(TrimStart(body), if isState then Some(v) else s.state,
                                   if isState then s.purpose else Some(v)), n - 1)
  {
    if isState { StatesAreNormal(v); }
  }

  /** The last marker comes off cleanly exactly from a body that does not start with white space. */
  lemma {:induction false} LastMarker(body: string, state: Option<string>, purpose: Option<string>, n: nat)
    ensures SplitFrom(Split(TrimStart(body), state, purpose), n) == Split(body, state, purpose) <==>
            !StartsBlank(body) && (n > 0 ==> MarkerAt(body).None?)
  {
    TrimShortens(body);
    SplitShortens(Split(TrimStart(body), state, purpose), n);
  }

  lemma {:induction false} BothMarkers(body: string, state: string, purpose: string)
    requires state in STATES && PlainValue(purpose)
    ensures SplitFrom(Split(WithMarkers(body, Some(state), Some(purpose)), None, None), 2)
              == Split(body, Some(state), Some(purpose)) <==>
            !StartsBlank(body)
  {
    hide MarkerAt, PurposeLine, StateLine, SplitFrom, STATES, White, TrimStart;
    var tail := PurposeLine(Some(purpose)) + body;
    assert WithMarkers(body, Some(state), Some(purpose)) == StateLine(Some(state)) + tail;
    StatesAreNormal(state);
    StateLineAt(state, tail);
    OneMarker(StateLine(Some(state)) + tail, 2, true, state, tail);
    PurposeLineAt(purpose, body);
    TrimShortens(tail);
    OneMarker(tail, 1, false, purpose, body);
    LastMarker(body, Some(state), Some(purpose), 0);
  }

  lemma {:induction false} StateOnly(body: string, state: string)
    requires state in STATES
    ensures SplitFrom(Split(WithMarkers(body, Some(state), None), None, None), 2) == Split(body, Some(state), None) <==>
            !StartsBlank(body) && MarkerAt(body).None?
  {
    hide MarkerAt, StateLine, SplitFrom, STATES;
    assert WithMarkers(body, Some(state), None) == StateLine(Some(state)) + body by { assert PurposeLine(None) == ""; }
    StatesAreNormal(state);
    StateLineAt(state, body);
    OneMarker(StateLine(Some(state)) + body, 2, true, state, body);
    LastMarker(body, Some(state), None, 1);
  }

  lemma {:induction false} PurposeOnly(body: string, purpose: string)
    requires PlainValue(purpose)
    ensures SplitFrom(Split(WithMarkers(body, None, Some(purpose)), None, None), 2)
            == Split(body, None, Some(purpose)) <==>
            !StartsBlank(body) && MarkerAt(body).None?
  {
    hide MarkerAt, PurposeLine, SplitFrom;
    assert WithMarkers(body, None, Some(purpose)) == PurposeLine(Some(purpose)) + body by {
      assert StateLine(None) == "";
    }
    PurposeLineAt(purpose, body);
    OneMarker(PurposeLine(Some(purpose)) + body, 2, false, purpose, body);
    LastMarker(body, None, Some(purpose), 1);
  }

  /** Splitting what `withMarkers` wrote gives everything back exactly for a clean body. */
  lemma {:induction false} MarkersRoundTrip(body: string, state: Option<string>, purpose: Option<string>)
    requires GoodMarkers(state, purpose)
    ensures SplitFrom(Split(WithMarkers(body, state, purpose), None, None), 2) == Split(body, state, purpose) <==>
            CleanBody(body, state, purpose)
  {
    match (state, purpose) {
      case (Some(s), Some(p)) => BothMarkers(body, s, p);
      case (Some(s), None) => StateOnly(body, s);
      case (None, Some(p)) => PurposeOnly(body, p);
      case (None, None) =>
        assert WithMarkers(body, None, None) == body;
        SplitShortens(Split(body, None, None), 2);
    }
  }

  // ---- The three formats --------------------------------------------------------------------------

  const V1_PROTOCOL := "connect-our-agents/1"
  const WS_PROTOCOL := "fulcra.workspaces/1"

  /** The fields of a v1 or workspace envelope. */
  datatype Envelope = Envelope(
    protocol: string, messageId: string, sender: string, recipients: seq<string>, kind: string, topic: string,
    body: string, inReplyTo: string, sentAt: string)

  const NO_ENVELOPE := Envelope("", "", "", [], "", "", "", "", "")

  /** The JSON object in a record's note: perhaps itself a v1 envelope, a coordination, or a mesh message. */
  datatype Note = Note(fields: Envelope, coord: Option<Envelope>, mid: string, to: string, toUser: string, kind: string,
                       slug: string, body: string)

  /** A record: its own fields, its data object, its note, and its time. */
  datatype Row = Row(fields: Envelope, data: Option<Envelope>, note: Option<Note>, at: string)

  datatype Wire = V1 | Mesh | Workspace

  datatype Kind = Message | Reply | Ack

  /** `files` is the text that lists shared files in a mesh body, "" when there are none. */
  datatype Outgoing = Outgoing(
    id: string, wire: Wire, sender: string, to: string, toUser: string, kind: Kind, topic: string, body: string,
    inReplyTo: string, state: Option<string>, purpose: Option<string>, files: string, sentAt: string)

  function KindName(kind: Kind): string {
    match kind case Message => "message" case Reply => "reply" case Ack => "ack"
  }

  /** `encode`. */
  function Encode(o: Outgoing): Row {
    var body := WithMarkers(o.body, o.state, o.purpose);
    match o.wire
    case V1 =>
      Row(Envelope(V1_PROTOCOL, o.id, o.sender, [o.to], KindName(o.kind), o.topic, body, o.inReplyTo, ""), None, None,
          o.sentAt)
    case Workspace =>
      Row(NO_ENVELOPE, None,
          Some(Note(NO_ENVELOPE,
                    Some(Envelope(WS_PROTOCOL, o.id, o.sender, [o.to], KindName(o.kind), o.topic, body, o.inReplyTo,
                                  o.sentAt)),
                    "", "", "", "", "", "")), o.sentAt)
    case Mesh =>
      Row(NO_ENVELOPE, None,
          Some(Note(NO_ENVELOPE, None, o.id, o.to, o.toUser, if o.kind == Message then "directive" else "response",
                    if o.kind == Ack then o.topic + "-ack" else o.topic, body + o.files)), o.sentAt)
  }

  predicate EndsWith(s: string, suffix: string) {
    |suffix| <= |s| && s[|s| - |suffix|..] == suffix
  }

  function NormKind(kind: string, topic: string): string {
    if EndsWith(topic, "-ack") then "ack"
    else if EndsWith(topic, "-retracted") then "retraction"
    else if kind == "directive" || kind == "" then "message"
    else if kind == "response" then "reply"
    else kind
  }

  datatype Direction = In | Out

  /** The reader: `mesh` tells a mesh read from a workspace one. */
  datatype Context = Context(mesh: bool, direction: Direction, contact: string, me: string, agentName: string)

  datatype Incoming = Incoming(
    id: string, direction: Direction, contact: string, recipients: seq<string>, kind: string, topic: string,
    body: string,
    at: string, inReplyTo: string, state: Option<string>, purpose: Option<string>)

  datatype Skip = Malformed | NotForMe | Presence

  /** The fields `parseRow` collects before it judges them. */
  datatype Raw = Raw(id: string, sender: string, recipients: seq<string>, kind: string, topic: string, body: string,
                     inReplyTo: string, toUser: string, at: string)

  function V1Of(row: Row): Option<Envelope> {
    if row.fields.protocol == V1_PROTOCOL then Some(row.fields)
    else if row.data.Some? && row.data.value.protocol == V1_PROTOCOL then Some(row.data.value)
    else if row.note.Some? && row.note.value.fields.protocol == V1_PROTOCOL then Some(row.note.value.fields)
    else None
  }

  function NonEmpty(s: seq<string>): seq<string> {
    if s == [] then [] else (if s[0] == "" then [] else [s[0]]) + NonEmpty(s[1..])
  }

  function RawOf(row: Row, ctx: Context): Option<Raw> {
    var v1 := V1Of(row);
    if v1.Some? then
      var e := v1.value;
      Some(Raw(e.messageId, e.sender, NonEmpty(e.recipients), e.kind, e.topic, e.body, e.inReplyTo, "", row.at))
    else if row.note.None? then None
    else
      var note := row.note.value;
      if note.coord.Some? && note.coord.value.protocol == WS_PROTOCOL then
        var e := note.coord.value;
        Some(Raw(e.messageId, e.sender, NonEmpty(e.recipients), e.kind, e.topic, e.body, e.inReplyTo, "",
                 if e.sentAt != "" then e.sentAt else row.at))
      else if note.mid != "" then
        Some(Raw(note.mid, if ctx.direction == Out then "me" else ctx.contact, if note.to != "" then [note.to] else [],
                 note.kind, note.slug, note.body, "", note.toUser, row.at))
      else None
  }

  predicate Everyone(recipient: string) {
    recipient == "all" || recipient == "*"
  }

  function FirstNamed(recipients: seq<string>): string {
    if recipients == [] then "all" else if Everyone(recipients[0]) then FirstNamed(recipients[1..]) else recipients[0]
  }

  predicate Mine(ctx: Context, sender: string) {
    ctx.agentName != "" && sender == ctx.agentName
  }

  predicate ForMe(ctx: Context, recipients: seq<string>) {
    ctx.agentName == "" || recipients == [] || exists r | r in recipients :: r == ctx.agentName || Everyone(r)
  }

  /** `parseRow`. */
  function ParseRow(row: Row, ctx: Context): Result<Incoming, Skip> {
    match RawOf(row, ctx)
    case None => Err(Malformed)
    case Some(raw) =>
      if raw.id == "" then Err(Malformed)
      else if raw.kind == "heartbeat" then Err(Presence)
      else if !ctx.mesh && !Mine(ctx, raw.sender) && !ForMe(ctx, raw.recipients) then Err(NotForMe)
      else if ctx.mesh && ctx.direction == In && raw.toUser != "" && raw.toUser != ctx.me then Err(NotForMe)
      else
        var split := SplitFrom(Split(raw.body, None, None), 2);
        var direction := if ctx.mesh then ctx.direction else if Mine(ctx, raw.sender) then Out else In;
        var contact := if ctx.mesh then ctx.contact
                       else if Mine(ctx, raw.sender) then FirstNamed(raw.recipients)
                       else if raw.sender != "" then raw.sender else "unknown";
        Ok(Incoming(raw.id, direction, contact, raw.recipients, NormKind(raw.kind, raw.topic), raw.topic, split.body,
                    raw.at, raw.inReplyTo, split.state, split.purpose))
  }

  // ---- Round trips ----------------------------------------------------------------------------------

  predicate GoodTopic(topic: string) {
    !EndsWith(topic, "-ack") && !EndsWith(topic, "-retracted")
  }

  /** What the encoded body carries after its markers. */
  function CarriedBody(o: Outgoing): string {
    if o.wire == Mesh then o.body + o.files else o.body
  }

  /** The reader the message is meant for. */
  predicate Addressed(o: Outgoing, ctx: Context) {
    if ctx.mesh then ctx.direction == Out || o.wire != Mesh || o.toUser == "" || o.toUser == ctx.me
    else
      var sender := if o.wire == Mesh then (if ctx.direction == Out then "me" else ctx.contact) else o.sender;
      Mine(ctx, sender) || ctx.agentName == "" || o.to == "" || o.to == ctx.agentName || Everyone(o.to)
  }

  lemma {:induction false} AckTopic(topic: string)
    ensures EndsWith(topic + "-ack", "-ack")
  {
    assert (topic + "-ack")[|topic|..] == "-ack";
  }

  /** When the reader, who judges the topic first, takes a message for what it is. */
  predicate KeepsKind(o: Outgoing) {
    GoodTopic(o.topic) || (o.kind == Ack && (o.wire == Mesh || EndsWith(o.topic, "-ack")))
  }

  lemma {:induction false} KindRoundTrip(o: Outgoing, ctx: Context)
    requires RawOf(Encode(o), ctx).Some?
    ensures var raw := RawOf(Encode(o), ctx).value;
            (NormKind(raw.kind, raw.topic) == KindName(o.kind) <==> KeepsKind(o)) && raw.kind != "heartbeat"
  {
    AckTopic(o.topic);
  }

  lemma {:induction false} RawRoundTrip(o: Outgoing, ctx: Context)
    requires o.id != ""
    ensures RawOf(Encode(o), ctx).Some?
    ensures var raw := RawOf(Encode(o), ctx).value;
            && raw.id == o.id && raw.recipients == (if o.to == "" then [] else [o.to])
            && raw.body == WithMarkers(CarriedBody(o), o.state, o.purpose)
            && (o.wire != Mesh ==> raw.topic == o.topic && raw.inReplyTo == o.inReplyTo && raw.sender == o.sender)
            && raw.toUser == (if o.wire == Mesh then o.toUser else "")
  {
    hide StateLine, PurposeLine;
    assert V1_PROTOCOL != "" && NO_ENVELOPE.protocol == "";
    assert NonEmpty([o.to]) == (if o.to == "" then [] else [o.to]);
    if o.wire == Mesh {
      assert WithMarkers(o.body, o.state, o.purpose) + o.files == WithMarkers(o.body + o.files, o.state, o.purpose);
    }
  }

  /** Whoever a message is addressed to, and nobody else, gets it from the row it was written to. */
  lemma {:induction false} DeliveredIffAddressed(o: Outgoing, ctx: Context)
    requires o.id != ""
    ensures ParseRow(Encode(o), ctx).Ok? <==> Addressed(o, ctx)
    ensures ParseRow(Encode(o), ctx).Err? ==> ParseRow(Encode(o), ctx).error == NotForMe
  {
    RawRoundTrip(o, ctx);
    KindRoundTrip(o, ctx);
    var raw := RawOf(Encode(o), ctx).value;
    if o.to != "" { assert raw.recipients[0] == o.to && o.to in raw.recipients; }
  }

  /**
   * Parsing what `encode` wrote, on each of the three wires: id always; kind exactly if the topic does
   * not say otherwise; topic, except that a mesh ack's carries its suffix; markers and body exactly if
   * the carried body is clean.
   */
  lemma {:induction false} EncodeRoundTrip(o: Outgoing, ctx: Context)
    requires o.id != "" && GoodMarkers(o.state, o.purpose) && Addressed(o, ctx)
    ensures ParseRow(Encode(o), ctx).Ok?
    ensures var m := ParseRow(Encode(o), ctx).value;
            && m.id == o.id && (m.kind == KindName(o.kind) <==> KeepsKind(o))
            && m.topic == (if o.wire == Mesh && o.kind == Ack then o.topic + "-ack" else o.topic)
            && (m.state == o.state && m.purpose == o.purpose && m.body == CarriedBody(o) <==>
                  CleanBody(CarriedBody(o), o.state, o.purpose))
  {
    RawRoundTrip(o, ctx);
    KindRoundTrip(o, ctx);
    DeliveredIffAddressed(o, ctx);
    MarkersRoundTrip(CarriedBody(o), o.state, o.purpose);
  }

  /** The body itself comes back when mesh carries no file list, and only then. */
  lemma {:induction false} BodyRoundTrip(o: Outgoing, ctx: Context)
    requires o.id != "" && GoodMarkers(o.state, o.purpose) && Addressed(o, ctx)
    requires CleanBody(CarriedBody(o), o.state, o.purpose)
    ensures ParseRow(Encode(o), ctx).Ok?
    ensures ParseRow(Encode(o), ctx).value.body == o.body <==> o.wire != Mesh || o.files == ""
  {
    EncodeRoundTrip(o, ctx);
    if o.wire == Mesh { assert |CarriedBody(o)| == |o.body| + |o.files|; }
  }

  // ---- Read-back --------------------------------------------------------------------------------------

  function WithoutAck(slug: string): string {
    if EndsWith(slug, "-ack") then slug[..|slug| - 4] else slug
  }

  /** The ids and topics a decoded record carries. */
  function Candidates(row: Row): seq<(string, string)> {
    (if row.fields.protocol == V1_PROTOCOL then [(row.fields.messageId, row.fields.topic)]
     else if row.data.Some? && row.data.value.protocol == V1_PROTOCOL then
       [(row.data.value.messageId, row.data.value.topic)]
     else [])
    + (if row.note.Some? && row.note.value.coord.Some? then
         [(row.note.value.coord.value.messageId, row.note.value.coord.value.topic)]
       else [])
    + (if row.note.Some? && row.note.value.mid != "" then
         [(row.note.value.mid, WithoutAck(row.note.value.slug))]
       else [])
  }

  predicate Matches(c: (string, string), id: string, topic: Option<string>) {
    c.0 == id && (topic.None? || c.1 == topic.value)
  }

  /** `readbackHas`. */
  method ReadbackHas(rows: seq<Row>, id: string, topic: Option<string>) returns (has: bool)
    ensures has == exists i | 0 <= i < |rows| :: RowHas(rows[i], id, topic)
  {
    for i := 0 to |rows|
      invariant forall k | 0 <= k < i :: !RowHas(rows[k], id, topic)
    {
      if RowHas(rows[i], id, topic) { return true; }
    }
    has := false;
  }

  predicate RowHas(row: Row, id: string, topic: Option<string>) {
    exists c | c in Candidates(row) :: Matches(c, id, topic)
  }

  /** The topic a written message reads back under: on mesh, what looks like an ack's suffix is cut. */
  function ReadbackTopic(o: Outgoing): string {
    if o.wire == Mesh && o.kind != Ack then WithoutAck(o.topic) else o.topic
  }

  /** What was written reads back under its own id and one topic, and under no other. */
  lemma {:induction false} ReadbackIsExact(o: Outgoing, id: string, topic: Option<string>)
    requires o.id != ""
    ensures RowHas(Encode(o), id, topic) <==> id == o.id && (topic.None? || topic.value == ReadbackTopic(o))
  {
    hide StateLine, PurposeLine;
    assert V1_PROTOCOL != "" && NO_ENVELOPE.protocol == "";
    AckTopic(o.topic);
    assert WithoutAck(o.topic + "-ack") == o.topic;
    assert Candidates(Encode(o)) == [(o.id, ReadbackTopic(o))];
    assert (o.id, ReadbackTopic(o)) in Candidates(Encode(o));
  }

  /** The check `send` makes fails exactly for a mesh message or reply whose own topic ends like an ack's. */
  lemma {:induction false} OwnReadbackIff(o: Outgoing)
    requires o.id != ""
    ensures RowHas(Encode(o), o.id, Some(o.topic)) <==> o.wire != Mesh || o.kind == Ack || !EndsWith(o.topic, "-ack")
  {
    ReadbackIsExact(o, o.id, Some(o.topic));
  }
}
