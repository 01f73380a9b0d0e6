/**
 * The arrival ledger (packages/aicq-claude-mod/hooks/wire.ts, `advance` and `windowStart`;
 * register.tsx, `poll`): what a session shows, and what it notifies of. Times are milliseconds.
 */
module Arrivals {
  import opened Wrappers
  import opened Picking

  const SEEN_CAP := 800
  const OVERLAP_MS := 600_000

  /** A message as read; an undated one has no time. */
  datatype Message = Message(id: string, at: Option<int>, inbound: bool)

  datatype Cursor = Cursor(at: Option<int>, seen: seq<string>)

  const EMPTY_CURSOR := Cursor(None, [])

  // ---- Advancing a cursor -----------------------------------------------------------------------

  /** `[...new Set(s)]`: first occurrences, in order. */
  function Dedupe(s: seq<string>): seq<string>
    decreases |s|
  {
    if s == [] then []
    else Dedupe(s[..|s| - 1]) + if s[|s| - 1] in s[..|s| - 1] then [] else [s[|s| - 1]]
  }

  /** `s.slice(-n)`. */
  function LastOf(s: seq<string>, n: nat): seq<string> {
    if |s| <= n then s else s[|s| - n..]
  }

  function Later(at: Option<int>, next: Option<int>): Option<int> {
    match (at, next)
    case (None, _) => next
    case (_, None) => at
    case (Some(a), Some(b)) => if b > a then next else at
  }

  /** The messages of a batch that are new, in order. */
  function Fresh(seen: seq<string>, batch: seq<Message>): seq<Message>
    decreases |batch|
  {
    if batch == [] then []
    else
      var before := Fresh(seen, batch[..|batch| - 1]);
      var m := batch[|batch| - 1];
      before + if m.id in seen || m.id in Ids(before) then [] else [m]
  }

  function Ids(messages: seq<Message>): seq<string> {
    seq(|messages|, i requires 0 <= i < |messages| => messages[i].id)
  }

  function Latest(at: Option<int>, messages: seq<Message>): Option<int>
    decreases |messages|
  {
    if messages == [] then at else Later(Latest(at, messages[..|messages| - 1]), messages[|messages| - 1].at)
  }

  datatype Advanced = Advanced(novel: seq<Message>, cursor: Cursor)

  function AdvancedBy(cursor: Cursor, batch: seq<Message>): Advanced {
    var novel := Fresh(cursor.seen, batch);
    Advanced(novel, Cursor(Latest(cursor.at, novel), LastOf(Dedupe(cursor.seen) + Ids(novel), SEEN_CAP)))
  }

  lemma {:induction false} DedupeKeeps(s: seq<string>, id: string)
    ensures id in Dedupe(s) <==> id in s
    decreases |s|
  {
    if s != [] { DedupeKeeps(s[..|s| - 1], id); }
  }

  /** One turn of the loop: the message is new exactly if its id is not in the set so far. */
  lemma {:induction false} AdvanceStep(cursor: Cursor, batch: seq<Message>, i: nat)
    requires i < |batch|
    ensures var before, after := Fresh(cursor.seen, batch[..i]), Fresh(cursor.seen, batch[..i + 1]);
            if batch[i].id in Dedupe(cursor.seen) + Ids(before) then after == before
            else && after == before + [batch[i]] && Ids(after) == Ids(before) + [batch[i].id]
                 && Latest(cursor.at, after) == Later(Latest(cursor.at, before), batch[i].at)
  {
    assert batch[..i + 1][..i] == batch[..i];
    DedupeKeeps(cursor.seen, batch[i].id);
    var before := Fresh(cursor.seen, batch[..i]);
    assert (before + [batch[i]])[..|before|] == before;
  }

  lemma NothingYet(cursor: Cursor)
    ensures Fresh(cursor.seen, []) == [] && Ids([]) == [] && Latest(cursor.at, []) == cursor.at
  {
  }

  /** `advance`. */
  method Advance(cursor: Cursor, batch: seq<Message>) returns (result: Advanced)
    ensures result == AdvancedBy(cursor, batch)
  {
    hide Fresh, Dedupe, Ids, Latest;
    var seen := Dedupe(cursor.seen);
    var novel: seq<Message>, at := [], cursor.at;
    NothingYet(cursor);
    assert batch[..0] == [] && batch[..|batch|] == batch;
    for i := 0 to |batch|
      invariant novel == Fresh(cursor.seen, batch[..i])
      invariant seen == Dedupe(cursor.seen) + Ids(novel)
      invariant at == Latest(cursor.at, novel)
    {
      var m := batch[i];
      AdvanceStep(cursor, batch, i);
      if m.id !in seen {
        seen := seen + [m.id];
        novel := novel + [m];
        if m.at.Some? && (at.None? || m.at.value > at.value) { at := m.at; }
      }
    }
    result := Advanced(novel, Cursor(at, LastOf(seen, SEEN_CAP)));
  }

  // ---- One read of one source ---------------------------------------------------------------------

  /**
   * What a read returned: messages, record ids that could not be read, and whether it was cut short;
   * `reset` when the view cursors were cleared before it, because the session now looks further back.
   */
  datatype Read = Read(now: int, messages: seq<Message>, malformed: seq<string>, incomplete: bool, lookbackMs: int,
                       reset: bool)

  /** The view cursor a read starts from. */
  function Opened(view: Cursor, r: Read): Cursor {
    if r.reset then EMPTY_CURSOR else view
  }

  function WindowStart(at: Option<int>, now: int, lookbackMs: int): int {
    match at case Some(t) => t - OVERLAP_MS case None => now - lookbackMs
  }

  /** One read serves both cursors: it starts at the earlier of the two. */
  function ReadFrom(view: Option<int>, ledger: Option<int>): Option<int> {
    match (view, ledger)
    case (Some(v), Some(l)) => if v < l then view else ledger
    case _ => None
  }

  function Widened(view: Cursor, before: Cursor, r: Read): bool {
    before.at.Some? && WindowStart(ReadFrom(view.at, before.at), r.now, r.lookbackMs) < before.at.value - OVERLAP_MS
  }

  /** The ledger only judges what its own window would have read. */
  predicate InLedgerWindow(before: Cursor, widened: bool, m: Message) {
    match before.at
    case None => true
    case Some(at) => (match m.at case Some(t) => t >= at - OVERLAP_MS case None => !widened)
  }

  function Judged(before: Cursor, widened: bool, messages: seq<Message>): seq<Message>
    decreases |messages|
  {
    if messages == [] then []
    else
      Judged(before, widened, messages[..|messages| - 1])
      + if InLedgerWindow(before, widened, messages[|messages| - 1]) then [messages[|messages| - 1]] else []
  }

  function BadKey(id: string): string {
    "bad:" + id
  }

  function NewBad(before: Cursor, malformed: seq<string>): seq<string>
    decreases |malformed|
  {
    if malformed == [] then []
    else
      var id := malformed[|malformed| - 1];
      NewBad(before, malformed[..|malformed| - 1]) + if BadKey(id) in before.seen then [] else [BadKey(id)]
  }

  function ViewAfter(view: Cursor, r: Read): Cursor {
    var shown := AdvancedBy(view, r.messages);
    if r.incomplete then Cursor(view.at, shown.cursor.seen) else shown.cursor
  }

  function LedgerFresh(view: Cursor, before: Cursor, r: Read): seq<Message> {
    Fresh(before.seen, Judged(before, Widened(view, before, r), r.messages))
  }

  /** Everything a read adds to the ledger's seen ids. */
  function Appended(view: Cursor, before: Cursor, r: Read): seq<string> {
    Ids(LedgerFresh(view, before, r)) + NewBad(before, r.malformed)
  }

  function LedgerAfter(view: Cursor, before: Cursor, r: Read): Cursor {
    var advanced := AdvancedBy(before, Judged(before, Widened(view, before, r), r.messages));
    var seen := LastOf(advanced.cursor.seen + NewBad(before, r.malformed), SEEN_CAP);
    if r.incomplete then Cursor(before.at, seen)
    else
      Cursor(if advanced.cursor.at.Some? then advanced.cursor.at else if before.at.None? then Some(r.now) else None,
             seen)
  }

  /** What is notified: novel inbound messages, not on a source's first read; `stale` is the ignore-after limit. */
  function Arrived(view: Cursor, before: Cursor, r: Read, stale: (Option<int>, int) -> bool): seq<Message> {
    if before.at.None? then [] else Notified(LedgerFresh(view, before, r), r.now, stale)
  }

  function Notified(novel: seq<Message>, now: int, stale: (Option<int>, int) -> bool): seq<Message>
    decreases |novel|
  {
    if novel == [] then []
    else
      var m := novel[|novel| - 1];
      Notified(novel[..|novel| - 1], now, stale) + if m.inbound && !stale(m.at, now) then [m] else []
  }

  method JudgeAll(before: Cursor, widened: bool, messages: seq<Message>) returns (judged: seq<Message>)
    ensures judged == Judged(before, widened, messages)
  {
    judged := [];
    for i := 0 to |messages|
      invariant judged == Judged(before, widened, messages[..i])
    {
      assert messages[..i + 1][..i] == messages[..i];
      if InLedgerWindow(before, widened, messages[i]) { judged := judged + [messages[i]]; }
    }
    assert messages[..|messages|] == messages;
  }

  method UnreadableAll(before: Cursor, malformed: seq<string>) returns (bad: seq<string>)
    ensures bad == NewBad(before, malformed)
  {
    bad := [];
    for i := 0 to |malformed|
      invariant bad == NewBad(before, malformed[..i])
    {
      assert malformed[..i + 1][..i] == malformed[..i];
      if BadKey(malformed[i]) !in before.seen { bad := bad + [BadKey(malformed[i])]; }
    }
    assert malformed[..|malformed|] == malformed;
  }

  /** The cursors of a session: the views are its own, the ledger is durable. */
  class Session {
    var views: map<string, Cursor>
    var ledger: map<string, Cursor>
    var coveredMs: int

    function View(source: string): Cursor
      reads this
    {
      if source in views then views[source] else EMPTY_CURSOR
    }

    function Ledger(source: string): Cursor
      reads this
    {
      if source in ledger then ledger[source] else EMPTY_CURSOR
    }

    constructor (stored: map<string, Cursor>)
      ensures views == map[] && ledger == stored && coveredMs == 0
    {
      views, ledger, coveredMs := map[], stored, 0;
    }

    /** The start of a poll: a wider lookback than this session has read starts every view cursor over. */
    method Widen(lookbackMs: int)
      modifies this
      ensures ledger == old(ledger)
      ensures coveredMs == if lookbackMs > old(coveredMs) then lookbackMs else old(coveredMs)
      ensures views == if 0 < old(coveredMs) < lookbackMs then map[] else old(views)
    {
      if lookbackMs > coveredMs {
        if coveredMs > 0 { views := map[]; }
        coveredMs := lookbackMs;
      }
    }

    /** The part of `poll` for one source whose read did not fail. */
    method Absorb(source: string, r: Read, stale: (Option<int>, int) -> bool)
      returns (shown: seq<Message>, arrived: seq<Message>)
      modifies this
      ensures shown == Fresh(old(View(source)).seen, r.messages)
      ensures arrived == Arrived(old(View(source)), old(Ledger(source)), r, stale)
      ensures views == old(views)[source := ViewAfter(old(View(source)), r)]
      ensures ledger == old(ledger)[source := LedgerAfter(old(View(source)), old(Ledger(source)), r)]
      ensures coveredMs == old(coveredMs)
    {
      hide Fresh, Dedupe, Judged, NewBad, Latest, LastOf, Widened, Ids, Notified;
      var view, before := View(source), Ledger(source);
      var display := Advance(view, r.messages);
      shown := display.novel;
      views := views[source := if r.incomplete then Cursor(view.at, display.cursor.seen) else display.cursor];
      var widened := Widened(view, before, r);
      var judged := JudgeAll(before, widened, r.messages);
      var advanced := Advance(before, judged);
      var bad := UnreadableAll(before, r.malformed);
      var seen := LastOf(advanced.cursor.seen + bad, SEEN_CAP);
      var at := if r.incomplete then before.at
                else if advanced.cursor.at.Some? then advanced.cursor.at
                else if before.at.None? then Some(r.now) else None;
      ledger := ledger[source := Cursor(at, seen)];
      arrived := if before.at.None? then [] else Notified(advanced.novel, r.now, stale);
    }
  }

  // ---- The ledger over a run of reads -----------------------------------------------------------

  /** Elements after the first occurrence of `id`. */
  function Behind(s: seq<string>, id: string): nat {
    if s == [] then 0 else if s[0] == id then |s| - 1 else Behind(s[1..], id)
  }

  lemma {:induction false} BehindAppend(s: seq<string>, more: seq<string>, id: string)
    requires id in s
    ensures Behind(s + more, id) == Behind(s, id) + |more|
  {
    if s[0] != id {
      BehindAppend(s[1..], more, id);
      assert (s + more)[1..] == s[1..] + more;
    }
  }

  lemma {:induction false} BehindLast(s: seq<string>, n: nat, id: string)
    requires id in s && Behind(s, id) < n
    ensures id in LastOf(s, n) && Behind(LastOf(s, n), id) == Behind(s, id)
  {
    if |s| > n {
      assert s[0] != id;
      BehindLast(s[1..], n, id);
      assert LastOf(s, n) == LastOf(s[1..], n) by { assert s[1..][|s| - 1 - n..] == s[|s| - n..]; }
      hide LastOf;
    }
  }

  lemma {:induction false} BehindDedupe(s: seq<string>, id: string)
    requires id in s
    ensures id in Dedupe(s) && Behind(Dedupe(s), id) <= Behind(s, id)
    decreases |s|
  {
    var init, last := s[..|s| - 1], s[|s| - 1];
    DedupeKeeps(s, id);
    assert s == init + [last];
    if id in init {
      BehindDedupe(init, id);
      BehindAppend(init, [last], id);
      if last !in init { BehindAppend(Dedupe(init), [last], id); }
      if last in init { assert Dedupe(init) + [] == Dedupe(init); }
    } else {
      BehindLastElement(init, last);
      DedupeKeeps(init, id);
      BehindLastElement(Dedupe(init), last);
    }
  }

  lemma {:induction false} BehindLastElement(init: seq<string>, last: string)
    requires last !in init
    ensures Behind(init + [last], last) == 0
  {
    if init != [] {
      assert (init + [last])[1..] == init[1..] + [last];
      BehindLastElement(init[1..], last);
    }
  }

  /** An id recorded in a read, or before it and not yet 800 ids deep, is in the ledger afterwards. */
  lemma {:induction false} RecordedStays(view: Cursor, before: Cursor, r: Read, id: string)
    requires id in before.seen && Behind(before.seen, id) + |Appended(view, before, r)| < SEEN_CAP
    ensures var after := LedgerAfter(view, before, r);
            id in after.seen && Behind(after.seen, id) <= Behind(before.seen, id) + |Appended(view, before, r)|
  {
    BehindDedupe(before.seen, id);
    AppendTwice(Dedupe(before.seen), Ids(LedgerFresh(view, before, r)), NewBad(before, r.malformed), id);
  }

  lemma {:induction false} AppendTwice(s: seq<string>, first: seq<string>, second: seq<string>, id: string)
    requires id in s && Behind(s, id) + |first| + |second| < SEEN_CAP
    ensures var seen := LastOf(LastOf(s + first, SEEN_CAP) + second, SEEN_CAP);
            id in seen && Behind(seen, id) == Behind(s, id) + |first| + |second|
  {
    BehindAppend(s, first, id);
    BehindLast(s + first, SEEN_CAP, id);
    BehindAppend(LastOf(s + first, SEEN_CAP), second, id);
    BehindLast(LastOf(s + first, SEEN_CAP) + second, SEEN_CAP, id);
  }

  /** The state of one source, with every id it ever recorded. */
  datatype Ledger = Ledger(view: Cursor, cursor: Cursor, log: seq<string>)

  function Step(l: Ledger, r: Read): Ledger {
    var view := Opened(l.view, r);
    Ledger(ViewAfter(view, r), LedgerAfter(view, l.cursor, r), l.log + Appended(view, l.cursor, r))
  }

  function After(l: Ledger, series: seq<Read>): Ledger
    decreases |series|
  {
    if series == [] then l else Step(After(l, series[..|series| - 1]), series[|series| - 1])
  }

  lemma {:induction false} LatestGrows(at: Option<int>, messages: seq<Message>)
    requires at.Some?
    ensures Latest(at, messages).Some? && Latest(at, messages).value >= at.value
    decreases |messages|
  {
    if messages != [] { LatestGrows(at, messages[..|messages| - 1]); }
  }

  /** The watermark never falls back. */
  lemma {:induction false} WatermarkGrows(l: Ledger, r: Read)
    requires l.cursor.at.Some?
    ensures Step(l, r).cursor.at.Some? && Step(l, r).cursor.at.value >= l.cursor.at.value
  {
    LatestGrows(l.cursor.at, LedgerFresh(Opened(l.view, r), l.cursor, r));
  }

  /** The watermark has passed a time by more than the overlap. */
  predicate Passed(cursor: Cursor, t: int) {
    cursor.at.Some? && cursor.at.value > t + OVERLAP_MS
  }

  /** A message comes with its own date. */
  predicate Dated(r: Read, id: string, t: int) {
    forall m | m in r.messages && m.id == id :: m.at == Some(t)
  }

  /** The proviso: from its place in the log on, fewer than 800 other ids while the watermark has not passed. */
  ghost predicate Remembered(start: Ledger, series: seq<Read>, place: int, t: int) {
    forall n | 0 <= n <= |series| :: RememberedAt(After(start, series[..n]), place, t)
  }

  predicate RememberedAt(l: Ledger, place: int, t: int) {
    Passed(l.cursor, t) || |l.log| - 1 - place < SEEN_CAP
  }

  lemma {:induction false} JudgedIsInWindow(before: Cursor, widened: bool, messages: seq<Message>, m: Message)
    requires m in Judged(before, widened, messages)
    ensures m in messages && InLedgerWindow(before, widened, m)
    decreases |messages|
  {
    var init := messages[..|messages| - 1];
    if m in Judged(before, widened, init) { JudgedIsInWindow(before, widened, init, m); }
  }

  lemma {:induction false} FreshIsNew(seen: seq<string>, batch: seq<Message>, m: Message)
    requires m in Fresh(seen, batch)
    ensures m in batch && m.id !in seen
    decreases |batch|
  {
    var init := batch[..|batch| - 1];
    if m in Fresh(seen, init) { FreshIsNew(seen, init, m); }
  }

  lemma {:induction false} NotifiedIsFresh(novel: seq<Message>, now: int, stale: (Option<int>, int) -> bool, m: Message)
    requires m in Notified(novel, now, stale)
    ensures m in novel && m.inbound
    decreases |novel|
  {
    var init := novel[..|novel| - 1];
    if m in Notified(init, now, stale) { NotifiedIsFresh(init, now, stale, m); }
  }

  /** A dated message that was recorded is not new again: it is remembered, or out of the ledger's window. */
  lemma {:induction false} NotFreshAgain(l: Ledger, r: Read, id: string, t: int)
    requires Passed(l.cursor, t) || id in l.cursor.seen
    requires Dated(r, id, t)
    ensures id !in Ids(LedgerFresh(Opened(l.view, r), l.cursor, r))
  {
    var novel := LedgerFresh(Opened(l.view, r), l.cursor, r);
    var judged := Judged(l.cursor, Widened(Opened(l.view, r), l.cursor, r), r.messages);
    forall k | 0 <= k < |novel| ensures novel[k].id != id {
      FreshIsNew(l.cursor.seen, judged, novel[k]);
      JudgedIsInWindow(l.cursor, Widened(Opened(l.view, r), l.cursor, r), r.messages, novel[k]);
    }
  }

  lemma {:induction false} IdOfMember(messages: seq<Message>, m: Message)
    requires m in messages
    ensures m.id in Ids(messages)
  {
    var k :| 0 <= k < |messages| && messages[k] == m;
    assert Ids(messages)[k] == m.id;
  }

  lemma {:induction false} BehindSkips(s: seq<string>, more: seq<string>, id: string)
    requires id !in s
    ensures Behind(s + more, id) == Behind(more, id)
  {
    if s == [] {
      assert s + more == more;
    } else {
      BehindSkips(s[1..], more, id);
      assert (s + more)[1..] == s[1..] + more;
    }
  }

  lemma {:induction false} BehindBound(s: seq<string>, id: string)
    requires id in s
    ensures Behind(s, id) < |s| && s[|s| - 1 - Behind(s, id)] == id
    ensures forall k | 0 <= k < |s| - 1 - Behind(s, id) :: s[k] != id
  {
    if s[0] != id {
      BehindBound(s[1..], id);
      forall k | 0 <= k < |s| - 1 - Behind(s, id) ensures s[k] != id {
        if k > 0 { assert s[k] == s[1..][k - 1]; }
      }
    }
  }

  /** How deep the id a read records lies once the read is absorbed. */
  lemma {:induction false} RecordedNow(view: Cursor, before: Cursor, r: Read, id: string)
    requires id in Ids(LedgerFresh(view, before, r)) && Behind(Appended(view, before, r), id) < SEEN_CAP
    ensures var after := LedgerAfter(view, before, r);
            id in after.seen && Behind(after.seen, id) == Behind(Appended(view, before, r), id)
  {
    var novel := LedgerFresh(view, before, r);
    var k :| 0 <= k < |novel| && novel[k].id == id;
    FreshIsNew(before.seen, Judged(before, Widened(view, before, r), r.messages), novel[k]);
    DedupeKeeps(before.seen, id);
    var s, first, second := Dedupe(before.seen), Ids(novel), NewBad(before, r.malformed);
    BehindSkips(s, first, id);
    BehindAppend(first, second, id);
    BehindLast(s + first, SEEN_CAP, id);
    BehindAppend(LastOf(s + first, SEEN_CAP), second, id);
    BehindLast(LastOf(s + first, SEEN_CAP) + second, SEEN_CAP, id);
  }

  /** Once recorded: the watermark has passed, or the id is in the ledger, no deeper than the log says. */
  ghost predicate Known(l: Ledger, place: int, id: string, t: int) {
    Passed(l.cursor, t) || (id in l.cursor.seen && Behind(l.cursor.seen, id) <= |l.log| - 1 - place)
  }

  lemma {:induction false} KnownStays(l: Ledger, r: Read, place: int, id: string, t: int)
    requires Known(l, place, id, t) && place < |l.log| && RememberedAt(Step(l, r), place, t)
    ensures Known(Step(l, r), place, id, t) && place < |Step(l, r).log|
  {
    if Passed(l.cursor, t) {
      WatermarkGrows(l, r);
    } else if !Passed(Step(l, r).cursor, t) {
      RecordedStays(Opened(l.view, r), l.cursor, r, id);
    }
  }

  lemma {:induction false} KnownThroughout(l: Ledger, series: seq<Read>, place: int, id: string, t: int)
    requires Known(l, place, id, t) && place < |l.log| && Remembered(l, series, place, t)
    ensures Known(After(l, series), place, id, t) && place < |After(l, series).log|
    decreases |series|
  {
    if series != [] {
      var init := series[..|series| - 1];
      forall n | 0 <= n <= |init| ensures RememberedAt(After(l, init[..n]), place, t) {
        assert init[..n] == series[..n];
      }
      KnownThroughout(l, init, place, id, t);
      assert series[..|series|] == series;
      assert RememberedAt(After(l, series), place, t);
      KnownStays(After(l, init), series[|series| - 1], place, id, t);
    }
  }

  /** The place in the log of an id a read just recorded. */
  function PlaceOf(l: Ledger, r: Read, id: string): int {
    |l.log| + |Appended(Opened(l.view, r), l.cursor, r)| - 1 - Behind(Appended(Opened(l.view, r), l.cursor, r), id)
  }

  /**
   * A dated message notifies at most once: after the read that records it, no later read -- complete,
   * incomplete or widened -- finds it new, provided fewer than 800 other ids are recorded behind it
   * before the watermark passes its time by more than the overlap.
   */
  lemma {:induction false} NotifiesOnce(l: Ledger, r: Read, more: seq<Read>, next: Read,
                                        stale: (Option<int>, int) -> bool, id: string, t: int)
    requires id in Ids(LedgerFresh(Opened(l.view, r), l.cursor, r)) && Dated(next, id, t)
    requires Remembered(Step(l, r), more, PlaceOf(l, r, id), t)
    ensures |l.log| <= PlaceOf(l, r, id) < |Step(l, r).log| && Step(l, r).log[PlaceOf(l, r, id)] == id
    ensures forall k | |l.log| <= k < PlaceOf(l, r, id) :: Step(l, r).log[k] != id
    ensures var later := After(Step(l, r), more);
            && id !in Ids(LedgerFresh(Opened(later.view, next), later.cursor, next))
            && id !in Ids(Arrived(Opened(later.view, next), later.cursor, next, stale))
  {
    var added, first := Appended(Opened(l.view, r), l.cursor, r), Step(l, r);
    BehindBound(added, id);
    var place := PlaceOf(l, r, id);
    assert RememberedAt(After(first, more[..0]), place, t);
    if !Passed(first.cursor, t) { RecordedNow(Opened(l.view, r), l.cursor, r, id); }
    KnownThroughout(first, more, place, id, t);
    var later := After(first, more);
    NotFreshAgain(later, next, id, t);
    var arrived := Arrived(Opened(later.view, next), later.cursor, next, stale);
    forall k | 0 <= k < |arrived| ensures arrived[k].id != id {
      NotifiedIsFresh(LedgerFresh(Opened(later.view, next), later.cursor, next), next.now, stale, arrived[k]);
      IdOfMember(LedgerFresh(Opened(later.view, next), later.cursor, next), arrived[k]);
    }
  }

  // ---- What is forgotten is found again -----------------------------------------------------------

  predicate NoRepeats(s: seq<string>) {
    forall i, j | 0 <= i < j < |s| :: s[i] != s[j]
  }

  /** A read that names no record twice. */
  predicate Plain(r: Read) {
    NoRepeats(r.malformed) && forall m, id | m in r.messages && id in r.malformed :: m.id != BadKey(id)
  }

  lemma {:induction false} JoinedIsDistinct(a: seq<string>, b: seq<string>)
    requires NoRepeats(a) && NoRepeats(b) && forall x | x in b :: x !in a
    ensures NoRepeats(a + b)
  {
    forall i, j | 0 <= i < j < |a + b| ensures (a + b)[i] != (a + b)[j] {
      if i < |a| <= j { assert b[j - |a|] in b; }
    }
  }

  lemma {:induction false} DedupeIsDistinct(s: seq<string>)
    ensures NoRepeats(Dedupe(s))
    decreases |s|
  {
    if s != [] {
      var init, last := s[..|s| - 1], s[|s| - 1];
      DedupeIsDistinct(init);
      DedupeKeeps(init, last);
      if last !in init { JoinedIsDistinct(Dedupe(init), [last]); } else { assert Dedupe(init) + [] == Dedupe(init); }
    }
  }

  lemma {:induction false} PrefixIsDistinct(s: seq<string>)
    requires NoRepeats(s) && s != []
    ensures NoRepeats(s[..|s| - 1]) && s[|s| - 1] !in s[..|s| - 1]
  {
    var init := s[..|s| - 1];
    assert forall i | 0 <= i < |init| :: init[i] == s[i];
  }

  lemma {:induction false} DedupeOfDistinct(s: seq<string>)
    requires NoRepeats(s)
    ensures Dedupe(s) == s
    decreases |s|
  {
    hide NoRepeats;
    if s != [] {
      PrefixIsDistinct(s);
      DedupeOfDistinct(s[..|s| - 1]);
      assert s == s[..|s| - 1] + [s[|s| - 1]];
    }
  }

  lemma {:induction false} NewBadIs(before: Cursor, malformed: seq<string>, key: string)
    requires key in NewBad(before, malformed)
    ensures key !in before.seen && exists id :: id in malformed && key == BadKey(id)
    decreases |malformed|
  {
    var init, last := malformed[..|malformed| - 1], malformed[|malformed| - 1];
    if key in NewBad(before, init) {
      NewBadIs(before, init, key);
      var id :| id in init && key == BadKey(id);
      assert id in malformed;
    } else {
      assert last in malformed && key == BadKey(last);
    }
  }

  lemma {:induction false} NewBadIsDistinct(before: Cursor, malformed: seq<string>)
    requires NoRepeats(malformed)
    ensures NoRepeats(NewBad(before, malformed))
    decreases |malformed|
  {
    if malformed != [] {
      var init, last := malformed[..|malformed| - 1], malformed[|malformed| - 1];
      NewBadIsDistinct(before, init);
      forall key | key in NewBad(before, init) ensures key != BadKey(last) {
        NewBadIs(before, init, key);
        var id :| id in init && key == BadKey(id);
        assert BadKey(id)[4..] == id && BadKey(last)[4..] == last;
      }
      JoinedIsDistinct(NewBad(before, init), [BadKey(last)]);
      assert NewBad(before, init) + [] == NewBad(before, init);
    }
  }

  /** What a plain read adds is new to the ledger, and names nothing twice. */
  lemma {:induction false} AppendedIsNew(view: Cursor, before: Cursor, r: Read)
    requires Plain(r)
    ensures NoRepeats(Appended(view, before, r)) && forall x | x in Appended(view, before, r) :: x !in before.seen
  {
    var judged := Judged(before, Widened(view, before, r), r.messages);
    var novel, bad := LedgerFresh(view, before, r), NewBad(before, r.malformed);
    FreshAreDistinct(before.seen, judged);
    NewBadIsDistinct(before, r.malformed);
    forall x | x in Ids(novel) ensures x !in before.seen && exists m :: m in r.messages && m.id == x {
      var k :| 0 <= k < |novel| && novel[k].id == x;
      FreshIsNew(before.seen, judged, novel[k]);
      JudgedIsInWindow(before, Widened(view, before, r), r.messages, novel[k]);
    }
    forall x | x in bad ensures x !in before.seen && x !in Ids(novel) {
      NewBadIs(before, r.malformed, x);
    }
    JoinedIsDistinct(Ids(novel), bad);
  }

  lemma {:induction false} LastTwice(a: seq<string>, b: seq<string>, n: nat)
    ensures LastOf(LastOf(a, n) + b, n) == LastOf(a + b, n)
  {
    if |a| > n { assert LastOf(a, n) + b == (a + b)[|a| - n..]; }
  }

  lemma {:induction false} SeenAfterRead(view: Cursor, before: Cursor, r: Read)
    ensures LedgerAfter(view, before, r).seen
            == LastOf(Dedupe(before.seen) + Appended(view, before, r), SEEN_CAP)
  {
    hide Dedupe, Fresh, Judged, NewBad, Latest, LastOf, Widened, Ids;
    var s, first, second := Dedupe(before.seen), Ids(LedgerFresh(view, before, r)), NewBad(before, r.malformed);
    LastTwice(s + first, second, SEEN_CAP);
    assert s + first + second == s + (first + second);
  }

  lemma {:induction false} SeenIsDistinct(view: Cursor, before: Cursor, r: Read)
    requires Plain(r)
    ensures NoRepeats(LedgerAfter(view, before, r).seen)
  {
    SeenAfterRead(view, before, r);
    AppendedIsNew(view, before, r);
    DedupeIsDistinct(before.seen);
    forall x | x in Appended(view, before, r) ensures x !in Dedupe(before.seen) { DedupeKeeps(before.seen, x); }
    JoinedIsDistinct(Dedupe(before.seen), Appended(view, before, r));
  }

  /** From an end of `all` without repeats to an end of `all` and what a plain read adds. */
  lemma {:induction false} EndGrows(l: Ledger, r: Read, all: seq<string>)
    requires Plain(r) && NoRepeats(l.cursor.seen) && l.cursor.seen == LastOf(all, SEEN_CAP)
    ensures var added := Appended(Opened(l.view, r), l.cursor, r);
            Step(l, r).cursor.seen == LastOf(all + added, SEEN_CAP)
  {
    hide Appended, LedgerAfter, LastOf;
    SeenAfterRead(Opened(l.view, r), l.cursor, r);
    DedupeOfDistinct(l.cursor.seen);
    LastTwice(all, Appended(Opened(l.view, r), l.cursor, r), SEEN_CAP);
  }

  /** After plain reads the ledger holds the last 800 ids of what it held and what was recorded since. */
  lemma {:induction false} SeenIsEndOfLog(l: Ledger, series: seq<Read>)
    requires series != [] && forall r | r in series :: Plain(r)
    ensures var later := After(l, series);
            && l.log <= later.log && NoRepeats(later.cursor.seen)
            && later.cursor.seen == LastOf(Dedupe(l.cursor.seen) + later.log[|l.log|..], SEEN_CAP)
    decreases |series|
  {
    hide Appended, LedgerAfter, LastOf, Dedupe, NoRepeats, ViewAfter, Opened, Plain;
    var init, r := series[..|series| - 1], series[|series| - 1];
    var was, s := After(l, init), Dedupe(l.cursor.seen);
    var view := Opened(was.view, r);
    var added := Appended(view, was.cursor, r);
    SeenIsDistinct(view, was.cursor, r);
    assert After(l, series) == Step(was, r);
    if init == [] {
      SeenAfterRead(view, was.cursor, r);
      assert (l.log + added)[|l.log|..] == added;
    } else {
      SeenIsEndOfLog(l, init);
      var since := was.log[|l.log|..];
      EndGrows(was, r, s + since);
      assert (was.log + added)[|l.log|..] == since + added;
      assert s + since + added == s + (since + added);
    }
  }

  /** An id is among the last `n` exactly if its last occurrence is. */
  lemma {:induction false} AmongLast(s: seq<string>, n: nat, at: nat)
    requires at < |s| && s[at] !in s[at + 1..]
    ensures s[at] in LastOf(s, n) <==> |s| - 1 - at < n
  {
    if |s| > n {
      var last := LastOf(s, n);
      if at >= |s| - n {
        assert last[at - (|s| - n)] == s[at];
      } else {
        forall k | 0 <= k < |last| ensures last[k] != s[at] { assert last[k] == s[at + 1..][|s| - n + k - at - 1]; }
      }
    }
  }

  lemma {:induction false} JudgedKeeps(before: Cursor, widened: bool, messages: seq<Message>, m: Message)
    requires m in messages && InLedgerWindow(before, widened, m)
    ensures m in Judged(before, widened, messages)
    decreases |messages|
  {
    var init := messages[..|messages| - 1];
    if m in init { JudgedKeeps(before, widened, init, m); }
  }

  lemma {:induction false} FreshKeeps(seen: seq<string>, batch: seq<Message>, m: Message)
    requires m in batch && m.id !in seen
    ensures m.id in Ids(Fresh(seen, batch))
    decreases |batch|
  {
    var init, last := batch[..|batch| - 1], batch[|batch| - 1];
    var before := Fresh(seen, init);
    assert Fresh(seen, batch)[..|before|] == before;
    if m in init {
      FreshKeeps(seen, init, m);
      var k :| 0 <= k < |before| && Ids(before)[k] == m.id;
      assert Ids(Fresh(seen, batch))[k] == m.id;
    } else if m.id in Ids(before) {
      var k :| 0 <= k < |before| && Ids(before)[k] == m.id;
      assert Ids(Fresh(seen, batch))[k] == m.id;
    } else {
      IdOfMember(Fresh(seen, batch), m);
    }
  }

  /** A read that returns a dated message finds it new exactly if the ledger neither holds nor has passed it. */
  lemma {:induction false} NewIff(l: Ledger, r: Read, m: Message, t: int)
    requires m in r.messages && Dated(r, m.id, t)
    ensures m.id in Ids(LedgerFresh(Opened(l.view, r), l.cursor, r)) <==>
              !Passed(l.cursor, t) && m.id !in l.cursor.seen
  {
    if Passed(l.cursor, t) || m.id in l.cursor.seen {
      NotFreshAgain(l, r, m.id, t);
    } else {
      var widened := Widened(Opened(l.view, r), l.cursor, r);
      JudgedKeeps(l.cursor, widened, r.messages, m);
      FreshKeeps(l.cursor.seen, Judged(l.cursor, widened, r.messages), m);
    }
  }

  /**
   * The other side of `NotifiesOnce`: over plain reads, the next read that returns a message recorded
   * at a place of the log finds it new again exactly if 800 ids lie behind that place and the
   * watermark has not passed its time by more than the overlap.
   */
  lemma {:induction false} FoundAgainIff(l: Ledger, series: seq<Read>, next: Read, place: nat, m: Message, t: int)
    requires series != [] && forall r | r in series :: Plain(r)
    requires |l.log| <= place < |After(l, series).log|
    requires After(l, series).log[place] == m.id && m.id !in After(l, series).log[place + 1..]
    requires m in next.messages && Dated(next, m.id, t)
    ensures var later := After(l, series);
            m.id in Ids(LedgerFresh(Opened(later.view, next), later.cursor, next)) <==>
              !Passed(later.cursor, t) && |later.log| - 1 - place >= SEEN_CAP
  {
    hide LastOf, Dedupe, LedgerFresh, Passed, Opened, Plain, Dated, NoRepeats, After, Ids;
    var later, s := After(l, series), Dedupe(l.cursor.seen);
    SeenIsEndOfLog(l, series);
    var all, at := s + later.log[|l.log|..], |s| + place - |l.log|;
    assert all[at + 1..] == later.log[place + 1..];
    AmongLast(all, SEEN_CAP, at);
    NewIff(later, next, m, t);
  }

  predicate DistinctIds(messages: seq<Message>) {
    forall i, j | 0 <= i < j < |messages| :: messages[i].id != messages[j].id
  }

  lemma {:induction false} FreshAreDistinct(seen: seq<string>, batch: seq<Message>)
    ensures DistinctIds(Fresh(seen, batch))
    decreases |batch|
  {
    if batch != [] {
      var before, m := Fresh(seen, batch[..|batch| - 1]), batch[|batch| - 1];
      FreshAreDistinct(seen, batch[..|batch| - 1]);
      forall i | 0 <= i < |before| && m.id !in Ids(before) ensures before[i].id != m.id {
        assert Ids(before)[i] == before[i].id;
      }
    }
  }

  lemma {:induction false} NotifiedAreDistinct(novel: seq<Message>, now: int, stale: (Option<int>, int) -> bool)
    requires DistinctIds(novel)
    ensures DistinctIds(Notified(novel, now, stale))
    decreases |novel|
  {
    if novel != [] {
      var init, told := novel[..|novel| - 1], Notified(novel[..|novel| - 1], now, stale);
      NotifiedAreDistinct(init, now, stale);
      forall i | 0 <= i < |told| ensures told[i].id != novel[|novel| - 1].id {
        NotifiedIsFresh(init, now, stale, told[i]);
        var k :| 0 <= k < |init| && init[k] == told[i];
      }
    }
  }

  /** One read notifies of a message at most once. */
  lemma {:induction false} OneReadNotifiesOnce(view: Cursor, before: Cursor, r: Read, stale: (Option<int>, int) -> bool)
    ensures DistinctIds(Arrived(view, before, r, stale))
  {
    FreshAreDistinct(before.seen, Judged(before, Widened(view, before, r), r.messages));
    NotifiedAreDistinct(LedgerFresh(view, before, r), r.now, stale);
  }

  /** Only a source that was read before notifies, and only of inbound messages new to its ledger. */
  lemma {:induction false} ArrivedIsNew(view: Cursor, before: Cursor, r: Read, stale: (Option<int>, int) -> bool,
                                        m: Message)
    requires m in Arrived(view, before, r, stale)
    ensures before.at.Some? && m.inbound && m in r.messages && m.id !in before.seen
    ensures m.at.Some? ==> m.at.value >= before.at.value - OVERLAP_MS
  {
    NotifiedIsFresh(LedgerFresh(view, before, r), r.now, stale, m);
    var judged := Judged(before, Widened(view, before, r), r.messages);
    FreshIsNew(before.seen, judged, m);
    JudgedIsInWindow(before, Widened(view, before, r), r.messages, m);
  }

  // ---- What a read is told of ---------------------------------------------------------------------

  /** Ids among the messages of a list: `Ids` by membership. */
  lemma {:induction false} IdAmong(messages: seq<Message>, id: string)
    ensures id in Ids(messages) <==> exists j :: 0 <= j < |messages| && messages[j].id == id
  {
    if j :| 0 <= j < |messages| && messages[j].id == id { assert Ids(messages)[j] == id; }
  }

  /** The k-th message is the first with its id, and the id was not seen. */
  ghost predicate IsFirst(seen: seq<string>, batch: seq<Message>, k: int)
    requires 0 <= k < |batch|
  {
    batch[k].id !in seen && forall j | 0 <= j < k :: batch[j].id != batch[k].id
  }

  ghost function Firsts(seen: seq<string>, batch: seq<Message>): set<int> {
    set k | 0 <= k < |batch| && IsFirst(seen, batch, k)
  }

  lemma {:induction false} IdsOfFresh(seen: seq<string>, batch: seq<Message>, id: string)
    ensures id in Ids(Fresh(seen, batch)) <==> id in Ids(batch) && id !in seen
  {
    var novel := Fresh(seen, batch);
    if id in Ids(novel) {
      var k :| 0 <= k < |novel| && novel[k].id == id;
      FreshIsNew(seen, batch, novel[k]);
      IdOfMember(batch, novel[k]);
    } else if id in Ids(batch) && id !in seen {
      var k :| 0 <= k < |batch| && batch[k].id == id;
      FreshKeeps(seen, batch, batch[k]);
    }
  }

  /** What is new in a batch: of each unseen id the first message, in order. It is what the view shows. */
  lemma {:induction false} FreshAreFirsts(seen: seq<string>, batch: seq<Message>)
    ensures Picked(batch, Firsts(seen, batch), Fresh(seen, batch))
    decreases |batch|
  {
    if batch == [] {
      NothingPicked(batch);
      assert Firsts(seen, batch) == {};
    } else {
      var init, m := batch[..|batch| - 1], batch[|batch| - 1];
      FreshAreFirsts(seen, init);
      hide Fresh, Firsts, Picked;
      PickedSnoc(init, Firsts(seen, init), Fresh(seen, init), m);
      FreshSnoc(seen, init, m);
      IdAmong(init, m.id);
      assert batch == init + [m];
      FirstsSnoc(seen, init, m);
      assert Fresh(seen, init) + [] == Fresh(seen, init) && Firsts(seen, init) + {} == Firsts(seen, init);
    }
  }

  lemma {:induction false} FirstsSnoc(seen: seq<string>, init: seq<Message>, m: Message)
    ensures Firsts(seen, init + [m])
            == Firsts(seen, init)
               + if m.id in seen || exists j :: 0 <= j < |init| && init[j].id == m.id then {} else {|init|}
  {
    var batch := init + [m];
    forall k | 0 <= k < |init| ensures IsFirst(seen, batch, k) <==> IsFirst(seen, init, k) {
      assert forall j | 0 <= j <= k :: batch[j] == init[j];
    }
    assert IsFirst(seen, batch, |init|) <==>
             !(m.id in seen || exists j :: 0 <= j < |init| && init[j].id == m.id) by {
      assert forall j | 0 <= j < |init| :: batch[j] == init[j];
    }
  }

  /** The read looked further back than the ledger's own window. */
  predicate LooksFurther(view: Cursor, before: Cursor, r: Read) {
    && before.at.Some?
    && match view.at
       case Some(v) => v < before.at.value
       case None => r.now - r.lookbackMs < before.at.value - 600_000
  }

  /** Not older than ten minutes before the ledger's watermark; without a date, only from a read that
   * went no further. */
  predicate Placed(view: Cursor, before: Cursor, r: Read, m: Message) {
    before.at.Some? ==>
      match m.at case Some(t) => t >= before.at.value - 600_000 case None => !LooksFurther(view, before, r)
  }

  /** The k-th message of the read notifies. */
  ghost predicate Notifies(view: Cursor, before: Cursor, r: Read, stale: (Option<int>, int) -> bool, k: int)
    requires 0 <= k < |r.messages|
  {
    var m := r.messages[k];
    && before.at.Some? && m.inbound && !stale(m.at, r.now)
    && m.id !in before.seen && Placed(view, before, r, m)
    && forall j | 0 <= j < k :: Placed(view, before, r, r.messages[j]) ==> r.messages[j].id != m.id
  }

  ghost function Notifying(view: Cursor, before: Cursor, r: Read, stale: (Option<int>, int) -> bool): set<int> {
    set k | 0 <= k < |r.messages| && Notifies(view, before, r, stale, k)
  }

  lemma {:induction false} IdsOfJudged(before: Cursor, widened: bool, messages: seq<Message>, id: string)
    ensures id in Ids(Judged(before, widened, messages)) <==>
              exists j :: 0 <= j < |messages| && messages[j].id == id && InLedgerWindow(before, widened, messages[j])
  {
    var judged := Judged(before, widened, messages);
    if id in Ids(judged) {
      var k :| 0 <= k < |judged| && judged[k].id == id;
      JudgedIsInWindow(before, widened, messages, judged[k]);
    }
    if j :| 0 <= j < |messages| && messages[j].id == id && InLedgerWindow(before, widened, messages[j]) {
      JudgedKeeps(before, widened, messages, messages[j]);
      IdOfMember(judged, messages[j]);
    }
  }

  lemma {:induction false} PlacedIsInWindow(view: Cursor, before: Cursor, r: Read, m: Message)
    ensures Placed(view, before, r, m) <==> InLedgerWindow(before, Widened(view, before, r), m)
  {
  }

  /**
   * Exactly what a read notifies of: on a source that was read before, of each id that the ledger does
   * not hold the first message in the ledger's window, if it is inbound and not past the ignore limit.
   */
  lemma {:induction false} ArrivedIff(view: Cursor, before: Cursor, r: Read, stale: (Option<int>, int) -> bool)
    ensures Picked(r.messages, Notifying(view, before, r, stale), Arrived(view, before, r, stale))
  {
    if before.at.None? {
      NothingPicked(r.messages);
      assert Notifying(view, before, r, stale) == {};
    } else {
      assert r.messages[..|r.messages|] == r.messages;
      ToldSoFar(view, before, r, stale, |r.messages|);
      assert Notifying(view, before, r, stale) == NotifyingIn(view, before, r, stale, |r.messages|);
    }
  }

  ghost function NotifyingIn(view: Cursor, before: Cursor, r: Read, stale: (Option<int>, int) -> bool, n: nat)
    : set<int>
    requires n <= |r.messages|
  {
    set k | 0 <= k < n && Notifies(view, before, r, stale, k)
  }

  lemma {:induction false} NotifyingGrows(view: Cursor, before: Cursor, r: Read, stale: (Option<int>, int) -> bool,
                                          n: nat)
    requires n < |r.messages|
    ensures NotifyingIn(view, before, r, stale, n + 1)
            == if Notifies(view, before, r, stale, n) then NotifyingIn(view, before, r, stale, n) + {n}
               else NotifyingIn(view, before, r, stale, n)
  {
  }

  ghost function Told(view: Cursor, before: Cursor, r: Read, stale: (Option<int>, int) -> bool, n: nat): seq<Message>
    requires n <= |r.messages|
  {
    Notified(Fresh(before.seen, Judged(before, Widened(view, before, r), r.messages[..n])), r.now, stale)
  }

  lemma {:induction false} ToldSoFar(view: Cursor, before: Cursor, r: Read, stale: (Option<int>, int) -> bool, n: nat)
    requires before.at.Some? && n <= |r.messages|
    ensures Picked(r.messages[..n], NotifyingIn(view, before, r, stale, n), Told(view, before, r, stale, n))
  {
    if n == 0 {
      NothingPicked(r.messages[..0]);
      assert NotifyingIn(view, before, r, stale, 0) == {};
    } else {
      ToldSoFar(view, before, r, stale, n - 1);
      hide *;
      var init, m := r.messages[..n - 1], r.messages[n - 1];
      PickedSnoc(init, NotifyingIn(view, before, r, stale, n - 1), Told(view, before, r, stale, n - 1), m);
      assert r.messages[..n] == init + [m];
      NotifyingGrows(view, before, r, stale, n - 1);
      ToldGrows(view, before, r, stale, n - 1);
    }
  }

  lemma {:induction false} ToldGrows(view: Cursor, before: Cursor, r: Read, stale: (Option<int>, int) -> bool, n: nat)
    requires before.at.Some? && n < |r.messages|
    ensures Told(view, before, r, stale, n + 1)
            == if Notifies(view, before, r, stale, n) then Told(view, before, r, stale, n) + [r.messages[n]]
               else Told(view, before, r, stale, n)
  {
    hide Judged, Fresh, Notified, Notifies, TellsNext, Widened;
    assert r.messages[..n + 1] == r.messages[..n] + [r.messages[n]];
    OneMoreTold(before, Widened(view, before, r), r.messages[..n], r.messages[n], r.now, stale);
    NotifiesNext(view, before, r, stale, n);
  }

  lemma {:induction false} JudgedSnoc(before: Cursor, widened: bool, init: seq<Message>, m: Message)
    ensures Judged(before, widened, init + [m])
            == Judged(before, widened, init) + if InLedgerWindow(before, widened, m) then [m] else []
  {
    assert (init + [m])[..|init|] == init;
  }

  lemma {:induction false} FreshSnoc(seen: seq<string>, init: seq<Message>, m: Message)
    ensures Fresh(seen, init + [m]) == Fresh(seen, init) + if m.id in seen || m.id in Ids(init) then [] else [m]
  {
    assert (init + [m])[..|init|] == init;
    IdsOfFresh(seen, init, m.id);
  }

  lemma {:induction false} NotifiedSnoc(init: seq<Message>, m: Message, now: int, stale: (Option<int>, int) -> bool)
    ensures Notified(init + [m], now, stale)
            == Notified(init, now, stale) + if m.inbound && !stale(m.at, now) then [m] else []
  {
    assert (init + [m])[..|init|] == init;
  }

  predicate TellsNext(before: Cursor, widened: bool, init: seq<Message>, m: Message, now: int,
                      stale: (Option<int>, int) -> bool) {
    && InLedgerWindow(before, widened, m) && m.id !in before.seen && m.id !in Ids(Judged(before, widened, init))
    && m.inbound && !stale(m.at, now)
  }

  lemma {:induction false} OneMoreTold(before: Cursor, widened: bool, init: seq<Message>, m: Message, now: int,
                                       stale: (Option<int>, int) -> bool)
    ensures var was := Fresh(before.seen, Judged(before, widened, init));
            var novel := Fresh(before.seen, Judged(before, widened, init + [m]));
            Notified(novel, now, stale)
            == Notified(was, now, stale) + if TellsNext(before, widened, init, m, now, stale) then [m] else []
  {
    hide Judged, Fresh, Notified, InLedgerWindow, Ids;
    var judged := Judged(before, widened, init);
    var was := Fresh(before.seen, judged);
    JudgedSnoc(before, widened, init, m);
    FreshSnoc(before.seen, judged, m);
    NotifiedSnoc(was, m, now, stale);
    assert judged + [] == judged && was + [] == was;
    assert Notified(was, now, stale) + [] == Notified(was, now, stale);
  }

  lemma {:induction false} NotifiesNext(view: Cursor, before: Cursor, r: Read, stale: (Option<int>, int) -> bool,
                                        n: nat)
    requires before.at.Some? && n < |r.messages|
    ensures var widened, m := Widened(view, before, r), r.messages[n];
            Notifies(view, before, r, stale, n) <==>
              TellsNext(before, widened, r.messages[..n], m, r.now, stale)
  {
    var widened, m := Widened(view, before, r), r.messages[n];
    IdsOfJudged(before, widened, r.messages[..n], m.id);
    forall x ensures Placed(view, before, r, x) <==> InLedgerWindow(before, widened, x) {
      PlacedIsInWindow(view, before, r, x);
    }
    assert forall j | 0 <= j < n :: r.messages[..n][j] == r.messages[j];
  }

  // ---- Where a read leaves the cursors ------------------------------------------------------------

  /** `next` is the latest of `at` and the dates of the messages. */
  ghost predicate IsLatest(at: Option<int>, messages: seq<Message>, next: Option<int>) {
    && (forall t | next.None? || t > next.value :: at != Some(t) && forall m | m in messages :: m.at != Some(t))
    && (next.Some? ==> at == next || exists m :: m in messages && m.at == next)
  }

  lemma {:induction false} LatestIs(at: Option<int>, messages: seq<Message>)
    ensures IsLatest(at, messages, Latest(at, messages))
    decreases |messages|
  {
    if messages != [] {
      var init, last := messages[..|messages| - 1], messages[|messages| - 1];
      LatestIs(at, init);
      assert messages == init + [last];
      assert last in messages;
    }
  }

  /**
   * A complete read moves a watermark to the latest date it found new, an incomplete one leaves it; a
   * first complete read that found none marks the ledger as read now, and no other does.
   */
  lemma {:induction false} CursorsAfter(view: Cursor, before: Cursor, r: Read)
    ensures var latest := LedgerAfter(view, before, r).at;
            if r.incomplete then latest == before.at && ViewAfter(view, r).at == view.at
            else
              && IsLatest(view.at, Fresh(view.seen, r.messages), ViewAfter(view, r).at)
              && (latest.Some? || before.at.Some?)
              && (IsLatest(before.at, LedgerFresh(view, before, r), latest)
                  || (IsLatest(before.at, LedgerFresh(view, before, r), None) && latest == Some(r.now)))
  {
    LatestIs(before.at, LedgerFresh(view, before, r));
    LatestIs(view.at, Fresh(view.seen, r.messages));
  }

  /** An unreadable record is remembered exactly if the ledger does not hold it yet. */
  lemma {:induction false} UnreadableIsKept(before: Cursor, malformed: seq<string>, key: string)
    ensures key in NewBad(before, malformed) <==>
              key !in before.seen && exists id :: id in malformed && key == "bad:" + id
    decreases |malformed|
  {
    if malformed != [] {
      var init, last := malformed[..|malformed| - 1], malformed[|malformed| - 1];
      UnreadableIsKept(before, init, key);
      assert malformed == init + [last];
      if id :| id in malformed && key == "bad:" + id { assert id in init || id == last; }
    }
  }
}
