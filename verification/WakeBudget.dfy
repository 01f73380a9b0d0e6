/**
 * The wake budget of a collaboration (packages/aicq-claude-mod/hooks/policy.ts, `withinBudget`;
 * register.tsx, `onArrival`). Times are milliseconds.
 */
module WakeBudget {

  const MAX_WAKES := 4
  const WINDOW_MS := 3_600_000

  /** `history.filter(t => now - t < windowMs)`. */
  function Recent(history: seq<int>, now: int): seq<int>
    decreases |history|
  {
    if history == [] then []
    else
      Recent(history[..|history| - 1], now)
        + if now - history[|history| - 1] < WINDOW_MS then [history[|history| - 1]] else []
  }

  predicate WithinBudget(history: seq<int>, now: int) {
    |Recent(history, now)| < MAX_WAKES
  }

  /** The history after one more wake-worthy message of a collaboration that may be woken. */
  function AfterWake(history: seq<int>, now: int): seq<int> {
    if WithinBudget(history, now) then Recent(history, now) + [now] else history
  }

  function HistoryIn(wakes: map<string, seq<int>>, key: string): seq<int> {
    if key in wakes then wakes[key] else []
  }

  /** The histories after a batch of messages; `mayWake` is the pause, ownership and mode of each collaboration. */
  function WakesAfter(wakes: map<string, seq<int>>, keys: seq<string>, mayWake: string -> bool, now: int)
    : map<string, seq<int>>
    decreases |keys|
  {
    if keys == [] then wakes
    else
      var before, key := WakesAfter(wakes, keys[..|keys| - 1], mayWake, now), keys[|keys| - 1];
      if mayWake(key) && WithinBudget(HistoryIn(before, key), now) then
        before[key := AfterWake(HistoryIn(before, key), now)]
      else before
  }

  /** The messages of a batch that start a turn. */
  function Eligible(wakes: map<string, seq<int>>, keys: seq<string>, mayWake: string -> bool, now: int): seq<nat>
    decreases |keys|
  {
    if keys == [] then []
    else
      var before, key := WakesAfter(wakes, keys[..|keys| - 1], mayWake, now), keys[|keys| - 1];
      Eligible(wakes, keys[..|keys| - 1], mayWake, now)
      + if mayWake(key) && WithinBudget(HistoryIn(before, key), now) then [|keys| - 1] else []
  }

  /** The wake histories, by collaboration. */
  class Budget {
    var wakes: map<string, seq<int>>

    constructor ()
      ensures wakes == map[]
    {
      wakes := map[];
    }

    /** The loop of `onArrival` over one batch. */
    method OnArrival(keys: seq<string>, mayWake: string -> bool, now: int) returns (eligible: seq<nat>)
      modifies this
      ensures wakes == WakesAfter(old(wakes), keys, mayWake, now)
      ensures eligible == Eligible(old(wakes), keys, mayWake, now)
    {
      eligible := [];
      for i := 0 to |keys|
        invariant wakes == WakesAfter(old(wakes), keys[..i], mayWake, now)
        invariant eligible == Eligible(old(wakes), keys[..i], mayWake, now)
      {
        var key := keys[i];
        assert keys[..i + 1][..i] == keys[..i];
        if mayWake(key) {
          var hist := HistoryIn(wakes, key);
          if WithinBudget(hist, now) {
            wakes := wakes[key := Recent(hist, now) + [now]];
            eligible := eligible + [i];
          }
        }
      }
      assert keys[..|keys|] == keys;
    }
  }

  lemma RefusedChangesNothing(history: seq<int>, now: int)
    ensures !WithinBudget(history, now) ==> AfterWake(history, now) == history
  {
  }

  /** Each collaboration spends its own budget: its history moves by its own messages alone. */
  lemma {:induction false} BudgetsAreApart(wakes: map<string, seq<int>>, keys: seq<string>, mayWake: string -> bool,
                                           now: int, key: string)
    ensures HistoryIn(WakesAfter(wakes, keys, mayWake, now), key)
            == Repeated(HistoryIn(wakes, key), CountOf(keys, key), mayWake(key), now)
    decreases |keys|
  {
    hide Recent, AfterWake, WithinBudget;
    if keys != [] {
      BudgetsAreApart(wakes, keys[..|keys| - 1], mayWake, now, key);
      RefusedChangesNothing(HistoryIn(WakesAfter(wakes, keys[..|keys| - 1], mayWake, now), key), now);
    }
  }

  function CountOf(keys: seq<string>, key: string): nat
    decreases |keys|
  {
    if keys == [] then 0 else CountOf(keys[..|keys| - 1], key) + if keys[|keys| - 1] == key then 1 else 0
  }

  /** `n` wake-worthy messages at once. */
  function Repeated(history: seq<int>, n: nat, mayWake: bool, now: int): seq<int> {
    if n == 0 || !mayWake then history else AfterWake(Repeated(history, n - 1, mayWake, now), now)
  }

  // ---- Runs -------------------------------------------------------------------------------------

  /** The history kept, and every wake there ever was. */
  datatype Track = Track(history: seq<int>, log: seq<int>)

  function Step(t: Track, now: int): Track {
    if WithinBudget(t.history, now) then Track(AfterWake(t.history, now), t.log + [now]) else t
  }

  /** One wake-worthy message at each of these times. */
  function After(times: seq<int>): Track
    decreases |times|
  {
    if times == [] then Track([], []) else Step(After(times[..|times| - 1]), times[|times| - 1])
  }

  predicate Sorted(s: seq<int>) {
    forall i, j | 0 <= i < j < |s| :: s[i] <= s[j]
  }

  /** Any five wakes in a row are spread over an hour at least. */
  predicate Spread(log: seq<int>) {
    forall i, j | 0 <= i && j == i + MAX_WAKES < |log| :: log[j] - log[i] >= WINDOW_MS
  }

  /** The history is the end of the log, and what was pruned from it is an hour old. */
  predicate Inv(t: Track, now: int) {
    && Sorted(t.log) && (t.log != [] ==> t.log[|t.log| - 1] <= now) && Spread(t.log)
    && |t.history| <= |t.log| && t.history == t.log[|t.log| - |t.history|..]
    && forall i | 0 <= i < |t.log| - |t.history| :: now - t.log[i] >= WINDOW_MS
  }

  /** On a sorted history the recent wakes are its end. */
  lemma {:induction false} RecentIsEnd(history: seq<int>, now: int)
    requires Sorted(history)
    ensures var recent := Recent(history, now);
            && |recent| <= |history| && recent == history[|history| - |recent|..]
            && (forall i | 0 <= i < |history| - |recent| :: now - history[i] >= WINDOW_MS)
            && forall i | |history| - |recent| <= i < |history| :: now - history[i] < WINDOW_MS
    decreases |history|
  {
    if history != [] {
      var init, last := history[..|history| - 1], history[|history| - 1];
      RecentIsEnd(init, now);
      if now - last >= WINDOW_MS {
        assert forall i | 0 <= i < |history| :: now - history[i] >= WINDOW_MS;
        NoneRecent(init, now);
      }
    }
  }

  lemma {:induction false} NoneRecent(history: seq<int>, now: int)
    requires forall i | 0 <= i < |history| :: now - history[i] >= WINDOW_MS
    ensures Recent(history, now) == []
    decreases |history|
  {
    if history != [] { NoneRecent(history[..|history| - 1], now); }
  }

  lemma {:induction false} EndIsSorted(log: seq<int>, k: nat)
    requires Sorted(log) && k <= |log|
    ensures Sorted(log[k..])
  {
    assert forall i | 0 <= i < |log| - k :: log[k..][i] == log[k + i];
  }

  /** The first `n` wakes are an hour old, the others are not. */
  predicate Cut(log: seq<int>, n: nat, now: int) {
    && n <= |log| && (forall i | 0 <= i < n :: now - log[i] >= WINDOW_MS)
    && forall i | n <= i < |log| :: now - log[i] < WINDOW_MS
  }

  lemma {:induction false} CutOfEnd(log: seq<int>, k: nat, n: nat, now: int)
    requires k <= |log| && (forall i | 0 <= i < k :: now - log[i] >= WINDOW_MS) && Cut(log[k..], n, now)
    ensures Cut(log, k + n, now) && log[k..][n..] == log[k + n..]
  {
    forall i | k <= i < |log| ensures log[i] == log[k..][i - k] {
    }
  }

  /** The recent wakes are the end of the log, too. */
  lemma {:induction false} RecentEndsLog(t: Track, was: int, now: int)
    requires Inv(t, was) && was <= now
    ensures var recent := Recent(t.history, now);
            |recent| <= |t.log| && recent == t.log[|t.log| - |recent|..] && Cut(t.log, |t.log| - |recent|, now)
  {
    hide Recent, Spread, Sorted;
    var k, n := |t.log| - |t.history|, |t.history| - |Recent(t.history, now)|;
    EndIsSorted(t.log, k);
    RecentIsEnd(t.history, now);
    assert Cut(t.history, n, now);
    hide Cut;
    CutOfEnd(t.log, k, n, now);
  }

  lemma {:induction false} StepKeeps(t: Track, was: int, now: int)
    requires Inv(t, was) && was <= now
    ensures Inv(Step(t, now), now)
  {
    hide Recent, Sorted, Spread, Cut;
    RecentEndsLog(t, was, now);
    var recent := Recent(t.history, now);
    if |recent| < MAX_WAKES { GrownInv(t.log, recent, now); }
  }

  lemma {:induction false} GrownInv(log: seq<int>, recent: seq<int>, now: int)
    requires Sorted(log) && Spread(log) && (log != [] ==> log[|log| - 1] <= now)
    requires |recent| <= |log| && recent == log[|log| - |recent|..] && |recent| < MAX_WAKES
             && Cut(log, |log| - |recent|, now)
    ensures Inv(Track(recent + [now], log + [now]), now)
  {
    hide Sorted, Spread;
    SpreadGrows(log, |recent|, now);
    var more := log + [now];
    assert more[|log| - |recent|..] == log[|log| - |recent|..] + [now];
  }

  lemma {:induction false} SpreadGrows(log: seq<int>, recent: nat, now: int)
    requires Sorted(log) && Spread(log) && recent <= |log| && recent < MAX_WAKES
             && (log != [] ==> log[|log| - 1] <= now)
    requires forall i | 0 <= i < |log| - recent :: now - log[i] >= WINDOW_MS
    ensures Sorted(log + [now]) && Spread(log + [now])
  {
    if |log| >= MAX_WAKES { assert now - log[|log| - MAX_WAKES] >= WINDOW_MS; }
  }

  lemma {:induction false} RunKeeps(times: seq<int>)
    requires times != [] && Sorted(times)
    ensures Inv(After(times), times[|times| - 1])
    decreases |times|
  {
    var init, last := times[..|times| - 1], times[|times| - 1];
    if init == [] {
      assert Inv(After([]), last);
      StepKeeps(After([]), last, last);
    } else {
      RunKeeps(init);
      StepKeeps(After(init), init[|init| - 1], last);
    }
  }

  /** How many wakes lie in `[from, from + length)`. */
  function WakesIn(log: seq<int>, from: int, length: int): nat
    decreases |log|
  {
    if log == [] then 0
    else WakesIn(log[..|log| - 1], from, length) + if from <= log[|log| - 1] < from + length then 1 else 0
  }

  lemma {:induction false} NoneBefore(log: seq<int>, from: int, length: int)
    requires forall i | 0 <= i < |log| :: log[i] < from
    ensures WakesIn(log, from, length) == 0
    decreases |log|
  {
    if log != [] { NoneBefore(log[..|log| - 1], from, length); }
  }

  lemma {:induction false} WakesAtMost(log: seq<int>, from: int, length: int, k: nat)
    requires k <= |log|
    ensures WakesIn(log, from, length) <= WakesIn(log[..|log| - k], from, length) + k
    decreases k
  {
    if k == 0 {
      assert log[..|log|] == log;
    } else {
      WakesAtMost(log[..|log| - 1], from, length, k - 1);
      assert log[..|log| - 1][..|log| - 1 - (k - 1)] == log[..|log| - k];
    }
  }

  lemma {:induction false} HourHoldsFour(log: seq<int>, from: int)
    requires Sorted(log) && Spread(log)
    ensures WakesIn(log, from, WINDOW_MS) <= MAX_WAKES
    decreases |log|
  {
    var n := |log|;
    if n <= MAX_WAKES {
      WakesAtMost(log, from, WINDOW_MS, n);
    } else if from <= log[n - 1] < from + WINDOW_MS {
      WakesAtMost(log, from, WINDOW_MS, MAX_WAKES);
      assert log[n - 1] - log[n - 1 - MAX_WAKES] >= WINDOW_MS;
      NoneBefore(log[..n - MAX_WAKES], from, WINDOW_MS);
    } else {
      HourHoldsFour(log[..n - 1], from);
    }
  }

  /** A wake is refused exactly when four wakes lie less than an hour back. */
  lemma {:induction false} RefusedIffFourRecent(times: seq<int>, now: int)
    requires times != [] && Sorted(times) && times[|times| - 1] <= now
    ensures var t := After(times);
            Step(t, now) == t <==> |t.log| >= MAX_WAKES && now - t.log[|t.log| - MAX_WAKES] < WINDOW_MS
  {
    hide Recent, After, Sorted, Spread;
    var t := After(times);
    RunKeeps(times);
    RecentEndsLog(t, times[|times| - 1], now);
    if WithinBudget(t.history, now) { assert |Step(t, now).log| == |t.log| + 1; }
  }

  // ---- Runs of batches ------------------------------------------------------------------------------

  /** One call of `onArrival`: the collaborations of its messages, and which of them may be woken. */
  datatype Batch = Batch(keys: seq<string>, mayWake: string -> bool, now: int)

  /** The histories after these batches. */
  function WakesAfterAll(batches: seq<Batch>): map<string, seq<int>>
    decreases |batches|
  {
    if batches == [] then map[]
    else
      var last := batches[|batches| - 1];
      WakesAfter(WakesAfterAll(batches[..|batches| - 1]), last.keys, last.mayWake, last.now)
  }

  /** How many of these messages are of one collaboration. */
  function CountAt(eligible: seq<nat>, keys: seq<string>, key: string): nat
    decreases |eligible|
  {
    if eligible == [] then 0
    else var i := eligible[|eligible| - 1];
         CountAt(eligible[..|eligible| - 1], keys, key) + if i < |keys| && keys[i] == key then 1 else 0
  }

  /** When turns were started for a collaboration. */
  function WakeTimes(batches: seq<Batch>, key: string): seq<int>
    decreases |batches|
  {
    if batches == [] then []
    else
      var init, last := batches[..|batches| - 1], batches[|batches| - 1];
      WakeTimes(init, key)
        + Same(last.now, CountAt(Eligible(WakesAfterAll(init), last.keys, last.mayWake, last.now), last.keys, key))
  }

  predicate ClockForward(batches: seq<Batch>) {
    forall i, j | 0 <= i < j < |batches| :: batches[i].now <= batches[j].now
  }

  /** One collaboration's track through a batch. */
  function BatchStep(t: Track, keys: seq<string>, mayWake: string -> bool, now: int, key: string): Track
    decreases |keys|
  {
    if keys == [] then t
    else
      var before := BatchStep(t, keys[..|keys| - 1], mayWake, now, key);
      if keys[|keys| - 1] == key && mayWake(key) then Step(before, now) else before
  }

  lemma {:induction false} CountAtPrefix(eligible: seq<nat>, keys: seq<string>, more: seq<string>, key: string)
    requires forall i | 0 <= i < |eligible| :: eligible[i] < |keys|
    ensures CountAt(eligible, keys + more, key) == CountAt(eligible, keys, key)
    decreases |eligible|
  {
    if eligible != [] { CountAtPrefix(eligible[..|eligible| - 1], keys, more, key); }
  }

  lemma {:induction false} EligibleInRange(wakes: map<string, seq<int>>, keys: seq<string>, mayWake: string -> bool,
                                           now: int)
    ensures forall i | 0 <= i < |Eligible(wakes, keys, mayWake, now)| :: Eligible(wakes, keys, mayWake, now)[i] < |keys|
    decreases |keys|
  {
    if keys != [] { EligibleInRange(wakes, keys[..|keys| - 1], mayWake, now); }
  }

  lemma NoneSame(t: int)
    ensures Same(t, 0) == []
  {
  }

  lemma {:induction false} SameAgain(t: int, n: nat)
    ensures Same(t, n) + [t] == Same(t, n + 1) && Same(t, n) + [] == Same(t, n)
  {
  }

  /** One more message of a batch. */
  predicate Woken(wakes: map<string, seq<int>>, init: seq<string>, last: string, mayWake: string -> bool, now: int) {
    mayWake(last) && WithinBudget(HistoryIn(WakesAfter(wakes, init, mayWake, now), last), now)
  }

  lemma {:induction false} OneMoreMessage(wakes: map<string, seq<int>>, init: seq<string>, last: string,
                                          mayWake: string -> bool, now: int, key: string)
    ensures var keys, before := init + [last], WakesAfter(wakes, init, mayWake, now);
            && Eligible(wakes, keys, mayWake, now)
               == Eligible(wakes, init, mayWake, now)
                 + (if Woken(wakes, init, last, mayWake, now) then [|init|] else [])
            && HistoryIn(WakesAfter(wakes, keys, mayWake, now), key)
               == if key == last && mayWake(key) then AfterWake(HistoryIn(before, key), now) else HistoryIn(before, key)
  {
    hide Recent, WithinBudget;
    RefusedChangesNothing(HistoryIn(WakesAfter(wakes, init, mayWake, now), last), now);
    assert (init + [last])[..|init|] == init;
  }

  lemma {:induction false} OneMoreCount(wakes: map<string, seq<int>>, init: seq<string>, last: string,
                                        mayWake: string -> bool, now: int, key: string)
    ensures var before, more := Eligible(wakes, init, mayWake, now),
            if Woken(wakes, init, last, mayWake, now) then [|init|] else [];
            CountAt(before + more, init + [last], key)
            == CountAt(before, init, key) + if Woken(wakes, init, last, mayWake, now) && last == key then 1 else 0
  {
    hide Eligible, Woken;
    var before := Eligible(wakes, init, mayWake, now);
    EligibleInRange(wakes, init, mayWake, now);
    CountAtPrefix(before, init, [last], key);
    CountAtSnoc(before, |init|, init + [last], key);
    assert before + [] == before;
  }

  lemma {:induction false} OneMoreStep(t: Track, init: seq<string>, last: string, mayWake: string -> bool, now: int,
                                       key: string)
    ensures var before := BatchStep(t, init, mayWake, now, key);
            BatchStep(t, init + [last], mayWake, now, key)
              == if last == key && mayWake(key) then Step(before, now) else before
  {
    assert (init + [last])[..|init|] == init;
  }

  /** Through a batch, history and wakes of a collaboration move as its own track does. */
  lemma {:induction false} BatchFollows(wakes: map<string, seq<int>>, keys: seq<string>, mayWake: string -> bool,
                                        now: int, key: string, log: seq<int>)
    ensures var t := BatchStep(Track(HistoryIn(wakes, key), log), keys, mayWake, now, key);
            && HistoryIn(WakesAfter(wakes, keys, mayWake, now), key) == t.history
            && log + Same(now, CountAt(Eligible(wakes, keys, mayWake, now), keys, key)) == t.log
    decreases |keys|
  {
    if keys == [] {
      NoneSame(now);
      assert log + [] == log;
    } else {
      hide Recent, WithinBudget, Same, WakesAfter, Eligible, BatchStep, CountAt, AfterWake, HistoryIn, Step;
      var init, last := keys[..|keys| - 1], keys[|keys| - 1];
      BatchFollows(wakes, init, mayWake, now, key, log);
      assert init + [last] == keys;
      OneMoreMessage(wakes, init, last, mayWake, now, key);
      OneMoreStep(Track(HistoryIn(wakes, key), log), init, last, mayWake, now, key);
      var before, t := Eligible(wakes, init, mayWake, now),
        BatchStep(Track(HistoryIn(wakes, key), log), init, mayWake, now, key);
      OneMoreCount(wakes, init, last, mayWake, now, key);
      StepFollows(t, log, CountAt(before, init, key), now);
    }
  }

  lemma {:induction false} StepFollows(t: Track, log: seq<int>, n: nat, now: int)
    requires t.log == log + Same(now, n)
    ensures Step(t, now).history == AfterWake(t.history, now)
    ensures Step(t, now).log == log + Same(now, n + if WithinBudget(t.history, now) then 1 else 0)
  {
    hide Recent, Same;
    SameAgain(now, n);
    assert log + Same(now, n) + [now] == log + (Same(now, n) + [now]);
  }

  lemma {:induction false} CountAtSnoc(eligible: seq<nat>, i: nat, keys: seq<string>, key: string)
    requires i < |keys|
    ensures CountAt(eligible + [i], keys, key) == CountAt(eligible, keys, key) + if keys[i] == key then 1 else 0
  {
    assert (eligible + [i])[..|eligible|] == eligible;
  }

  function TrackOf(batches: seq<Batch>, key: string): Track
    decreases |batches|
  {
    if batches == [] then Track([], [])
    else
      var last := batches[|batches| - 1];
      BatchStep(TrackOf(batches[..|batches| - 1], key), last.keys, last.mayWake, last.now, key)
  }

  lemma {:induction false} RunFollows(batches: seq<Batch>, key: string)
    ensures TrackOf(batches, key) == Track(HistoryIn(WakesAfterAll(batches), key), WakeTimes(batches, key))
    decreases |batches|
  {
    if batches != [] {
      var init, last := batches[..|batches| - 1], batches[|batches| - 1];
      RunFollows(init, key);
      BatchFollows(WakesAfterAll(init), last.keys, last.mayWake, last.now, key, WakeTimes(init, key));
    }
  }

  lemma {:induction false} BatchStepKeeps(t: Track, was: int, keys: seq<string>, mayWake: string -> bool, now: int,
                                          key: string)
    requires Inv(t, was) && was <= now
    ensures Inv(BatchStep(t, keys, mayWake, now, key), now)
    decreases |keys|
  {
    if keys != [] {
      BatchStepKeeps(t, was, keys[..|keys| - 1], mayWake, now, key);
      StepKeeps(BatchStep(t, keys[..|keys| - 1], mayWake, now, key), now, now);
    }
  }

  lemma {:induction false} BatchesKeep(batches: seq<Batch>, key: string)
    requires batches != [] && ClockForward(batches)
    ensures Inv(TrackOf(batches, key), batches[|batches| - 1].now)
    decreases |batches|
  {
    var init, last := batches[..|batches| - 1], batches[|batches| - 1];
    if init == [] {
      assert Inv(TrackOf(init, key), last.now);
      BatchStepKeeps(TrackOf(init, key), last.now, last.keys, last.mayWake, last.now, key);
    } else {
      BatchesKeep(init, key);
      BatchStepKeeps(TrackOf(init, key), init[|init| - 1].now, last.keys, last.mayWake, last.now, key);
    }
  }

  /**
   * Over any run of batches, with a clock that does not run backwards, no hour -- its end excluded --
   * holds more than four wakes of a collaboration, whatever the others do.
   */
  lemma {:induction false} BudgetHolds(batches: seq<Batch>, key: string, from: int)
    requires ClockForward(batches)
    ensures WakesIn(WakeTimes(batches, key), from, WINDOW_MS) <= MAX_WAKES
  {
    RunFollows(batches, key);
    if batches != [] {
      BatchesKeep(batches, key);
      HourHoldsFour(WakeTimes(batches, key), from);
    }
  }

  // ---- Hours with both ends -------------------------------------------------------------------------

  function Below(log: seq<int>, x: int): nat
    decreases |log|
  {
    if log == [] then 0 else Below(log[..|log| - 1], x) + if log[|log| - 1] < x then 1 else 0
  }

  lemma {:induction false} BelowIsPrefix(log: seq<int>, x: int)
    requires Sorted(log)
    ensures Below(log, x) <= |log|
    ensures forall i | 0 <= i < |log| :: log[i] < x <==> i < Below(log, x)
    decreases |log|
  {
    if log != [] {
      var init := log[..|log| - 1];
      BelowIsPrefix(init, x);
      forall i | 0 <= i < |init| ensures log[i] < x <==> i < Below(init, x) { assert init[i] == log[i]; }
    }
  }

  lemma {:induction false} WakesAreBetween(log: seq<int>, from: int, length: int)
    requires length >= 0
    ensures WakesIn(log, from, length) == Below(log, from + length) - Below(log, from)
    decreases |log|
  {
    if log != [] { WakesAreBetween(log[..|log| - 1], from, length); }
  }

  /** Wakes of a run from `i` on whose span is an hour, both ends included. */
  predicate SpansHour(log: seq<int>, from: int, i: nat, n: nat) {
    0 < n && i + n <= |log| && log[i] == from && log[i + n - 1] == from + WINDOW_MS
  }

  lemma {:induction false} SpreadTwice(log: seq<int>, i: nat)
    requires Spread(log) && i + 2 * MAX_WAKES < |log|
    ensures log[i + 2 * MAX_WAKES] - log[i] >= 2 * WINDOW_MS
  {
    assert log[i + MAX_WAKES] - log[i] >= WINDOW_MS && log[i + 2 * MAX_WAKES] - log[i + MAX_WAKES] >= WINDOW_MS;
  }

  /**
   * An hour that includes both ends holds more than four wakes exactly if that many in a row span it,
   * the first at its start and the last at its end.
   */
  lemma {:induction false} ClosedHourIff(log: seq<int>, from: int, n: nat)
    requires Sorted(log) && Spread(log) && n > MAX_WAKES
    ensures WakesIn(log, from, WINDOW_MS + 1) >= n <==> exists i: nat :: SpansHour(log, from, i, n)
  {
    var length := WINDOW_MS + 1;
    var lo, hi := Below(log, from), Below(log, from + length);
    WakesAreBetween(log, from, length);
    BelowIsPrefix(log, from);
    BelowIsPrefix(log, from + length);
    if hi - lo >= n {
      assert log[lo + MAX_WAKES] - log[lo] >= WINDOW_MS;
      assert log[lo + n - 1] == from + WINDOW_MS;
      assert SpansHour(log, from, lo, n);
    }
    if i: nat :| SpansHour(log, from, i, n) {
      assert i < |log| && !(log[i] < from) && log[i + n - 1] < from + length;
    }
  }

  lemma {:induction false} ClosedHourHoldsAtMostEight(log: seq<int>, from: int)
    requires Sorted(log) && Spread(log)
    ensures WakesIn(log, from, WINDOW_MS + 1) <= 2 * MAX_WAKES
  {
    var nine := 2 * MAX_WAKES + 1;
    ClosedHourIff(log, from, nine);
    if i: nat :| SpansHour(log, from, i, nine) { SpreadTwice(log, i); }
  }

  lemma {:induction false} RunIsSpread(batches: seq<Batch>, key: string)
    requires ClockForward(batches)
    ensures Sorted(WakeTimes(batches, key)) && Spread(WakeTimes(batches, key))
  {
    RunFollows(batches, key);
    if batches != [] { BatchesKeep(batches, key); }
  }

  /** So it is with the wakes of every run. */
  lemma {:induction false} ClosedHourOfRun(batches: seq<Batch>, key: string, from: int, n: nat)
    requires ClockForward(batches) && n > MAX_WAKES
    ensures var log := WakeTimes(batches, key);
            && WakesIn(log, from, WINDOW_MS + 1) <= 2 * MAX_WAKES
            && (WakesIn(log, from, WINDOW_MS + 1) >= n <==> exists i: nat :: SpansHour(log, from, i, n))
  {
    RunIsSpread(batches, key);
    ClosedHourIff(WakeTimes(batches, key), from, n);
    ClosedHourHoldsAtMostEight(WakeTimes(batches, key), from);
  }

  function Same(t: int, n: nat): seq<int> {
    seq(n, i => t)
  }

  lemma {:induction false} AllRecent(history: seq<int>, now: int)
    requires forall i | 0 <= i < |history| :: now - history[i] < WINDOW_MS
    ensures Recent(history, now) == history
    decreases |history|
  {
    if history != [] { AllRecent(history[..|history| - 1], now); }
  }

  /** Up to four messages at once all start a turn. */
  lemma {:induction false} FourAtOnce(t: int, n: nat)
    requires n <= MAX_WAKES
    ensures After(Same(t, n)) == Track(Same(t, n), Same(t, n))
    decreases n
  {
    if n > 0 {
      FourAtOnce(t, n - 1);
      assert Same(t, n)[..n - 1] == Same(t, n - 1) && Same(t, n - 1) + [t] == Same(t, n);
      AllRecent(Same(t, n - 1), t);
    }
  }

  lemma {:induction false} AllIn(log: seq<int>, from: int, length: int)
    requires forall i | 0 <= i < |log| :: from <= log[i] < from + length
    ensures WakesIn(log, from, length) == |log|
    decreases |log|
  {
    if log != [] { AllIn(log[..|log| - 1], from, length); }
  }

  lemma {:induction false} AfterSnoc(times: seq<int>, now: int)
    ensures After(times + [now]) == Step(After(times), now)
  {
    assert (times + [now])[..|times|] == times;
  }

  /** Four at once, and as many an hour later. */
  lemma {:induction false} FourLater(t: int, n: nat)
    requires n <= MAX_WAKES
    ensures var u, times := t + WINDOW_MS, Same(t, 4) + Same(t + WINDOW_MS, n);
            After(times) == Track(if n == 0 then Same(t, 4) else Same(u, n), times)
    decreases n
  {
    hide Recent, After;
    var u := t + WINDOW_MS;
    if n == 0 {
      FourAtOnce(t, 4);
      assert Same(t, 4) + Same(u, 0) == Same(t, 4);
    } else {
      var init := Same(t, 4) + Same(u, n - 1);
      FourLater(t, n - 1);
      AfterSnoc(init, u);
      SameAgain(u, n - 1);
      assert init + [u] == Same(t, 4) + Same(u, n);
      if n == 1 {
        NoneRecent(Same(t, 4), u);
        assert [] + [u] == Same(u, 1);
      } else {
        AllRecent(Same(u, n - 1), u);
      }
    }
  }

  /** An hour with both ends can hold eight. */
  lemma {:induction false} ClosedHourHoldsEight(t: int)
    ensures var times := Same(t, 4) + Same(t + WINDOW_MS, 4);
            Sorted(times) && WakesIn(After(times).log, t, WINDOW_MS + 1) == 8
  {
    FourLater(t, 4);
    AllIn(Same(t, 4) + Same(t + WINDOW_MS, 4), t, WINDOW_MS + 1);
  }
}
