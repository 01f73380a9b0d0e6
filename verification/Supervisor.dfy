/**
 * Service supervision (packages/collect/fulcra_collect/supervisor.py): backoff, crash-loop
 * detection and recovery of service workers, over runs of ticks. Times are in microseconds.
 */
module Supervisor {
  import opened Wrappers

  const SECOND := 1_000_000
  const CRASH_WINDOW := 60 * SECOND
  const CRASH_LOOP_THRESHOLD := 6
  const BASE_BACKOFF := SECOND
  const MAX_BACKOFF := 60 * SECOND
  const DEGRADED_RECOVERY_COOLDOWN := 300 * SECOND

  // ---- The restart policy -----------------------------------------------------------------------

  datatype Decision = Restart(backoff: int) | Degrade

  /** How many of the exits are within the window that ends at `now`. */
  function InWindow(exits: seq<int>, now: int): nat {
    if exits == [] then 0 else (if now - exits[0] <= CRASH_WINDOW then 1 else 0) + InWindow(exits[1..], now)
  }

  function Power2(n: nat): nat {
    if n == 0 then 1 else 2 * Power2(n - 1)
  }

  function Min(a: int, b: int): int {
    if a < b then a else b
  }

  /** `decide_restart`: the exits include the one that just happened. */
  function DecideRestart(exits: seq<int>, now: int): Decision {
    var n := InWindow(exits, now);
    if n >= CRASH_LOOP_THRESHOLD then Degrade
    else if n == 0 then Restart(BASE_BACKOFF / 2)
    else Restart(Min(BASE_BACKOFF * Power2(n - 1), MAX_BACKOFF))
  }

  /** A restart waits 1, 2, 4, 8 or 16 seconds, never the nominal maximum; six exits in the window degrade. */
  lemma {:induction false} BackoffIsSmall(exits: seq<int>, now: int)
    requires InWindow(exits, now) > 0
    ensures match DecideRestart(exits, now)
            case Degrade => InWindow(exits, now) >= 6
            case Restart(backoff) =>
              InWindow(exits, now) <= 5 && backoff in {SECOND, 2 * SECOND, 4 * SECOND, 8 * SECOND, 16 * SECOND}
              && backoff == SECOND * Power2(InWindow(exits, now) - 1)
  {
    assert Power2(0) == 1 && Power2(1) == 2 && Power2(2) == 4 && Power2(3) == 8 && Power2(4) == 16;
  }

  // ---- One service ------------------------------------------------------------------------------

  /** What the supervisor keeps of one service. */
  datatype Service = Service(running: bool, exits: seq<int>, backoffUntil: Option<int>, degraded: bool)

  const FRESH := Service(false, [], None, false)

  datatype Poll = Running | CleanExit | Crash

  /** What the world answers in one tick: the process's state, and whether a launch succeeds. */
  datatype Answers = Answers(poll: Poll, launches: bool)

  datatype Outcome = Outcome(service: Service, recorded: bool, attempted: bool)

  /** Record an exit now and apply the policy. */
  function Recorded(s: Service, now: int): Service {
    var exits := s.exits + [now];
    match DecideRestart(exits, now)
    case Degrade => s.(exits := exits, degraded := true)
    case Restart(backoff) => s.(exits := exits, backoffUntil := Some(now + backoff))
  }

  /** `_spawn`. */
  function Spawned(s: Service, now: int, launches: bool): Outcome {
    if launches then Outcome(s.(running := true), false, true)
    else
      var r := Recorded(s, now);
      Outcome(if r.degraded then r.(backoffUntil := None) else r, true, true)
  }

  function MaxOf(exits: seq<int>): int
    requires exits != []
  {
    if |exits| == 1 then exits[0] else
      var rest := MaxOf(exits[1..]);
      if exits[0] > rest then exits[0] else rest
  }

  /** A degraded service whose last crash is old enough gets a clean record. */
  function Recovered(s: Service, now: int): Service {
    if s.degraded && s.exits != [] && now - MaxOf(s.exits) > DEGRADED_RECOVERY_COOLDOWN then
      s.(degraded := false, exits := [])
    else s
  }

  predicate MayLaunch(s: Service, now: int) {
    match s.backoffUntil case Some(until) => now >= until case None => true
  }

  function Launch(s: Service, now: int, launches: bool, recorded: bool): Outcome {
    if MayLaunch(s, now) then Spawned(s, now, launches).(recorded := recorded || Spawned(s, now, launches).recorded)
    else Outcome(s, recorded, false)
  }

  /** One turn of `tick` for an enabled service. */
  function TickEnabled(s: Service, now: int, a: Answers): Outcome {
    var s := Recovered(s, now);
    if s.degraded then Outcome(s, false, false)
    else if s.running then
      match a.poll
      case Running => Outcome(s, false, false)
      case CleanExit => Spawned(s.(running := false), now, a.launches)
      case Crash =>
        var r := Recorded(s.(running := false), now);
        if r.degraded then Outcome(r, true, false) else Launch(r, now, a.launches, true)
    else Launch(s, now, a.launches, false)
  }

  // ---- What a turn does -----------------------------------------------------------------------------

  /** The exits at most sixty seconds old. */
  ghost function Recent(exits: seq<int>, now: int): set<int> {
    set i | 0 <= i < |exits| && now - exits[i] <= 60_000_000
  }

  lemma {:induction false} InWindowIs(exits: seq<int>, now: int)
    ensures InWindow(exits, now) == |Recent(exits, now)|
    decreases |exits|
  {
    if exits != [] {
      var init, last := exits[..|exits| - 1], |exits| - 1;
      InWindowIs(init, now);
      InWindowSnoc(init, exits[last], now);
      assert exits == init + [exits[last]];
      assert Recent(exits, now) == Recent(init, now) + if now - exits[last] <= 60_000_000 then {last} else {};
    }
  }

  lemma {:induction false} InWindowSnoc(exits: seq<int>, last: int, now: int)
    ensures InWindow(exits + [last], now) == InWindow(exits, now) + if now - last <= CRASH_WINDOW then 1 else 0
  {
    if exits == [] {
      assert exits + [last] == [last];
    } else {
      InWindowSnoc(exits[1..], last, now);
      assert (exits + [last])[1..] == exits[1..] + [last];
    }
  }

  lemma {:induction false} MaxIsGreatest(exits: seq<int>)
    requires exits != []
    ensures MaxOf(exits) in exits && forall e | e in exits :: e <= MaxOf(exits)
  {
    if |exits| > 1 {
      MaxIsGreatest(exits[1..]);
      assert exits == [exits[0]] + exits[1..];
    }
  }

  /** Degraded, with no exit in the last five minutes. */
  predicate Cooled(s: Service, now: int) {
    s.degraded && s.exits != [] && forall e | e in s.exits :: now - e > 300_000_000
  }

  lemma {:induction false} CooledRecovers(s: Service, now: int)
    ensures Recovered(s, now) == if Cooled(s, now) then s.(degraded := false, exits := []) else s
  {
    if s.exits != [] { MaxIsGreatest(s.exits); }
  }

  /** The service is judged this turn: not degraded, or no longer. */
  predicate Judged(s: Service, now: int) {
    !s.degraded || Cooled(s, now)
  }

  /** A launch is attempted after a clean exit, or without a process once no backoff is pending. */
  predicate Attempts(s: Service, now: int, a: Answers) {
    Judged(s, now)
    && if s.running then a.poll == CleanExit else s.backoffUntil.None? || s.backoffUntil.value <= now
  }

  /** An exit is recorded for a running process that crashed, and for a launch that failed. */
  predicate Records(s: Service, now: int, a: Answers) {
    (Judged(s, now) && s.running && a.poll == Crash) || (Attempts(s, now, a) && !a.launches)
  }

  /** How long the n-th exit in sixty seconds keeps a service down. */
  function Wait(n: nat): int {
    if n <= 1 then 1_000_000
    else if n == 2 then 2_000_000 else if n == 3 then 4_000_000 else if n == 4 then 8_000_000 else 16_000_000
  }

  /**
   * One turn, field by field. A crash or failed launch adds `now` to the record (which a recovery
   * emptied), and either the sixth exit in sixty seconds degrades the service or a backoff of 1, 2,
   * 4, 8 or 16 seconds starts; a healthy process, and a degraded service, are left alone.
   */
  lemma {:induction false} TurnMeans(s: Service, now: int, a: Answers)
    ensures var o := TickEnabled(s, now, a);
            var exits := (if Cooled(s, now) then [] else s.exits) + if Records(s, now, a) then [now] else [];
            var recent := |Recent(exits, now)|;
            && o.attempted == Attempts(s, now, a) && o.recorded == Records(s, now, a)
            && o.service.exits == exits
            && (o.service.running <==>
                  (Attempts(s, now, a) && a.launches) || (s.running && (!Judged(s, now) || a.poll == Running)))
            && (o.service.degraded <==> !Judged(s, now) || (Records(s, now, a) && recent >= 6))
            && o.service.backoffUntil ==
                 if Records(s, now, a) && recent < 6 then Some(now + Wait(recent))
                 else if Attempts(s, now, a) && !a.launches then None
                 else s.backoffUntil
  {
    CooledRecovers(s, now);
    var exits := (if Cooled(s, now) then [] else s.exits);
    InWindowIs(exits + [now], now);
    InWindowSnoc(exits, now, now);
    BackoffIsSmall(exits + [now], now);
    assert Power2(0) == 1 && Power2(1) == 2 && Power2(2) == 4 && Power2(3) == 8 && Power2(4) == 16;
    assert exits + [] == exits;
  }

  /** A healthy process is left alone, and a crash leaves the service down with `now` in its record. */
  lemma {:induction false} CrashMeans(s: Service, now: int, launches: bool)
    requires s.running && !s.degraded
    ensures TickEnabled(s, now, Answers(Running, launches)) == Outcome(s, false, false)
    ensures var o := TickEnabled(s, now, Answers(Crash, launches));
            && o.recorded && !o.attempted && !o.service.running && o.service.exits == s.exits + [now]
            && (o.service.degraded || (o.service.backoffUntil.Some? && o.service.backoffUntil.value > now))
  {
    TurnMeans(s, now, Answers(Running, launches));
    TurnMeans(s, now, Answers(Crash, launches));
    InWindowIs(s.exits + [now], now);
    InWindowSnoc(s.exits, now, now);
    BackoffIsSmall(s.exits + [now], now);
  }

  /** A tracked service that is no longer enabled is stopped and forgotten. */
  function TickDisabled(s: Service): Service {
    if s.running then FRESH else s
  }

  // ---- The supervisor ---------------------------------------------------------------------------

  class ServiceSupervisor {
    var procs: set<string>
    var exits: map<string, seq<int>>
    var backoffUntil: map<string, int>
    var degraded: set<string>

    constructor ()
      ensures procs == {} && exits == map[] && backoffUntil == map[] && degraded == {}
      ensures forall pid :: View(pid) == FRESH
    {
      procs, exits, backoffUntil, degraded := {}, map[], map[], {};
    }

    ghost function View(pid: string): Service
      reads this
    {
      Service(pid in procs, if pid in exits then exits[pid] else [],
              if pid in backoffUntil then Some(backoffUntil[pid]) else None, pid in degraded)
    }

    /** Only `pid` changed, and to `s`. */
    twostate predicate Changed(pid: string, s: Service)
      reads this
    {
      View(pid) == s && forall other | other != pid :: View(other) == old(View(other))
    }

    method Record(pid: string, now: int) returns (decision: Decision)
      modifies this`exits
      ensures decision == DecideRestart(old(View(pid)).exits + [now], now)
      ensures Changed(pid, old(View(pid)).(exits := old(View(pid)).exits + [now]))
    {
      var before := if pid in exits then exits[pid] else [];
      exits := exits[pid := before + [now]];
      decision := DecideRestart(exits[pid], now);
    }

    /** `_spawn`. */
    method Spawn(pid: string, now: int, launches: bool)
      requires pid !in degraded
      modifies this
      ensures Changed(pid, Spawned(old(View(pid)), now, launches).service)
    {
      if launches {
        procs := procs + {pid};
        return;
      }
      var decision := Record(pid, now);
      match decision {
        case Degrade =>
          degraded := degraded + {pid};
          backoffUntil := backoffUntil - {pid};
        case Restart(backoff) =>
          backoffUntil := backoffUntil[pid := now + backoff];
      }
    }

    /** Auto-recovery of a degraded service. */
    method Recover(pid: string, now: int)
      modifies this
      ensures Changed(pid, Recovered(old(View(pid)), now))
    {
      if pid in degraded {
        var last := if pid in exits then exits[pid] else [];
        if last != [] && now - MaxOf(last) > DEGRADED_RECOVERY_COOLDOWN {
          degraded := degraded - {pid};
          exits := exits - {pid};
        }
      }
    }

    /** A tracked process was observed dead. */
    method Bury(pid: string, now: int, a: Answers) returns (settled: bool)
      requires pid in procs && pid !in degraded && a.poll != Running
      modifies this
      ensures settled <==> a.poll == CleanExit || View(pid).degraded
      ensures a.poll == CleanExit ==> Changed(pid, Spawned(old(View(pid)).(running := false), now, a.launches).service)
      ensures a.poll == Crash ==> Changed(pid, Recorded(old(View(pid)).(running := false), now))
    {
      procs := procs - {pid};
      ghost var s := View(pid);
      assert s == old(View(pid)).(running := false) && forall other | other != pid :: View(other) == old(View(other));
      if a.poll == CleanExit {
        Spawn(pid, now, a.launches);
        return true;
      }
      var decision := Record(pid, now);
      match decision {
        case Degrade =>
          degraded := degraded + {pid};
          assert View(pid) == Recorded(s, now);
          return true;
        case Restart(backoff) =>
          backoffUntil := backoffUntil[pid := now + backoff];
          assert View(pid) == Recorded(s, now);
          return false;
      }
    }

    /** The turn of one enabled service in `tick`. */
    method TickOne(pid: string, now: int, a: Answers)
      modifies this
      ensures Changed(pid, TickEnabled(old(View(pid)), now, a).service)
    {
      Recover(pid, now);
      if pid in degraded { return; }
      if pid in procs {
        if a.poll == Running { return; }
        var settled := Bury(pid, now, a);
        if settled { return; }
      }
      var until := if pid in backoffUntil then backoffUntil[pid] else now;
      if now >= until { Spawn(pid, now, a.launches); }
    }

    /** `tick`: every service takes its own turn. */
    method Tick(now: int, enabled: set<string>, answers: string -> Answers)
      modifies this
      ensures forall pid :: View(pid) ==
                if pid in enabled then TickEnabled(old(View(pid)), now, answers(pid)).service
                else if old(View(pid)).running then Service(false, [], None, false)
                else old(View(pid))
    {
      var stale := procs - enabled;
      procs := procs - stale;
      exits := exits - stale;
      backoffUntil := backoffUntil - stale;
      degraded := degraded - stale;
      assert forall pid :: View(pid) == if pid in enabled then old(View(pid)) else TickDisabled(old(View(pid)));
      hide TickEnabled, TickDisabled;
      var todo := enabled;
      while todo != {}
        invariant todo <= enabled
        invariant forall pid | pid in todo :: View(pid) == old(View(pid))
        invariant forall pid | pid in enabled - todo ::
                    View(pid) == TickEnabled(old(View(pid)), now, answers(pid)).service
        invariant forall pid | pid !in enabled :: View(pid) == TickDisabled(old(View(pid)))
        decreases |todo|
      {
        var pid :| pid in todo;
        TickOne(pid, now, answers(pid));
        todo := todo - {pid};
      }
    }

    /** `shutdown_all`: no process is tracked any more; what is known of crashes stays. */
    method ShutdownAll()
      modifies this`procs
      ensures forall pid :: View(pid) == old(View(pid)).(running := false)
    {
      procs := {};
    }
  }

  // ---- Runs of ticks ------------------------------------------------------------------------------

  datatype Tick = Tick(now: int, enabled: bool, answers: Answers)

  /** A service with every exit it recorded since it was last wiped, and the last tick's time. */
  datatype History = History(service: Service, log: seq<int>, clock: int)

  function Step(h: History, t: Tick): History {
    if t.enabled then
      var o := TickEnabled(h.service, t.now, t.answers);
      History(o.service, if o.recorded then h.log + [t.now] else h.log, t.now)
    else History(TickDisabled(h.service), if h.service.running then [] else h.log, t.now)
  }

  function After(ticks: seq<Tick>, start: int): History {
    if ticks == [] then History(FRESH, [], start) else Step(After(ticks[..|ticks| - 1], start), ticks[|ticks| - 1])
  }

  function TimeBefore(ticks: seq<Tick>, start: int, i: nat): int
    requires i < |ticks|
  {
    if i == 0 then start else ticks[i - 1].now
  }

  predicate Nondecreasing(ticks: seq<Tick>, start: int) {
    forall i | 0 <= i < |ticks| :: TimeBefore(ticks, start, i) <= ticks[i].now
  }

  predicate Sorted(s: seq<int>) {
    forall i, j | 0 <= i < j < |s| :: s[i] <= s[j]
  }

  /** Any seven exits in a row span more than the window. */
  predicate Sparse(log: seq<int>) {
    forall i, j | 0 <= i && j == i + 6 < |log| :: log[j] - log[i] > CRASH_WINDOW
  }

  /** The exits in force end the log; what came before them is more than a cooldown older. */
  predicate Suffix(exits: seq<int>, log: seq<int>, clock: int) {
    && |exits| <= |log| && exits == log[|log| - |exits|..]
    && forall i | 0 <= i < |log| - |exits| ::
         (if exits == [] then clock else exits[0]) - log[i] > DEGRADED_RECOVERY_COOLDOWN
  }

  predicate Calm(s: Service) {
    s.exits != [] && !s.degraded ==> InWindow(s.exits, s.exits[|s.exits| - 1]) <= 5
  }

  predicate BackoffBounded(s: Service) {
    s.backoffUntil.Some? && s.exits != [] ==> s.backoffUntil.value <= s.exits[|s.exits| - 1] + 16 * SECOND
  }

  /** The invariant of a service over any run of ticks. */
  predicate Inv(h: History) {
    var s := h.service;
    && Sorted(h.log) && (h.log != [] ==> h.log[|h.log| - 1] <= h.clock) && Sparse(h.log)
    && Suffix(s.exits, h.log, h.clock)
    && Calm(s) && BackoffBounded(s)
    && (s.degraded ==> !s.running && s.exits != [])
    && (s.backoffUntil.Some? ==> s.backoffUntil.value <= h.clock + 16 * SECOND)
  }

  lemma {:induction false} InWindowShrinks(exits: seq<int>, now: int, later: int)
    requires now <= later
    ensures InWindow(exits, later) <= InWindow(exits, now)
  {
    if exits != [] { InWindowShrinks(exits[1..], now, later); }
  }

  lemma {:induction false} InWindowCounts(exits: seq<int>, now: int, k: nat)
    requires k <= |exits| && forall i | |exits| - k <= i < |exits| :: now - exits[i] <= CRASH_WINDOW
    ensures InWindow(exits, now) >= k
    decreases |exits|
  {
    if k > 0 {
      var last := |exits| - 1;
      InWindowCounts(exits[..last], now, k - 1);
      InWindowSnoc(exits[..last], exits[last], now);
      assert exits == exits[..last] + [exits[last]];
    }
  }

  lemma {:induction false} SortedMax(exits: seq<int>)
    requires exits != [] && Sorted(exits)
    ensures MaxOf(exits) == exits[|exits| - 1]
  {
    if |exits| > 1 {
      assert Sorted(exits[1..]) by { assert forall i | 0 <= i < |exits| - 1 :: exits[1..][i] == exits[i + 1]; }
      SortedMax(exits[1..]);
    }
  }

  lemma {:induction false} SuffixIsSorted(h: History)
    requires Inv(h)
    ensures Sorted(h.service.exits)
    ensures h.service.exits != [] ==> h.log != [] && h.service.exits[|h.service.exits| - 1] == h.log[|h.log| - 1]
  {
    var k := |h.log| - |h.service.exits|;
    assert forall i | 0 <= i < |h.service.exits| :: h.service.exits[i] == h.log[k + i];
  }

  /** One more exit keeps the log sparse: six in the window already would have degraded the service. */
  lemma {:induction false} LogStaysSparse(exits: seq<int>, log: seq<int>, now: int)
    requires Sorted(log) && Sparse(log) && Suffix(exits, log, now) && InWindow(exits, now) <= 5
    requires log != [] ==> log[|log| - 1] <= now
    ensures Sparse(log + [now]) && Sorted(log + [now])
  {
    if |log| >= 6 { LastSevenSpan(exits, log, now); }
  }

  lemma {:induction false} LastSevenSpan(exits: seq<int>, log: seq<int>, now: int)
    requires Sorted(log) && Suffix(exits, log, now) && InWindow(exits, now) <= 5 && |log| >= 6 && log[|log| - 1] <= now
    ensures now - log[|log| - 6] > CRASH_WINDOW
  {
    var k, first := |log| - |exits|, log[|log| - 6];
    if |log| - 6 < k {
      assert (if exits == [] then now else exits[0]) - first > DEGRADED_RECOVERY_COOLDOWN;
      assert exits != [] ==> exits[0] == log[k];
    } else if now - first <= CRASH_WINDOW {
      forall i | |exits| - 6 <= i < |exits| ensures now - exits[i] <= CRASH_WINDOW {
        assert exits[i] == log[k + i] && first <= log[k + i];
      }
      InWindowCounts(exits, now, 6);
    }
  }

  lemma {:induction false} SuffixGrows(exits: seq<int>, log: seq<int>, clock: int, now: int)
    requires Suffix(exits, log, clock) && clock <= now
    ensures Suffix(exits + [now], log + [now], now)
  {
    var next := exits + [now];
    assert next == (log + [now])[|log| - |exits|..];
  }

  lemma {:induction false} RecordedKeeps(h: History, now: int)
    requires Inv(h) && h.clock <= now && !h.service.degraded && !h.service.running
    ensures Inv(History(Recorded(h.service, now), h.log + [now], now))
    ensures InWindow(h.service.exits + [now], now) > 0
  {
    var s := h.service;
    SuffixIsSorted(h);
    if s.exits != [] { InWindowShrinks(s.exits, s.exits[|s.exits| - 1], now); }
    InWindowSnoc(s.exits, now, now);
    SuffixLater(s.exits, h.log, h.clock, now);
    LogStaysSparse(s.exits, h.log, now);
    SuffixGrows(s.exits, h.log, h.clock, now);
    BackoffIsSmall(s.exits + [now], now);
  }

  lemma SuffixLater(exits: seq<int>, log: seq<int>, clock: int, now: int)
    requires Suffix(exits, log, clock) && clock <= now
    ensures Suffix(exits, log, now)
  {
  }

  lemma {:induction false} RecoveredKeeps(h: History, now: int)
    requires Inv(h) && h.clock <= now
    ensures Inv(History(Recovered(h.service, now), h.log, now))
  {
    var s := h.service;
    SuffixIsSorted(h);
    SuffixLater(s.exits, h.log, h.clock, now);
    if s.degraded && s.exits != [] {
      SortedMax(s.exits);
      if now - MaxOf(s.exits) > DEGRADED_RECOVERY_COOLDOWN {
        forall i | 0 <= i < |h.log| ensures now - h.log[i] > DEGRADED_RECOVERY_COOLDOWN {
          assert h.log[i] <= h.log[|h.log| - 1];
        }
      }
    }
  }

  lemma {:induction false} SpawnedKeeps(h: History, now: int, launches: bool)
    requires Inv(h) && h.clock <= now && !h.service.degraded && !h.service.running
    ensures var o := Spawned(h.service, now, launches);
            Inv(History(o.service, if o.recorded then h.log + [now] else h.log, now))
  {
    SuffixLater(h.service.exits, h.log, h.clock, now);
    RecordedKeeps(h, now);
  }

  /** A backoff just set keeps the same tick from launching again: a tick records at most one exit. */
  lemma {:induction false} NoLaunchAfterCrash(h: History, now: int)
    requires Inv(h) && h.clock <= now && !h.service.degraded && !h.service.running
    ensures var r := Recorded(h.service, now); r.degraded || !MayLaunch(r, now)
  {
    RecordedKeeps(h, now);
    BackoffIsSmall(h.service.exits + [now], now);
  }

  lemma StoppedKeeps(h: History)
    requires Inv(h)
    ensures Inv(h.(service := h.service.(running := false)))
  {
  }

  /** What is left of a turn once the service is neither degraded nor running. */
  lemma {:induction false} LaunchKeeps(h: History, now: int, launches: bool)
    requires Inv(h) && h.clock <= now && !h.service.degraded && !h.service.running
    ensures var o := Launch(h.service, now, launches, false);
            Inv(History(o.service, if o.recorded then h.log + [now] else h.log, now))
  {
    SpawnedKeeps(h, now, launches);
    SuffixLater(h.service.exits, h.log, h.clock, now);
  }

  lemma {:induction false} EnabledKeeps(h: History, now: int, a: Answers)
    requires Inv(h) && h.clock <= now
    ensures var o := TickEnabled(h.service, now, a);
            Inv(History(o.service, if o.recorded then h.log + [now] else h.log, now))
  {
    hide Inv, Recovered, Recorded, Spawned, MayLaunch;
    RecoveredKeeps(h, now);
    var h1 := History(Recovered(h.service, now), h.log, now);
    if !h1.service.degraded {
      var h2 := h1.(service := h1.service.(running := false));
      StoppedKeeps(h1);
      if !h1.service.running {
        LaunchKeeps(h1, now, a.launches);
      } else if a.poll == CleanExit {
        SpawnedKeeps(h2, now, a.launches);
      } else if a.poll == Crash {
        RecordedKeeps(h2, now);
        NoLaunchAfterCrash(h2, now);
      }
    }
  }

  lemma {:induction false} StepKeeps(h: History, t: Tick)
    requires Inv(h) && h.clock <= t.now
    ensures Inv(Step(h, t)) && Step(h, t).clock == t.now
  {
    EnabledKeeps(h, t.now, t.answers);
    SuffixLater(h.service.exits, h.log, h.clock, t.now);
  }

  lemma StartInv(start: int)
    ensures Inv(History(FRESH, [], start))
  {
  }

  lemma {:induction false} RunKeeps(ticks: seq<Tick>, start: int)
    requires Nondecreasing(ticks, start)
    ensures Inv(After(ticks, start))
    ensures After(ticks, start).clock == if ticks == [] then start else ticks[|ticks| - 1].now
    decreases |ticks|
  {
    hide Inv, Step;
    if ticks == [] {
      StartInv(start);
    } else {
      var init, last := ticks[..|ticks| - 1], ticks[|ticks| - 1];
      assert Nondecreasing(init, start) by {
        forall i | 0 <= i < |init| ensures TimeBefore(init, start, i) <= init[i].now {
          assert TimeBefore(init, start, i) == TimeBefore(ticks, start, i) <= ticks[i].now;
        }
      }
      RunKeeps(init, start);
      assert TimeBefore(ticks, start, |ticks| - 1) <= last.now;
      StepKeeps(After(init, start), last);
    }
  }

  /**
   * Over any run of ticks with a clock that does not run backwards: any closed window of sixty
   * seconds holds at most six recorded crashes or launch failures (since the last wipe); a degraded
   * service has no process and a record of exits; no backoff reaches further than sixteen seconds.
   */
  lemma {:induction false} SupervisionIsSafe(ticks: seq<Tick>, start: int)
    requires Nondecreasing(ticks, start)
    ensures var h := After(ticks, start);
            && (forall i, j | 0 <= i && i + 6 <= j < |h.log| :: h.log[j] - h.log[i] > CRASH_WINDOW)
            && (h.service.degraded ==> !h.service.running && h.service.exits != [])
            && (h.service.backoffUntil.Some? ==> h.service.backoffUntil.value <= h.clock + 16 * SECOND)
  {
    RunKeeps(ticks, start);
    var log := After(ticks, start).log;
    forall i, j | 0 <= i && i + 6 <= j < |log| ensures log[j] - log[i] > CRASH_WINDOW {
      assert log[i + 6] - log[i] > CRASH_WINDOW && log[i + 6] <= log[j];
    }
  }

  /** The first tick more than five minutes after a degraded service's last crash tries to start it
   * again -- and no earlier one does. */
  lemma {:induction false} DegradedRecovers(ticks: seq<Tick>, start: int, t: Tick)
    requires Nondecreasing(ticks, start) && After(ticks, start).clock <= t.now && t.enabled
             && After(ticks, start).service.degraded
    ensures var h := After(ticks, start);
            && h.log != []
            && (TickEnabled(h.service, t.now, t.answers).attempted <==>
                  t.now - h.log[|h.log| - 1] > DEGRADED_RECOVERY_COOLDOWN)
            && (t.now - h.log[|h.log| - 1] > DEGRADED_RECOVERY_COOLDOWN ==>
                  !TickEnabled(h.service, t.now, t.answers).service.degraded)
  {
    var h := After(ticks, start);
    RunKeeps(ticks, start);
    SuffixIsSorted(h);
    SortedMax(h.service.exits);
    var s := Recovered(h.service, t.now);
    if !s.degraded {
      assert MayLaunch(s, t.now);
      assert [] + [t.now] == [t.now] && InWindow([t.now], t.now) == 1;
    }
  }

  /**
   * Over any run, an exit the next tick records degrades the service exactly if it is the sixth
   * since the last wipe within sixty seconds: a service that dies at every tick does not go on.
   */
  lemma {:induction false} SixthExitDegrades(ticks: seq<Tick>, start: int, t: Tick)
    requires Nondecreasing(ticks, start) && After(ticks, start).clock <= t.now && t.enabled
    requires TickEnabled(After(ticks, start).service, t.now, t.answers).recorded
    ensures var log, next := After(ticks, start).log, Step(After(ticks, start), t);
            && next.log == log + [t.now] && !next.service.running
            && (next.service.degraded <==> |log| >= 5 && t.now - log[|log| - 5] <= 60_000_000)
  {
    hide Inv, After, Step, TickEnabled;
    RunKeeps(ticks, start);
    SixthExit(After(ticks, start), t);
  }

  lemma {:induction false} SixthExit(h: History, t: Tick)
    requires Inv(h) && h.clock <= t.now && t.enabled && TickEnabled(h.service, t.now, t.answers).recorded
    ensures var next := Step(h, t);
            && next.log == h.log + [t.now] && !next.service.running
            && (next.service.degraded <==> |h.log| >= 5 && t.now - h.log[|h.log| - 5] <= 60_000_000)
  {
    hide Inv, TickEnabled, Recovered, Recent;
    var s := Recovered(h.service, t.now);
    TurnMeans(h.service, t.now, t.answers);
    RecoveredKeeps(h, t.now);
    CooledRecovers(h.service, t.now);
    InWindowIs(s.exits + [t.now], t.now);
    SixInWindow(History(s, h.log, t.now), t.now);
  }

  lemma {:induction false} SixInWindow(h: History, now: int)
    requires Inv(h) && h.clock == now && !h.service.degraded
    ensures InWindow(h.service.exits + [now], now) >= 6 <==> |h.log| >= 5 && now - h.log[|h.log| - 5] <= CRASH_WINDOW
  {
    var exits, log := h.service.exits, h.log;
    SuffixIsSorted(h);
    InWindowSnoc(exits, now, now);
    FiveInWindow(exits, now);
    var k := |log| - |exits|;
    if |exits| >= 5 {
      assert exits[|exits| - 5] == log[|log| - 5];
    } else if |log| >= 5 {
      assert (if exits == [] then now else exits[0]) - log[|log| - 5] > DEGRADED_RECOVERY_COOLDOWN;
      if exits != [] { assert exits[0] == log[k] && log[k] <= log[|log| - 1] <= now; }
    }
  }

  lemma {:induction false} FiveInWindow(exits: seq<int>, now: int)
    requires Sorted(exits)
    ensures InWindow(exits, now) >= 5 <==> |exits| >= 5 && now - exits[|exits| - 5] <= CRASH_WINDOW
  {
    InWindowBound(exits, now);
    if |exits| >= 5 {
      if now - exits[|exits| - 5] <= CRASH_WINDOW {
        InWindowCounts(exits, now, 5);
      } else {
        OldOnesDoNotCount(exits, now, |exits| - 4);
      }
    }
  }

  lemma {:induction false} InWindowBound(exits: seq<int>, now: int)
    ensures InWindow(exits, now) <= |exits|
  {
    if exits != [] { InWindowBound(exits[1..], now); }
  }

  lemma {:induction false} OldOnesDoNotCount(exits: seq<int>, now: int, k: nat)
    requires k <= |exits| && forall i | 0 <= i < k :: now - exits[i] > CRASH_WINDOW
    ensures InWindow(exits, now) <= |exits| - k
  {
    if k == 0 {
      InWindowBound(exits, now);
    } else {
      OldOnesDoNotCount(exits[1..], now, k - 1);
    }
  }
}
