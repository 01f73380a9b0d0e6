/**
 * The configuration protocol gets somewhere (packages/collect/fulcra_collect/config.py): a save, an
 * invalidation and an account transition that no one else locks out run to their end, step by step.
 */
module ConfigProgress {
  import opened Wrappers
  import opened ConfigMerge
  import opened ConfigStore
  import opened ConfigProtocol

  // ---- A publication that can be made ------------------------------------------------------------

  /** Distinct uuids for the plugins, drawn from `next` on. */
  lemma {:induction false} Draw(plugins: set<string>, next: nat) returns (drawn: Epochs)
    ensures drawn.Keys == plugins
    ensures forall p | p in plugins :: next <= drawn[p] < next + |plugins|
    ensures forall p, q | p in plugins && q in plugins && p != q :: drawn[p] != drawn[q]
    decreases |plugins|
  {
    if plugins == {} {
      drawn := map[];
    } else {
      var p :| p in plugins;
      var rest := Draw(plugins - {p}, next);
      drawn := rest[p := next + |plugins| - 1];
    }
  }

  /** The epochs a save publishes that draws `drawn`. */
  function Combined(before: Epochs, rotated: set<string>, pending: Epochs, drawn: Epochs): (after: Epochs)
    requires rotated <= pending.Keys
    ensures after.Keys == before.Keys + rotated + drawn.Keys
    ensures forall p | p in after ::
              after[p] == if p in drawn then drawn[p] else if p in rotated then pending[p] else before[p]
  {
    map p | p in before.Keys + rotated + drawn.Keys ::
      if p in drawn then drawn[p] else if p in rotated then pending[p] else before[p]
  }

  lemma DrawnOnesAreNew(before: Epochs, rotated: set<string>, pending: Epochs, drawn: Epochs, next: nat, next': nat)
    requires rotated <= pending.Keys
    requires forall p | p in drawn :: next <= drawn[p] < next'
    requires forall p, q | p in drawn && q in drawn && p != q :: drawn[p] != drawn[q]
    ensures var after := Combined(before, rotated, pending, drawn);
            && (forall p | p in drawn.Keys :: next <= after[p] < next')
            && (forall p, q | p in drawn.Keys && q in drawn.Keys && p != q :: after[p] != after[q])
  {
  }

  lemma OtherOnesStay(before: Epochs, rotated: set<string>, pending: Epochs, drawn: Epochs)
    requires rotated <= pending.Keys
    ensures var after := Combined(before, rotated, pending, drawn);
            && (forall p | p in rotated - drawn.Keys :: after[p] == pending[p])
            && (forall p | p in before.Keys - rotated - drawn.Keys :: after[p] == before[p])
  {
  }

  lemma {:induction false} CanMoveEpochs(before: Epochs, rotated: set<string>, pending: Epochs, changed: set<string>,
                                         next: nat)
    returns (after: Epochs, next': nat)
    requires rotated <= pending.Keys
    ensures EpochsPublished(before, rotated, pending, changed, next, next', after)
  {
    var drawn := Draw(changed, next);
    next' := next + |changed|;
    DrawnOnesAreNew(before, rotated, pending, drawn, next, next');
    OtherOnesStay(before, rotated, pending, drawn);
    hide Combined;
    after := Combined(before, rotated, pending, drawn);
  }

  lemma {:induction false} CanPublish(doc: Doc, v: View, override: Option<bool>, next: nat)
    returns (doc': Doc, v': View, next': nat)
    requires RotationsPending(v) && MergedSettings(v.baseline, v.settings, doc.settings, v.intents).Merged?
    ensures Published(doc, v, override, next, doc', v', next')
  {
    hide MergedSettings, EpochsPublished, Changed;
    var settings := MergedSettings(v.baseline, v.settings, doc.settings, v.intents).value;
    var epochs: Epochs;
    epochs, next' := CanMoveEpochs(doc.epochs, v.rotated, v.epochs, Changed(doc.settings, settings), next);
    doc' := Doc(settings, epochs, if override.Some? then override.value else doc.gate);
    v' := Loaded(doc');
  }

  lemma {:induction false} CanRotate(doc: Doc, targets: set<string>, next: nat) returns (v: View, next': nat)
    ensures RotatedFrom(doc, targets, next, v, next') && RotationsPending(v)
  {
    var drawn := Draw(targets, next);
    var epochs: Epochs := map p | p in doc.epochs.Keys + targets :: if p in targets then drawn[p] else doc.epochs[p];
    v, next' := Loaded(doc).(epochs := epochs, rotated := targets), next + |targets|;
  }

  // ---- One save --------------------------------------------------------------------------------------

  /** The others are where they were. */
  predicate OnlyMoves(s: State, s': State, i: nat) {
    |s'.procs| == |s.procs| && forall j | 0 <= j < |s.procs| && j != i :: s'.procs[j] == s.procs[j]
  }

  lemma FreeStays(s: State, s': State, i: nat)
    requires OnlyMoves(s, s', i)
    ensures forall exclusive :: ConfigFreeFor(s, i, exclusive) ==> ConfigFreeFor(s', i, exclusive)
    ensures forall exclusive :: AccountFreeFor(s, i, exclusive) ==> AccountFreeFor(s', i, exclusive)
  {
  }

  /** The state after a publication. */
  ghost function Replaced(s: State, i: nat, job: Job, doc: Doc, v: View, next: nat): State
    requires i < |s.procs|
  {
    s.(doc := doc, next := next, procs := s.procs[i := Exiting(job, v)],
       published := s.published + set plugin | plugin in doc.epochs :: (plugin, doc.epochs[plugin]))
  }

  lemma ReplacedIsStep(s: State, i: nat, doc: Doc, v: View, next: nat)
    requires i < |s.procs| && s.procs[i].Merging? && RotationsPending(s.procs[i].v)
    requires Published(s.procs[i].base, s.procs[i].v, Override(s.procs[i].job), s.next, doc, v, next)
    ensures Step(s, Replaced(s, i, s.procs[i].job, doc, v, next), i)
  {
    assert PublishStep(s, Replaced(s, i, s.procs[i].job, doc, v, next), i);
  }

  /** A save whose edits do not clash, and that no one else locks out, publishes the merge in four steps. */
  lemma {:induction false} UnobstructedSavePublishes(s: State, i: nat)
    returns (a: State, b: State, c: State, d: State)
    requires i < |s.procs| && s.procs[i].Editing? && RotationsPending(s.procs[i].v) && ConfigFreeFor(s, i, true)
    requires var v := s.procs[i].v; MergedSettings(v.baseline, v.settings, s.doc.settings, v.intents).Merged?
    ensures |a.procs| == |b.procs| == |c.procs| == |d.procs| == |s.procs|
    ensures Step(s, a, i) && Step(a, b, i) && Step(b, c, i) && Step(c, d, i) && OnlyMoves(s, d, i)
    ensures var v := s.procs[i].v;
            && Merged(d.doc.settings) == MergedSettings(v.baseline, v.settings, s.doc.settings, v.intents)
            && d.doc.gate == s.doc.gate && d.procs[i] == Editing(Loaded(d.doc))
  {
    var v := s.procs[i].v;
    a := s.(procs := s.procs[i := Waiting(Save, v)]);
    assert EditStep(s, a, i);
    FreeStays(s, a, i);
    b := a.(procs := a.procs[i := Merging(Save, v, a.doc)]);
    assert GrantSave(a, b, i);
    var doc', v', n := CanPublish(b.doc, v, None, b.next);
    ReplacedIsStep(b, i, doc', v', n);
    c := Replaced(b, i, Save, doc', v', n);
    d := c.(procs := c.procs[i := Editing(v')]);
    assert ReleaseSave(c, d, i);
  }

  /** A rotation that waits for the lock and is not locked out publishes in two steps. */
  lemma {:induction false} RotationPublishes(s: State, i: nat) returns (a: State, b: State)
    requires i < |s.procs| && s.procs[i].Waiting? && !s.procs[i].job.Save? && ConfigFreeFor(s, i, true)
    ensures |a.procs| == |b.procs| == |s.procs| && Step(s, a, i) && Step(a, b, i) && OnlyMoves(s, b, i)
    ensures b.procs[i] == Exiting(s.procs[i].job, Loaded(b.doc)) && b.account == s.account
    ensures b.doc.settings == s.doc.settings
            && b.doc.gate == (match s.procs[i].job case CloseGate => true case OpenGate => false case _ => s.doc.gate)
    ensures forall plugin | plugin in Targets(s.procs[i].job, s.doc) ::
              plugin in b.doc.epochs && s.next <= b.doc.epochs[plugin] < b.next
    ensures forall plugin | plugin !in Targets(s.procs[i].job, s.doc) ::
              EpochOf(b.doc, plugin) == EpochOf(s.doc, plugin)
    ensures s.next <= b.next
  {
    var job := s.procs[i].job;
    var targets := Targets(job, s.doc);
    var v, n := CanRotate(s.doc, targets, s.next);
    a := s.(next := n, procs := s.procs[i := Merging(job, v, s.doc)]);
    assert GrantSave(s, a, i);
    SettingsOverBaseline(s.doc.settings, s.doc.settings, NO_INTENTS);
    var doc', v', n' := CanPublish(a.doc, v, Override(job), a.next);
    assert Changed(s.doc.settings, doc'.settings) == {};
    ReplacedIsStep(a, i, doc', v', n');
    b := Replaced(a, i, job, doc', v', n');
  }

  /** A process may die at any point; the document stays, a closed gate closed. */
  lemma AnyoneMayDie(s: State, i: nat)
    requires i < |s.procs|
    ensures Step(s, s.(procs := s.procs[i := Idle]), i)
  {
  }

  // ---- A whole transition -----------------------------------------------------------------------------

  /** Steps of process `i` alone. */
  ghost predicate Path(run: seq<State>, i: nat) {
    && (forall k | 0 <= k < |run| :: i < |run[k].procs|)
    && forall k, l {:trigger run[k], run[l]} | 0 <= k && l == k + 1 < |run| :: Step(run[k], run[l], i)
  }

  lemma {:induction false} OneMoreStep(run: seq<State>, i: nat, next: State)
    requires Path(run, i) && run != [] && Step(run[|run| - 1], next, i) && i < |next.procs|
    ensures Path(run + [next], i)
  {
    hide Step;
    var all := run + [next];
    forall k, l | 0 <= k && l == k + 1 < |all| ensures Step(all[k], all[l], i) {
      assert all[k] == run[k] && (l < |run| ==> all[l] == run[l]);
    }
  }

  lemma {:induction false} PathsJoin(a: seq<State>, b: seq<State>, i: nat)
    requires Path(a, i) && Path(b, i) && a != [] && b != [] && Step(a[|a| - 1], b[0], i)
    ensures Path(a + b, i)
  {
    hide Step;
    var all := a + b;
    forall k, l | 0 <= k && l == k + 1 < |all| ensures Step(all[k], all[l], i) {
      if l < |a| {
        assert all[k] == a[k] && all[l] == a[l];
      } else if k >= |a| {
        assert all[k] == b[k - |a|] && all[l] == b[l - |a|];
      } else {
        assert all[k] == a[|a| - 1] && all[l] == b[0];
      }
    }
  }

  lemma {:induction false} ThreeSteps(s: State, a: State, b: State, i: nat)
    requires i < |s.procs| == |a.procs| == |b.procs| && Step(s, a, i) && Step(a, b, i)
    ensures Path([s, a, b], i)
  {
    hide Step;
    assert [s, a, b][0] == s && [s, a, b][1] == a && [s, a, b][2] == b;
  }

  /** The first save of a transition, from Idle to the token change. */
  lemma {:induction false} GateCloses(s: State, i: nat) returns (run: seq<State>)
    requires i < |s.procs| && s.procs[i].Idle? && ConfigFreeFor(s, i, true) && AccountFreeFor(s, i, true)
    ensures |run| == 6 && Path(run, i) && run[0] == s && OnlyMoves(s, run[5], i)
    ensures run[5].procs[i].Mutating? && run[5].doc.gate && run[5].account == s.account && s.next <= run[5].next
    ensures run[5].doc.settings == s.doc.settings && KnownPlugins(s.doc) <= run[5].doc.epochs.Keys
  {
    var nothing := Loaded(EmptyDoc());
    var s1 := s.(procs := s.procs[i := WantTransition]);
    assert TransitionStep(s, s1, i);
    FreeStays(s, s1, i);
    var s2 := s1.(procs := s1.procs[i := Waiting(CloseGate, nothing)]);
    assert TransitionStep(s1, s2, i);
    FreeStays(s, s2, i);
    var s3, s4 := RotationPublishes(s2, i);
    var s5 := s4.(procs := s4.procs[i := Mutating]);
    assert ReleaseSave(s4, s5, i);
    hide Step, ConfigFreeFor, AccountFreeFor, Path;
    ThreeSteps(s, s1, s2, i);
    ThreeSteps(s3, s4, s5, i);
    PathsJoin([s, s1, s2], [s3, s4, s5], i);
    run := [s, s1, s2] + [s3, s4, s5];
  }

  /** The second, from the changed token to Idle. */
  lemma {:induction false} GateOpens(s: State, i: nat) returns (run: seq<State>)
    requires i < |s.procs| && s.procs[i].Mutating? && ConfigFreeFor(s, i, true)
    ensures |run| == 5 && Path(run, i) && run[0] == s && OnlyMoves(s, run[4], i)
    ensures run[4].procs[i].Idle? && !run[4].doc.gate && run[4].account == s.account
    ensures run[4].doc.settings == s.doc.settings
    ensures forall plugin | plugin in KnownPlugins(s.doc) ::
              plugin in run[4].doc.epochs && s.next <= run[4].doc.epochs[plugin]
  {
    var s1 := s.(procs := s.procs[i := Waiting(OpenGate, Loaded(EmptyDoc()))]);
    assert TransitionStep(s, s1, i);
    FreeStays(s, s1, i);
    var s2, s3 := RotationPublishes(s1, i);
    var s4 := s3.(procs := s3.procs[i := Idle]);
    assert ReleaseSave(s3, s4, i);
    hide Step, ConfigFreeFor, AccountFreeFor, Path;
    ThreeSteps(s, s1, s2, i);
    OneMoreStep([s, s1, s2], i, s3);
    OneMoreStep([s, s1, s2] + [s3], i, s4);
    run := [s, s1, s2] + [s3] + [s4];
  }

  /**
   * An account transition that no one else locks out runs to its end: it closes the gate, changes the
   * token behind it, and opens it again; every plugin the document knows then has a new epoch.
   */
  lemma {:induction false} UnobstructedTransitionCompletes(s: State, i: nat, account: int) returns (run: seq<State>)
    requires i < |s.procs| && s.procs[i].Idle? && ConfigFreeFor(s, i, true) && AccountFreeFor(s, i, true)
    ensures |run| == 11 && Path(run, i) && run[0] == s
    ensures run[5].procs[i].Mutating? && run[5].doc.gate && run[5].account == s.account
    ensures run[6].doc == run[5].doc && run[6].account == account
    ensures run[10].procs[i].Idle? && !run[10].doc.gate && run[10].account == account
            && OnlyMoves(s, run[10], i)
    ensures run[10].doc.settings == s.doc.settings
    ensures forall plugin | plugin in KnownPlugins(s.doc) ::
              plugin in run[10].doc.epochs && s.next <= run[10].doc.epochs[plugin]
  {
    var closing := GateCloses(s, i);
    var s5 := closing[5];
    var s6 := s5.(account := account);
    assert TransitionStep(s5, s6, i);
    FreeStays(s, s6, i);
    var opening := GateOpens(s6, i);
    hide Step, ConfigFreeFor, AccountFreeFor, Path;
    PathsJoin(closing, opening, i);
    run := closing + opening;
    assert run[6] == opening[0] && run[10] == opening[4] && run[5] == closing[5];
  }
}
