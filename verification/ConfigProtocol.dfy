/**
 * The configuration store as a protocol between processes
 * (packages/collect/fulcra_collect/config.py, config_leases.py and the Reminders consent check).
 *
 * Savers, account transitions and task workers interleave step by step over one document, one
 * account token and two file locks.  A lock is held exactly while its holder's program counter
 * says so, so a crash (any process, any step) releases what the operating system would release.
 * Saving takes `config.lock` exclusively; a transition takes `.account-transition.lock`
 * exclusively around two saves and the token change between them; a worker takes both locks
 * shared, account first, around its final consent check and the external write.
 */
module ConfigProtocol {
  import opened Wrappers
  import opened ConfigMerge
  import opened ConfigStore
  import opened TextLines

  // ---- The consent check --------------------------------------------------------------------

  /** `selected_lists`: distinct non-blank names, or a refusal. */
  function SelectedLists(v: Option<Value>): Option<set<string>> {
    if v.None? then Some({})
    else if !v.value.Items? then None
    else
      var items := v.value.items;
      if (forall i | 0 <= i < |items| :: items[i].Text? && !Blank(items[i].s))
         && (forall i, j | 0 <= i < j < |items| :: items[i] != items[j])
      then Some(set i | 0 <= i < |items| :: items[i].s)
      else None
  }

  /** `current_selection`: the lists a write may touch now; none while gated, disabled, previewing or stale. */
  function CurrentSelection(doc: Doc, plugin: string, epoch: Option<nat>): Option<set<string>> {
    if doc.gate || plugin !in doc.settings.enabled
       || FieldAt(doc.settings.plugins, plugin, "dry_run") != Some(Flag(false))
       || EpochOf(doc, plugin) != epoch
    then Some({})
    else SelectedLists(FieldAt(doc.settings.plugins, plugin, "selected_lists"))
  }

  /** The plugin is enabled, off preview and past no newer epoch, and no transition is under way. */
  predicate Open(doc: Doc, plugin: string, epoch: Option<nat>) {
    && !doc.gate && plugin in doc.settings.enabled && EpochOf(doc, plugin) == epoch
    && FieldAt(doc.settings.plugins, plugin, "dry_run") == Some(Flag(false))
  }

  /** No list, or a list with an entry that is no text, blank or given twice. */
  ghost predicate NoNames(v: Value) {
    !v.Items? || (exists item | item in v.items :: !item.Text? || Blank(item.s))
    || exists i, j | 0 <= i < j < |v.items| :: v.items[i] == v.items[j]
  }

  /**
   * The check under the leases: nothing may be touched unless the plugin is open; then it refuses
   * exactly a setting that is no list of distinct names, and allows exactly the names of the list.
   */
  lemma {:induction false} SelectionMeans(doc: Doc, plugin: string, epoch: Option<nat>)
    ensures var v := FieldAt(doc.settings.plugins, plugin, "selected_lists");
            match CurrentSelection(doc, plugin, epoch)
            case None => Open(doc, plugin, epoch) && v.Some? && NoNames(v.value)
            case Some(selected) =>
              if !Open(doc, plugin, epoch) || v.None? then selected == {}
              else !NoNames(v.value) && forall name :: name in selected <==> Text(name) in v.value.items
  {
    var v := FieldAt(doc.settings.plugins, plugin, "selected_lists");
    if v.Some? && v.value.Items? && SelectedLists(v).Some? {
      var items := v.value.items;
      assert forall i | 0 <= i < |items| :: items[i].Text?;
      forall name ensures name in SelectedLists(v).value <==> Text(name) in items {
        if Text(name) in items {
          var i :| 0 <= i < |items| && items[i] == Text(name);
          assert items[i].s == name;
        }
      }
    }
  }

  // ---- Processes ----------------------------------------------------------------------------

  /** What a worker knows from its start: the world when its epoch was captured, and its token. */
  datatype Capture = Capture(plugin: string, epoch: Option<nat>, selected: set<string>,
                             settings: Settings, account: int, token: Option<int>)

  datatype Job = Save | InvalidateOne(plugin: string) | InvalidateAll | CloseGate | OpenGate

  datatype Proc =
    | Idle
    | Editing(v: View)                        // a private Config, no lock
    | Waiting(job: Job, v: View)              // blocked on config.lock, exclusive
    | Merging(job: Job, v: View, base: Doc)   // holds config.lock, has read `base`
    | Exiting(job: Job, v: View)              // holds config.lock, has published
    | WantTransition                          // blocked on the account lock, exclusive
    | Mutating                                // holds the account lock, gate published closed
    | Working(w: Capture)
    | WantAccount(w: Capture)                 // polling for the account lock, shared
    | WantConfig(w: Capture)                  // holds it; polling for config.lock, shared
    | Leased(w: Capture)                      // holds both
    | Acting(w: Capture)                      // check passed: the external write is in flight

  datatype State = State(doc: Doc, next: nat, account: int, procs: seq<Proc>,
                         published: set<(string, nat)>)   // every epoch that was ever on disk

  predicate TransitionJob(job: Job) { job.CloseGate? || job.OpenGate? }

  predicate HoldsConfigEx(p: Proc) { p.Merging? || p.Exiting? }
  predicate HoldsConfigSh(p: Proc) { p.Leased? || p.Acting? }
  predicate HoldsAccountEx(p: Proc) {
    p.Mutating? || ((p.Waiting? || p.Merging? || p.Exiting?) && TransitionJob(p.job))
  }
  predicate HoldsAccountSh(p: Proc) { p.WantConfig? || p.Leased? || p.Acting? }

  predicate HasCapture(p: Proc) {
    p.Working? || p.WantAccount? || p.WantConfig? || p.Leased? || p.Acting?
  }

  /** The private Config a process may still publish. */
  function Private(p: Proc): View {
    match p
    case Editing(v) => v
    case Waiting(_, v) => v
    case Merging(_, v, _) => v
    case Exiting(_, v) => v
    case _ => Loaded(EmptyDoc())
  }

  // Every lock request, granted only when no other process holds the lock in a conflicting mode.
  predicate ConfigFreeFor(s: State, i: nat, exclusive: bool) {
    forall j | 0 <= j < |s.procs| && j != i ::
      !HoldsConfigEx(s.procs[j]) && (exclusive ==> !HoldsConfigSh(s.procs[j]))
  }
  predicate AccountFreeFor(s: State, i: nat, exclusive: bool) {
    forall j | 0 <= j < |s.procs| && j != i ::
      !HoldsAccountEx(s.procs[j]) && (exclusive ==> !HoldsAccountSh(s.procs[j]))
  }

  function Override(job: Job): Option<bool> {
    if job.CloseGate? then Some(true) else if job.OpenGate? then Some(false) else None
  }

  function Targets(job: Job, doc: Doc): set<string> {
    if job.InvalidateOne? then {job.plugin} else KnownPlugins(doc)
  }

  // ---- Steps --------------------------------------------------------------------------------

  /** Only process `i` moves, to `q`; the document, the account and the uuid supply stay. */
  predicate Moves(s: State, s': State, i: nat, q: Proc)
    requires i < |s.procs|
  {
    s' == s.(procs := s.procs[i := q])
  }

  /** A saver loads, edits, asks for an epoch rotation, or queues for the lock. */
  ghost predicate EditStep(s: State, s': State, i: nat)
    requires i < |s.procs|
  {
    var p := s.procs[i];
    || (p.Idle? && Moves(s, s', i, Editing(Loaded(s.doc))))
    || (p.Editing? && exists settings, intents ::
          Moves(s, s', i, Editing(p.v.(settings := settings, intents := intents))))
    || (p.Editing? && exists plugin ::
          s' == s.(next := s.next + 1,
                   procs := s.procs[i := Editing(p.v.(epochs := p.v.epochs[plugin := s.next],
                                                      rotated := p.v.rotated + {plugin}))]))
    || (p.Editing? && Moves(s, s', i, Waiting(Save, p.v)))
    || (p.Idle? && exists job: Job ::
          (job.InvalidateOne? || job.InvalidateAll?) && Moves(s, s', i, Waiting(job, Loaded(EmptyDoc()))))
  }

  /** `_save_lock` granted; the document is read, and a transition or invalidation draws its epochs. */
  ghost predicate GrantSave(s: State, s': State, i: nat)
    requires i < |s.procs|
  {
    var p := s.procs[i];
    && p.Waiting? && ConfigFreeFor(s, i, true)
    && if p.job.Save? then Moves(s, s', i, Merging(Save, p.v, s.doc))
       else exists v, n :: RotatedFrom(s.doc, Targets(p.job, s.doc), s.next, v, n)
              && s' == s.(next := n, procs := s.procs[i := Merging(p.job, v, s.doc)])
  }

  /** The atomic replacement: merge what was read under the lock and publish it. */
  ghost predicate PublishStep(s: State, s': State, i: nat)
    requires i < |s.procs|
  {
    var p := s.procs[i];
    && p.Merging? && RotationsPending(p.v)
    && exists doc', v', n :: Published(p.base, p.v, Override(p.job), s.next, doc', v', n)
         && s' == s.(doc := doc', next := n, procs := s.procs[i := Exiting(p.job, v')],
                     published := s.published + set plugin | plugin in doc'.epochs :: (plugin, doc'.epochs[plugin]))
  }

  /** Leaving `_save_lock`, after a publication or (from Merging) after a conflict or failed write. */
  ghost predicate ReleaseSave(s: State, s': State, i: nat)
    requires i < |s.procs|
  {
    var p := s.procs[i];
    || (p.Merging? && Moves(s, s', i, if p.job.Save? then Editing(p.v) else Idle))
    || (p.Exiting? && Moves(s, s', i,
          match p.job case Save => Editing(p.v) case CloseGate => Mutating case _ => Idle))
  }

  /** The account transition around the token change; leaving without `OpenGate` is the failure path. */
  ghost predicate TransitionStep(s: State, s': State, i: nat)
    requires i < |s.procs|
  {
    var p := s.procs[i];
    || (p.Idle? && Moves(s, s', i, WantTransition))
    || (p.WantTransition? && AccountFreeFor(s, i, true) && Moves(s, s', i, Waiting(CloseGate, Loaded(EmptyDoc()))))
    || (p.Mutating? && exists account :: s' == s.(account := account))
    || (p.Mutating? && Moves(s, s', i, Waiting(OpenGate, Loaded(EmptyDoc()))))
    || (p.Mutating? && Moves(s, s', i, Idle))
  }

  /** A worker captures its epoch and token, and takes the two leases around check and write. */
  ghost predicate WorkerStep(s: State, s': State, i: nat)
    requires i < |s.procs|
  {
    var p := s.procs[i];
    || (p.Idle? && exists plugin, selected ::
          selected != {} && Moves(s, s', i, Working(Capture(plugin, EpochOf(s.doc, plugin), selected,
                                                            s.doc.settings, s.account, None))))
    || (p.Working? && Moves(s, s', i, Working(p.w.(token := Some(s.account)))))
    || (p.Working? && p.w.token.Some? && Moves(s, s', i, WantAccount(p.w)))
    || (p.WantAccount? && AccountFreeFor(s, i, false) && Moves(s, s', i, WantConfig(p.w)))
    || (p.WantConfig? && ConfigFreeFor(s, i, false) && Moves(s, s', i, Leased(p.w)))
    || ((p.WantAccount? || p.WantConfig?) && Moves(s, s', i, Working(p.w)))       // lease timeout
    || (p.Leased? && CurrentSelection(s.doc, p.w.plugin, p.w.epoch) == Some(p.w.selected)
          && Moves(s, s', i, Acting(p.w)))
    || ((p.Leased? || p.Acting?) && Moves(s, s', i, Working(p.w)))
  }

  ghost predicate Step(s: State, s': State, i: nat)
    requires i < |s.procs|
  {
    || EditStep(s, s', i)
    || GrantSave(s, s', i)
    || PublishStep(s, s', i)
    || ReleaseSave(s, s', i)
    || TransitionStep(s, s', i)
    || WorkerStep(s, s', i)
    || Moves(s, s', i, Idle)   // a crash, or a process that simply ends
  }

  ghost predicate Next(s: State, s': State) {
    exists i: nat :: i < |s.procs| && Step(s, s', i)
  }

  ghost predicate Init(s: State) {
    && (forall i | 0 <= i < |s.procs| :: s.procs[i].Idle?)
    && s.published == (set plugin | plugin in s.doc.epochs :: (plugin, s.doc.epochs[plugin]))
    && (forall plugin | plugin in s.doc.epochs :: s.doc.epochs[plugin] < s.next)
  }

  ghost predicate IsRun(run: seq<State>) {
    && |run| > 0 && Init(run[0])
    && (forall k, l {:trigger Next(run[k], run[l])} | 0 <= k && l == k + 1 < |run| :: Next(run[k], run[l]))
  }

  // ---- The invariant ------------------------------------------------------------------------

  predicate GateOwed(p: Proc) {
    p.Mutating? || ((p.Waiting? || p.Merging?) && p.job.OpenGate?) || (p.Exiting? && p.job.CloseGate?)
  }

  /** Under config.lock what was read is what is on disk, and helpers publish only rotations. */
  ghost predicate MergeOk(doc: Doc, p: Proc)
    requires p.Merging?
  {
    && p.base == doc
    && (!p.job.Save? ==>
          && p.v.settings == p.v.baseline == doc.settings && p.v.intents == NO_INTENTS
          && p.v.rotated == Targets(p.job, doc))
  }

  /** A rotation not yet saved is drawn already and was never published. */
  ghost predicate PendingOk(next: nat, published: set<(string, nat)>, v: View) {
    && RotationsPending(v)
    && (forall plugin | plugin in v.rotated :: v.epochs[plugin] < next && (plugin, v.epochs[plugin]) !in published)
  }

  /**
   * While a captured epoch is still the one on disk, nothing the capture saw has changed --
   * except the account, and then the gate is closed or the plugin is unknown to the document.
   */
  ghost predicate CaptureOk(doc: Doc, account: int, published: set<(string, nat)>, w: Capture) {
    && w.selected != {}
    && (w.epoch.Some? ==> (w.plugin, w.epoch.value) in published)
    && (EpochOf(doc, w.plugin) == w.epoch ==>
          && SamePlugin(w.settings, doc.settings, w.plugin)
          && (doc.gate || w.plugin !in KnownPlugins(doc) ||
              (account == w.account && (w.token.Some? ==> w.token.value == w.account))))
  }

  predicate Consented(doc: Doc, w: Capture) {
    CurrentSelection(doc, w.plugin, w.epoch) == Some(w.selected)
  }

  /** What one process and the shared state owe each other. */
  ghost predicate ProcOk(s: State, p: Proc) {
    && (p.Merging? ==> MergeOk(s.doc, p))
    && (GateOwed(p) ==> s.doc.gate)
    && PendingOk(s.next, s.published, Private(p))
    && (HasCapture(p) ==> CaptureOk(s.doc, s.account, s.published, p.w) && (!p.Working? ==> p.w.token.Some?))
    && (p.Acting? ==> Consented(s.doc, p.w))
  }

  /** What two different processes owe each other: exclusive locks, and no shared rotation. */
  ghost predicate Compatible(p: Proc, q: Proc)
    requires RotationsPending(Private(p)) && RotationsPending(Private(q))
  {
    && (HoldsConfigEx(p) ==> !HoldsConfigEx(q) && !HoldsConfigSh(q))
    && (HoldsAccountEx(p) ==> !HoldsAccountEx(q) && !HoldsAccountSh(q))
    && (forall plugin | plugin in Private(p).rotated && plugin in Private(q).rotated ::
          Private(p).epochs[plugin] != Private(q).epochs[plugin])
  }

  ghost predicate DiskOk(s: State) {
    && (forall plugin | plugin in s.doc.epochs :: (plugin, s.doc.epochs[plugin]) in s.published)
    && (forall e | e in s.published :: e.1 < s.next)
  }

  ghost predicate Inv(s: State) {
    && DiskOk(s)
    && (forall i | 0 <= i < |s.procs| :: ProcOk(s, s.procs[i]))
    && (forall i, j | 0 <= i < |s.procs| && 0 <= j < |s.procs| && i != j :: Compatible(s.procs[i], s.procs[j]))
  }

  lemma InitEstablishesInv(s: State)
    requires Init(s)
    ensures Inv(s)
  {
  }

  /** One process moves: it must fit the new shared state, and so must everyone else. */
  lemma {:induction false} OneMoves(s: State, s': State, i: nat, q: Proc)
    requires Inv(s) && i < |s.procs| && s'.procs == s.procs[i := q] && DiskOk(s') && ProcOk(s', q)
    requires forall j | 0 <= j < |s.procs| && j != i ::
               ProcOk(s', s.procs[j]) && Compatible(q, s.procs[j]) && Compatible(s.procs[j], q)
    ensures Inv(s')
  {
    forall j, k | 0 <= j < |s'.procs| && 0 <= k < |s'.procs| && j != k
      ensures Compatible(s'.procs[j], s'.procs[k])
    {
      assert j != i && k != i ==> Compatible(s.procs[j], s.procs[k]);
    }
  }

  /** The common case: the process takes no new lock and no new rotation, the shared state stays. */
  lemma {:induction false} Recedes(s: State, s': State, i: nat, q: Proc)
    requires Inv(s) && i < |s.procs| && Moves(s, s', i, q) && ProcOk(s, q)
    requires forall j | 0 <= j < |s.procs| && j != i :: Compatible(q, s.procs[j]) && Compatible(s.procs[j], q)
    ensures Inv(s')
  {
    forall j | 0 <= j < |s.procs| ensures ProcOk(s', s.procs[j]) {
      assert ProcOk(s, s.procs[j]);
    }
    OneMoves(s, s', i, q);
  }

  predicate Weaker(q: Proc, p: Proc) {
    && (HoldsConfigEx(q) ==> HoldsConfigEx(p)) && (HoldsConfigSh(q) ==> HoldsConfigSh(p))
    && (HoldsAccountEx(q) ==> HoldsAccountEx(p)) && (HoldsAccountSh(q) ==> HoldsAccountSh(p))
    && Private(q).rotated <= Private(p).rotated
    && forall plugin | plugin in Private(q).rotated ::
         plugin in Private(q).epochs && plugin in Private(p).epochs
         && Private(q).epochs[plugin] == Private(p).epochs[plugin]
  }

  lemma {:induction false} WeakerMoves(s: State, s': State, i: nat, q: Proc)
    requires Inv(s) && i < |s.procs| && Moves(s, s', i, q) && ProcOk(s, q) && Weaker(q, s.procs[i])
    ensures Inv(s')
  {
    forall j | 0 <= j < |s.procs| && j != i ensures Compatible(q, s.procs[j]) && Compatible(s.procs[j], q) {
      assert Compatible(s.procs[i], s.procs[j]) && Compatible(s.procs[j], s.procs[i]);
    }
    Recedes(s, s', i, q);
  }

  lemma {:induction false} CrashKeepsInv(s: State, s': State, i: nat)
    requires Inv(s) && i < |s.procs| && Moves(s, s', i, Idle)
    ensures Inv(s')
  {
    WeakerMoves(s, s', i, Idle);
  }

  lemma {:induction false} EditKeepsInv(s: State, s': State, i: nat)
    requires Inv(s) && i < |s.procs| && EditStep(s, s', i)
    ensures Inv(s')
  {
    var p := s.procs[i];
    assert ProcOk(s, p);
    if s'.next == s.next {
      WeakerMoves(s, s', i, s'.procs[i]);
    } else {
      var plugin :| s' == s.(next := s.next + 1,
                             procs := s.procs[i := Editing(p.v.(epochs := p.v.epochs[plugin := s.next],
                                                                rotated := p.v.rotated + {plugin}))]);
      RotateKeepsInv(s, s', i, plugin);
    }
  }

  lemma {:induction false} RotateKeepsInv(s: State, s': State, i: nat, plugin: string)
    requires Inv(s) && i < |s.procs| && s.procs[i].Editing?
    requires s' == s.(next := s.next + 1,
                      procs := s.procs[i := Editing(s.procs[i].v.(epochs := s.procs[i].v.epochs[plugin := s.next],
                                                                  rotated := s.procs[i].v.rotated + {plugin}))])
    ensures Inv(s')
  {
    var p, q := s.procs[i], s'.procs[i];
    forall j | 0 <= j < |s.procs| && j != i
      ensures ProcOk(s', s.procs[j]) && Compatible(q, s.procs[j]) && Compatible(s.procs[j], q)
    {
      assert ProcOk(s, s.procs[j]) && Compatible(p, s.procs[j]);
    }
    assert ProcOk(s, p);
    OneMoves(s, s', i, q);
  }

  lemma {:induction false} GrantKeepsInv(s: State, s': State, i: nat)
    requires Inv(s) && i < |s.procs| && GrantSave(s, s', i)
    ensures Inv(s')
  {
    var p, q := s.procs[i], s'.procs[i];
    assert ProcOk(s, p);
    forall j | 0 <= j < |s.procs| && j != i
      ensures ProcOk(s', s.procs[j]) && Compatible(q, s.procs[j]) && Compatible(s.procs[j], q)
    {
      assert ProcOk(s, s.procs[j]) && Compatible(p, s.procs[j]) && Compatible(s.procs[j], p);
    }
    OneMoves(s, s', i, q);
  }

  lemma {:induction false} ReleaseKeepsInv(s: State, s': State, i: nat)
    requires Inv(s) && i < |s.procs| && ReleaseSave(s, s', i)
    ensures Inv(s')
  {
    assert ProcOk(s, s.procs[i]);
    WeakerMoves(s, s', i, s'.procs[i]);
  }

  lemma {:induction false} TransitionKeepsInv(s: State, s': State, i: nat)
    requires Inv(s) && i < |s.procs| && TransitionStep(s, s', i)
    ensures Inv(s')
  {
    var p, q := s.procs[i], s'.procs[i];
    assert ProcOk(s, p);
    if p.Mutating? && q == p {
      forall j | 0 <= j < |s.procs| && j != i
        ensures ProcOk(s', s.procs[j]) && Compatible(q, s.procs[j]) && Compatible(s.procs[j], q)
      {
        assert ProcOk(s, s.procs[j]) && Compatible(p, s.procs[j]) && Compatible(s.procs[j], p);
      }
      OneMoves(s, s', i, q);
    } else {
      forall j | 0 <= j < |s.procs| && j != i ensures Compatible(q, s.procs[j]) && Compatible(s.procs[j], q) {
        assert ProcOk(s, s.procs[j]) && Compatible(p, s.procs[j]) && Compatible(s.procs[j], p);
      }
      Recedes(s, s', i, q);
    }
  }

  lemma {:induction false} WorkerKeepsInv(s: State, s': State, i: nat)
    requires Inv(s) && i < |s.procs| && WorkerStep(s, s', i)
    ensures Inv(s')
  {
    var p, q := s.procs[i], s'.procs[i];
    assert ProcOk(s, p);
    forall j | 0 <= j < |s.procs| && j != i ensures Compatible(q, s.procs[j]) && Compatible(s.procs[j], q) {
      assert ProcOk(s, s.procs[j]) && Compatible(p, s.procs[j]) && Compatible(s.procs[j], p);
    }
    Recedes(s, s', i, q);
  }

  // ---- Publication --------------------------------------------------------------------------

  ghost predicate Untouched(s: State, s': State, plugin: string) {
    EpochOf(s'.doc, plugin) == EpochOf(s.doc, plugin) && SamePlugin(s.doc.settings, s'.doc.settings, plugin)
  }

  ghost predicate NewEpoch(s: State, s': State, plugin: string) {
    EpochOf(s'.doc, plugin).Some? && (plugin, EpochOf(s'.doc, plugin).value) !in s.published
    && EpochOf(s'.doc, plugin).value < s'.next
  }

  /** What everyone else needs to know of a publication by a process holding the pending view `v`. */
  ghost predicate Publication(s: State, s': State, job: Job, v: View)
    requires RotationsPending(v)
  {
    && s'.account == s.account && s.next <= s'.next && s.published <= s'.published
    && s'.doc.gate == (if job.OpenGate? then false else if job.CloseGate? then true else s.doc.gate)
    && (forall plugin :: Untouched(s, s', plugin) || NewEpoch(s, s', plugin))
    && (forall e | e in s'.published - s.published ::
          s.next <= e.1 < s'.next || (e.0 in v.rotated && e.1 == v.epochs[e.0]))
    && (TransitionJob(job) ==>
          && s'.doc.settings == s.doc.settings && KnownPlugins(s'.doc) == KnownPlugins(s.doc)
          && forall plugin | plugin in KnownPlugins(s.doc) :: NewEpoch(s, s', plugin))
  }

  /** A publication either leaves a plugin entirely alone or gives it an epoch no document ever had. */
  lemma {:induction false} PublishedEpochIsNew(s: State, s': State, i: nat, plugin: string)
    requires Inv(s) && i < |s.procs| && PublishStep(s, s', i)
    ensures Untouched(s, s', plugin) || NewEpoch(s, s', plugin)
    ensures plugin in s.procs[i].v.rotated ==> NewEpoch(s, s', plugin)
  {
    var p := s.procs[i];
    assert ProcOk(s, p);
    var changed := Changed(s.doc.settings, s'.doc.settings);
    if plugin in changed {
    } else if plugin in p.v.rotated {
      assert plugin in p.v.rotated - changed;
    } else {
      assert plugin in s'.doc.epochs <==> plugin in s.doc.epochs;
    }
  }

  lemma {:induction false} PublishedPairs(s: State, s': State, i: nat, e: (string, nat))
    requires Inv(s) && i < |s.procs| && PublishStep(s, s', i) && e in s'.published - s.published
    ensures var v := s.procs[i].v;
            s.next <= e.1 < s'.next || (e.0 in v.rotated && e.0 in v.epochs && e.1 == v.epochs[e.0])
  {
    var p := s.procs[i];
    assert ProcOk(s, p);
    assert e.0 in s'.doc.epochs && e.1 == s'.doc.epochs[e.0];
    var changed := Changed(s.doc.settings, s'.doc.settings);
    if e.0 !in changed && e.0 in p.v.rotated {
      assert e.0 in p.v.rotated - changed;
    }
  }

  /** Both saves of a transition keep the settings and give a new epoch to every plugin the document
   * knows: enabled, with settings, or with an epoch. */
  lemma {:induction false} TransitionRotatesAll(s: State, s': State, i: nat)
    requires Inv(s) && i < |s.procs| && PublishStep(s, s', i) && TransitionJob(s.procs[i].job)
    ensures s'.doc.settings == s.doc.settings && KnownPlugins(s'.doc) == KnownPlugins(s.doc)
    ensures forall plugin :: plugin in KnownPlugins(s.doc) <==>
              plugin in s.doc.settings.enabled || plugin in s.doc.settings.plugins || plugin in s.doc.epochs
    ensures forall plugin | plugin in KnownPlugins(s.doc) :: NewEpoch(s, s', plugin)
  {
    var p := s.procs[i];
    assert ProcOk(s, p);
    forall plugin | plugin in KnownPlugins(s.doc) ensures NewEpoch(s, s', plugin) {
      PublishedEpochIsNew(s, s', i, plugin);
    }
    var v', n :| Published(p.base, p.v, Override(p.job), s.next, s'.doc, v', n);
    RotationOnlySave(s.doc, p.v, Override(p.job), s.next, s'.doc, v', n);
  }

  lemma {:induction false} PublishSummary(s: State, s': State, i: nat)
    requires Inv(s) && i < |s.procs| && PublishStep(s, s', i)
    ensures RotationsPending(s.procs[i].v) && Publication(s, s', s.procs[i].job, s.procs[i].v)
  {
    var p := s.procs[i];
    assert ProcOk(s, p);
    forall plugin ensures Untouched(s, s', plugin) || NewEpoch(s, s', plugin) {
      PublishedEpochIsNew(s, s', i, plugin);
    }
    forall e | e in s'.published - s.published
      ensures s.next <= e.1 < s'.next || (e.0 in p.v.rotated && e.1 == p.v.epochs[e.0])
    {
      PublishedPairs(s, s', i, e);
    }
    if TransitionJob(p.job) {
      TransitionRotatesAll(s, s', i);
    }
  }

  lemma {:induction false} PublishKeepsPending(s: State, s': State, job: Job, p: Proc, o: Proc)
    requires ProcOk(s, p) && ProcOk(s, o) && Compatible(p, o) && Publication(s, s', job, Private(p))
    ensures PendingOk(s'.next, s'.published, Private(o))
  {
    forall plugin | plugin in Private(o).rotated
      ensures (plugin, Private(o).epochs[plugin]) !in s'.published
    {
      assert (plugin, Private(o).epochs[plugin]) !in s.published;
    }
  }

  lemma {:induction false} PublishKeepsCapture(s: State, s': State, job: Job, v: View, w: Capture)
    requires RotationsPending(v) && Publication(s, s', job, v)
    requires CaptureOk(s.doc, s.account, s.published, w)
    ensures CaptureOk(s'.doc, s'.account, s'.published, w)
  {
    assert Untouched(s, s', w.plugin) || NewEpoch(s, s', w.plugin);
    if EpochOf(s'.doc, w.plugin) == w.epoch {
      assert Untouched(s, s', w.plugin);
      if job.OpenGate? {
        assert w.plugin !in KnownPlugins(s.doc);
      }
    }
  }

  lemma {:induction false} PublishKeepsOther(s: State, s': State, i: nat, j: nat)
    requires Inv(s) && i < |s.procs| && j < |s.procs| && i != j && PublishStep(s, s', i)
    ensures ProcOk(s', s.procs[j])
  {
    var p, o := s.procs[i], s.procs[j];
    assert ProcOk(s, p) && ProcOk(s, o) && Compatible(p, o);
    PublishSummary(s, s', i);
    PublishKeepsPending(s, s', p.job, p, o);
    if HasCapture(o) {
      PublishKeepsCapture(s, s', p.job, p.v, o.w);
    }
  }

  lemma {:induction false} PublishKeepsInv(s: State, s': State, i: nat)
    requires Inv(s) && i < |s.procs| && PublishStep(s, s', i)
    ensures Inv(s')
  {
    var p, q := s.procs[i], s'.procs[i];
    assert ProcOk(s, p);
    PublishSummary(s, s', i);
    forall j | 0 <= j < |s.procs| && j != i
      ensures ProcOk(s', s.procs[j]) && Compatible(q, s.procs[j]) && Compatible(s.procs[j], q)
    {
      assert ProcOk(s, s.procs[j]) && Compatible(p, s.procs[j]) && Compatible(s.procs[j], p);
      PublishKeepsOther(s, s', i, j);
    }
    OneMoves(s, s', i, q);
  }

  lemma {:induction false} StepKeepsInv(s: State, s': State, i: nat)
    requires Inv(s) && i < |s.procs| && Step(s, s', i)
    ensures Inv(s')
  {
    if EditStep(s, s', i) { EditKeepsInv(s, s', i); }
    else if GrantSave(s, s', i) { GrantKeepsInv(s, s', i); }
    else if PublishStep(s, s', i) { PublishKeepsInv(s, s', i); }
    else if ReleaseSave(s, s', i) { ReleaseKeepsInv(s, s', i); }
    else if TransitionStep(s, s', i) { TransitionKeepsInv(s, s', i); }
    else if WorkerStep(s, s', i) { WorkerKeepsInv(s, s', i); }
    else { CrashKeepsInv(s, s', i); }
  }

  lemma {:induction false} RunInv(run: seq<State>, k: nat)
    requires IsRun(run) && k < |run|
    ensures Inv(run[k])
  {
    if k == 0 {
      InitEstablishesInv(run[0]);
    } else {
      RunInv(run, k - 1);
      assert Next(run[k - 1], run[k]);
      var i: nat :| i < |run[k - 1].procs| && Step(run[k - 1], run[k], i);
      StepKeepsInv(run[k - 1], run[k], i);
    }
  }

  // ---- The theorems -------------------------------------------------------------------------

  /**
   * Consent.  In every run, while an external write is in flight the account is the one in force
   * when the worker captured its epoch (and the one its token belongs to), the plugin is enabled
   * with exactly the settings of the capture, preview is off, no transition is under way, and the
   * lists that may be touched are exactly those its `selected_lists` names.
   */
  lemma {:induction false} MutationsRunUnderCapturedConsent(run: seq<State>, k: nat, i: nat)
    requires IsRun(run) && k < |run| && i < |run[k].procs| && run[k].procs[i].Acting?
    ensures var s, w := run[k], run[k].procs[i].w;
            && s.account == w.account && w.token == Some(w.account)
            && w.plugin in s.doc.settings.enabled && SamePlugin(w.settings, s.doc.settings, w.plugin)
            && FieldAt(s.doc.settings.plugins, w.plugin, "dry_run") == Some(Flag(false))
            && EpochOf(s.doc, w.plugin) == w.epoch && !s.doc.gate
            && (exists items :: FieldAt(s.doc.settings.plugins, w.plugin, "selected_lists") == Some(Items(items))
                  && forall name :: name in w.selected <==> Text(name) in items)
            && forall j | 0 <= j < |s.procs| && j != i ::
                 !HoldsConfigEx(s.procs[j]) && !HoldsAccountEx(s.procs[j])
  {
    RunInv(run, k);
    assert ProcOk(run[k], run[k].procs[i]);
    SelectionMeans(run[k].doc, run[k].procs[i].w.plugin, run[k].procs[i].w.epoch);
    forall j | 0 <= j < |run[k].procs| && j != i
      ensures !HoldsConfigEx(run[k].procs[j]) && !HoldsAccountEx(run[k].procs[j])
    {
      assert Compatible(run[k].procs[j], run[k].procs[i]);
    }
  }

  lemma {:induction false} StepMovesEpochs(s: State, s': State, i: nat, plugin: string)
    requires Inv(s) && i < |s.procs| && Step(s, s', i)
    ensures s.published <= s'.published
    ensures Untouched(s, s', plugin) || NewEpoch(s, s', plugin)
  {
    if PublishStep(s, s', i) {
      PublishedEpochIsNew(s, s', i, plugin);
    }
  }

  lemma {:induction false} StepOf(run: seq<State>, k: nat, l: nat) returns (pid: nat)
    requires IsRun(run) && l == k + 1 < |run|
    ensures Inv(run[k]) && pid < |run[k].procs| && Step(run[k], run[l], pid)
  {
    RunInv(run, k);
    assert Next(run[k], run[l]);
    pid :| pid < |run[k].procs| && Step(run[k], run[l], pid);
  }

  /** Compared with an earlier state, a plugin is untouched or carries an epoch unheard of then. */
  ghost predicate StaysOrIsNew(s: State, t: State, plugin: string) {
    && s.published <= t.published
    && (Untouched(s, t, plugin)
        || (EpochOf(t.doc, plugin).Some? && (plugin, EpochOf(t.doc, plugin).value) !in s.published))
  }

  lemma {:induction false} NextStaysOrIsNew(run: seq<State>, k: nat, l: nat, plugin: string)
    requires IsRun(run) && l == k + 1 < |run|
    ensures StaysOrIsNew(run[k], run[l], plugin)
  {
    var pid := StepOf(run, k, l);
    StepMovesEpochs(run[k], run[l], pid, plugin);
  }

  lemma StaysOrIsNewChains(s: State, t: State, u: State, plugin: string)
    requires StaysOrIsNew(s, t, plugin) && StaysOrIsNew(t, u, plugin)
    ensures StaysOrIsNew(s, u, plugin)
  {
  }

  lemma {:induction false} EpochStaysOrIsNew(run: seq<State>, i: nat, k: nat, plugin: string)
    requires IsRun(run) && i <= k < |run|
    ensures StaysOrIsNew(run[i], run[k], plugin)
  {
    if i < k {
      EpochStaysOrIsNew(run, i, k - 1, plugin);
      NextStaysOrIsNew(run, k - 1, k, plugin);
      StaysOrIsNewChains(run[i], run[k - 1], run[k], plugin);
    }
  }

  /**
   * No ABA.  If a plugin's epoch on disk (or its absence) is the same at two times of a run, then
   * at every time in between its epoch, enabled flag and settings were the same as well.
   */
  lemma {:induction false} NoAba(run: seq<State>, i: nat, k: nat, j: nat, plugin: string)
    requires IsRun(run) && i <= k <= j < |run|
    requires EpochOf(run[i].doc, plugin) == EpochOf(run[j].doc, plugin)
    ensures EpochOf(run[k].doc, plugin) == EpochOf(run[i].doc, plugin)
    ensures SamePlugin(run[i].doc.settings, run[k].doc.settings, plugin)
  {
    EpochStaysOrIsNew(run, i, k, plugin);
    EpochStaysOrIsNew(run, k, j, plugin);
    RunInv(run, i);
  }

  // ---- The gate -----------------------------------------------------------------------------

  /** Process `i` publishes the opening of the gate between `run[k]` and `run[k + 1]`. */
  ghost predicate Reopens(s: State, s': State, i: nat) {
    i < |s.procs| && s.procs[i].Merging? && s.procs[i].job.OpenGate? && PublishStep(s, s', i)
  }

  ghost predicate ReopensAt(run: seq<State>, k: nat, i: nat) {
    k + 1 < |run| && Reopens(run[k], run[k + 1], i)
  }

  lemma StepReopens(s: State, s': State, i: nat)
    requires Inv(s) && i < |s.procs| && Step(s, s', i) && s.doc.gate && !s'.doc.gate
    ensures Reopens(s, s', i)
  {
  }

  lemma {:induction false} NextReopens(run: seq<State>, k: nat, l: nat) returns (pid: nat)
    requires IsRun(run) && l == k + 1 < |run| && run[k].doc.gate && !run[l].doc.gate
    ensures ReopensAt(run, k, pid)
  {
    pid := StepOf(run, k, l);
    StepReopens(run[k], run[l], pid);
  }

  /** In its token-changing state or past it, on the way to the opening save: the account lock is held throughout. */
  predicate Opening(p: Proc) {
    p.Mutating? || ((p.Waiting? || p.Merging? || p.Exiting?) && p.job.OpenGate?)
  }

  /** A step moves one process. */
  lemma {:induction false} OthersStay(s: State, s': State, i: nat, pid: nat)
    requires i < |s.procs| && Step(s, s', i)
    ensures |s'.procs| == |s.procs| && (pid < |s.procs| && pid != i ==> s'.procs[pid] == s.procs[pid])
  {
    hide Published, RotatedFrom, RotationsPending, CurrentSelection, ConfigFreeFor, AccountFreeFor;
    if EditStep(s, s', i) {
    } else if GrantSave(s, s', i) {
    } else if PublishStep(s, s', i) {
    } else if ReleaseSave(s, s', i) {
    } else if TransitionStep(s, s', i) {
    } else if WorkerStep(s, s', i) {
    }
  }

  lemma {:induction false} StepOfOpening(s: State, s': State, i: nat, pid: nat)
    requires i < |s.procs| && Step(s, s', i) && pid < |s'.procs|
    requires Opening(s'.procs[pid]) && !s'.procs[pid].Mutating?
    ensures pid < |s.procs| && Opening(s.procs[pid])
  {
    OthersStay(s, s', i, pid);
    if pid == i { OwnStepOfOpening(s, s', i); }
  }

  lemma {:induction false} OwnStepOfOpening(s: State, s': State, i: nat)
    requires i < |s.procs| && Step(s, s', i) && |s'.procs| == |s.procs|
    requires Opening(s'.procs[i]) && !s'.procs[i].Mutating?
    ensures Opening(s.procs[i])
  {
    hide Published, RotatedFrom, RotationsPending, CurrentSelection, ConfigFreeFor, AccountFreeFor;
    if EditStep(s, s', i) {
    } else if GrantSave(s, s', i) {
    } else if PublishStep(s, s', i) {
    } else if ReleaseSave(s, s', i) {
    } else if TransitionStep(s, s', i) {
    } else if WorkerStep(s, s', i) {
    }
  }

  lemma {:induction false} NextOfOpening(run: seq<State>, k: nat, l: nat, pid: nat)
    requires IsRun(run) && l == k + 1 < |run| && pid < |run[l].procs|
    requires Opening(run[l].procs[pid]) && !run[l].procs[pid].Mutating?
    ensures pid < |run[k].procs| && Opening(run[k].procs[pid])
  {
    var i := StepOf(run, k, l);
    StepOfOpening(run[k], run[l], i, pid);
  }

  lemma {:induction false} StepChangesAccount(s: State, s': State, i: nat)
    requires Inv(s) && i < |s.procs| && Step(s, s', i) && s.account != s'.account
    ensures s.procs[i].Mutating? && s.doc.gate && s'.doc.gate
  {
    assert ProcOk(s, s.procs[i]);
  }

  lemma {:induction false} GateEdge(run: seq<State>, i: nat, j: nat) returns (k: nat)
    requires i <= j < |run| && run[i].doc.gate && !run[j].doc.gate
    ensures i <= k < j && run[k].doc.gate && !run[k + 1].doc.gate
  {
    k := i;
    while run[k + 1].doc.gate
      invariant i <= k < j && run[k].doc.gate
      decreases j - k
    {
      k := k + 1;
    }
  }

  /** A closed gate opens only through the last save of a transition, never by an ordinary save. */
  lemma {:induction false} GateReopensOnlyByTransition(run: seq<State>, i: nat, j: nat) returns (k: nat, pid: nat)
    requires IsRun(run) && i <= j < |run| && run[i].doc.gate && !run[j].doc.gate
    ensures i <= k < j && ReopensAt(run, k, pid)
  {
    k := GateEdge(run, i, j);
    pid := NextReopens(run, k, k + 1);
  }

  /** From its token-changing state up to `run[k]` the process never let go of the account lock. */
  ghost predicate MutatedSince(run: seq<State>, m: nat, k: nat, pid: nat)
    requires m <= k < |run|
  {
    && (forall l | m <= l <= k ::
          pid < |run[l].procs| && Opening(run[l].procs[pid]) && HoldsAccountEx(run[l].procs[pid]))
    && run[m].procs[pid].Mutating?
  }

  /** Only a transition that came through its token-changing state, without a crash, reaches the opening save. */
  lemma {:induction false} OpeningFollowsMutation(run: seq<State>, k: nat, pid: nat) returns (m: nat)
    requires IsRun(run) && k < |run| && pid < |run[k].procs| && Opening(run[k].procs[pid])
    ensures m <= k && MutatedSince(run, m, k, pid)
  {
    if run[k].procs[pid].Mutating? {
      m := k;
    } else if k == 0 {
      assert false;
    } else {
      NextOfOpening(run, k - 1, k, pid);
      m := OpeningFollowsMutation(run, k - 1, pid);
    }
  }

  /**
   * A crashed or failed transition leaves the gate closed: between a time with the gate closed
   * and a later time with it open, some process came through its token-changing state, kept the
   * account lock without a break and published the opening.
   */
  lemma {:induction false} GateStaysClosedUntilCompletion(run: seq<State>, i: nat, j: nat) returns (m: nat, k: nat,
                                                          pid: nat)
    requires IsRun(run) && i <= j < |run| && run[i].doc.gate && !run[j].doc.gate
    ensures i <= k < j && m <= k && ReopensAt(run, k, pid) && MutatedSince(run, m, k, pid)
  {
    k, pid := GateReopensOnlyByTransition(run, i, j);
    m := OpeningFollowsMutation(run, k, pid);
  }

  /** The token never changes while the gate is open, nor while any external write is in flight. */
  lemma {:induction false} AccountChangesBehindTheGate(run: seq<State>, k: nat)
    requires IsRun(run) && k + 1 < |run| && run[k].account != run[k + 1].account
    ensures run[k].doc.gate && run[k + 1].doc.gate
    ensures forall j | 0 <= j < |run[k].procs| :: !run[k].procs[j].Acting?
  {
    var i := StepOf(run, k, k + 1);
    StepChangesAccount(run[k], run[k + 1], i);
    forall j | 0 <= j < |run[k].procs| ensures !run[k].procs[j].Acting? {
      assert ProcOk(run[k], run[k].procs[j]);
    }
  }

  // ---- No deadlock --------------------------------------------------------------------------

  /** Process `i` waits for a lock that process `j` holds in a conflicting mode. */
  predicate BlockedBy(s: State, i: nat, j: nat)
    requires i < |s.procs| && j < |s.procs|
  {
    var p, q := s.procs[i], s.procs[j];
    i != j &&
    (|| (p.Waiting? && (HoldsConfigEx(q) || HoldsConfigSh(q)))
     || (p.WantConfig? && HoldsConfigEx(q))
     || (p.WantTransition? && (HoldsAccountEx(q) || HoldsAccountSh(q)))
     || (p.WantAccount? && HoldsAccountEx(q)))
  }

  /** The account-before-config order: no set of processes is blocked within itself. */
  lemma {:induction false} NoDeadlock(s: State, waiting: set<nat>)
    requires forall i | i in waiting :: i < |s.procs|
    requires waiting != {}
    ensures exists i | i in waiting :: forall j | j in waiting :: !BlockedBy(s, i, j)
  {
    var i :| i in waiting;
    if j :| j in waiting && BlockedBy(s, i, j) {
      if k :| k in waiting && BlockedBy(s, j, k) {
        assert s.procs[j].Waiting? || s.procs[j].WantConfig?;
        assert forall l | l in waiting :: !BlockedBy(s, k, l);
      }
    }
  }

  /** The locks a process waits for are granted the moment no process blocks it. */
  lemma {:induction false} UnblockedIsGranted(s: State, i: nat)
    requires i < |s.procs| && forall j | 0 <= j < |s.procs| :: !BlockedBy(s, i, j)
    ensures s.procs[i].Waiting? ==> ConfigFreeFor(s, i, true)
    ensures s.procs[i].WantConfig? ==> ConfigFreeFor(s, i, false)
    ensures s.procs[i].WantTransition? ==> AccountFreeFor(s, i, true)
    ensures s.procs[i].WantAccount? ==> AccountFreeFor(s, i, false)
  {
    var p := s.procs[i];
    forall j | 0 <= j < |s.procs| && j != i
      ensures p.Waiting? ==> !HoldsConfigEx(s.procs[j]) && !HoldsConfigSh(s.procs[j])
      ensures p.WantConfig? ==> !HoldsConfigEx(s.procs[j])
      ensures p.WantTransition? ==> !HoldsAccountEx(s.procs[j]) && !HoldsAccountSh(s.procs[j])
      ensures p.WantAccount? ==> !HoldsAccountEx(s.procs[j])
    {
      assert !BlockedBy(s, i, j);
    }
  }

  /** The consent theorem is not empty: a worker no one locks out does get to write, in four steps. */
  lemma {:induction false} UnobstructedWorkerActs(s: State, i: nat) returns (a: State, b: State, c: State, d: State)
    requires i < |s.procs| && s.procs[i].Working? && s.procs[i].w.token.Some?
    requires Consented(s.doc, s.procs[i].w)
    requires ConfigFreeFor(s, i, false) && AccountFreeFor(s, i, false)
    ensures |a.procs| == |b.procs| == |c.procs| == |s.procs|
    ensures Step(s, a, i) && Step(a, b, i) && Step(b, c, i) && Step(c, d, i)
    ensures i < |d.procs| && d.procs[i] == Acting(s.procs[i].w) && d.doc == s.doc
  {
    var w := s.procs[i].w;
    a := s.(procs := s.procs[i := WantAccount(w)]);
    b := a.(procs := a.procs[i := WantConfig(w)]);
    c := b.(procs := b.procs[i := Leased(w)]);
    d := c.(procs := c.procs[i := Acting(w)]);
    assert WorkerStep(s, a, i) && WorkerStep(a, b, i) && WorkerStep(b, c, i) && WorkerStep(c, d, i);
  }
}
