/**
 * The configuration document and one process's private `Config`
 * (packages/collect/fulcra_collect/config.py).
 *
 * A `Config` is loaded without a lock, edited freely and saved by a merge against the detached
 * baseline.  A save also rotates the epoch of every plugin whose enabled flag or settings it
 * effectively changes, publishes the epochs the caller rotated explicitly, and leaves the
 * account-transition gate as it is on disk unless the transition helper overrides it.
 *
 * uuid4 is modelled by a counter: every draw is a number never drawn before.
 */
module ConfigStore {
  import opened Wrappers
  import opened ConfigMerge

  type Epochs = map<string, nat>

  /** The document on disk.  A missing file reads as `EmptyDoc`. */
  datatype Doc = Doc(settings: Settings, epochs: Epochs, gate: bool)

  const DEFAULT_WEB_PORT := 9292
  const EMPTY_SETTINGS := Settings({}, map[], map[], DEFAULT_WEB_PORT)
  const NO_INTENTS := Intents({}, {}, map[])

  function EmptyDoc(): Doc {
    Doc(EMPTY_SETTINGS, map[], false)
  }

  /** The value of a `Config` object: what the process wants, and what it remembers of the load. */
  datatype View = View(settings: Settings, epochs: Epochs, gate: bool,
                       rotated: set<string>, baseline: Settings, intents: Intents)

  function Loaded(doc: Doc): View {
    View(doc.settings, doc.epochs, doc.gate, {}, doc.settings, NO_INTENTS)
  }

  function EpochOf(doc: Doc, plugin: string): Option<nat> {
    if plugin in doc.epochs then Some(doc.epochs[plugin]) else None
  }

  /** A plugin's consent-relevant state is the same in both documents. */
  predicate SamePlugin(a: Settings, b: Settings, plugin: string) {
    (plugin in a.enabled <==> plugin in b.enabled) && Lookup(a.plugins, plugin) == Lookup(b.plugins, plugin)
  }

  /** The plugins a publication effectively changes. */
  function Changed(before: Settings, after: Settings): set<string> {
    set p | p in before.enabled + after.enabled + before.plugins.Keys + after.plugins.Keys
            && !SamePlugin(before, after, p)
  }

  predicate RotationsPending(v: View) {
    v.rotated <= v.epochs.Keys
  }

  /** The epochs one save publishes: `drawn` are the uuids it draws, all of them new. */
  ghost predicate EpochsPublished(before: Epochs, rotated: set<string>, pending: Epochs, changed: set<string>,
                                  next: nat, next': nat, after: Epochs)
    requires rotated <= pending.Keys
  {
    && next <= next'
    && after.Keys == before.Keys + rotated + changed
    && (forall p | p in changed :: next <= after[p] < next')
    && (forall p, q | p in changed && q in changed && p != q :: after[p] != after[q])
    && (forall p | p in rotated - changed :: after[p] == pending[p])
    && (forall p | p in before.Keys - rotated - changed :: after[p] == before[p])
  }

  /** One successful `_save_locked`: document, Config and uuid supply before and after. */
  ghost predicate Published(doc: Doc, v: View, override: Option<bool>, next: nat, doc': Doc, v': View, next': nat)
    requires RotationsPending(v)
  {
    && MergedSettings(v.baseline, v.settings, doc.settings, v.intents) == Merged(doc'.settings)
    && EpochsPublished(doc.epochs, v.rotated, v.epochs, Changed(doc.settings, doc'.settings), next, next', doc'.epochs)
    && doc'.gate == (if override.Some? then override.value else doc.gate)
    && v' == Loaded(doc')
  }

  /** The document on disk and the supply of uuids, shared by every process. */
  class Store {
    var doc: Doc
    var nextUuid: nat

    constructor ()
      ensures doc == EmptyDoc() == Doc(Settings({}, map[], map[], 9292), map[], false) && nextUuid == 0
    {
      doc, nextUuid := EmptyDoc(), 0;
    }

    method Uuid4() returns (id: nat)
      modifies this`nextUuid
      ensures id == old(nextUuid) && nextUuid == id + 1
    {
      id := nextUuid;
      nextUuid := nextUuid + 1;
    }
  }

  /** The loop over `_rotated_epochs`: the caller's own rotations replace the values on disk. */
  method RotatedEpochs(disk: Epochs, rotated: set<string>, epochs: Epochs) returns (result: Epochs)
    requires rotated <= epochs.Keys
    ensures result.Keys == disk.Keys + rotated
    ensures forall p | p in result :: result[p] == if p in rotated then epochs[p] else disk[p]
  {
    result := disk;
    var pending := rotated;
    while pending != {}
      invariant pending <= rotated
      invariant result.Keys == disk.Keys + (rotated - pending)
      invariant forall p | p in result :: result[p] == if p in rotated - pending then epochs[p] else disk[p]
      decreases pending
    {
      var p :| p in pending;
      result := result[p := epochs[p]];
      pending := pending - {p};
    }
  }

  /** The loop that gives every effectively changed plugin a new uuid. */
  method FreshEpochs(store: Store, explicit: Epochs, before: Settings, after: Settings) returns (result: Epochs)
    modifies store`nextUuid
    ensures old(store.nextUuid) <= store.nextUuid
    ensures result.Keys == explicit.Keys + Changed(before, after)
    ensures forall p | p in Changed(before, after) :: old(store.nextUuid) <= result[p] < store.nextUuid
    ensures forall p, q | p in Changed(before, after) && q in Changed(before, after) && p != q :: result[p] != result[q]
    ensures forall p | p in explicit && p !in Changed(before, after) :: result[p] == explicit[p]
  {
    result := explicit;
    var known := before.enabled + after.enabled + before.plugins.Keys + after.plugins.Keys;
    ghost var changed := Changed(before, after);
    ghost var done: set<string> := {};
    var pending := known;
    while pending != {}
      invariant pending <= known && done == changed - pending
      invariant old(store.nextUuid) <= store.nextUuid
      invariant result.Keys == explicit.Keys + done
      invariant forall p | p in done :: old(store.nextUuid) <= result[p] < store.nextUuid
      invariant forall p, q | p in done && q in done && p != q :: result[p] != result[q]
      invariant forall p | p in explicit && p !in done :: result[p] == explicit[p]
      decreases pending
    {
      var p :| p in pending;
      if !SamePlugin(before, after, p) {
        var drawn := store.Uuid4();
        result := result[p := drawn];
        done := done + {p};
      }
      pending := pending - {p};
    }
  }

  /** The document a save would publish, or None when an edited field moved on disk. */
  method NextDocument(store: Store, settings: Settings, epochs: Epochs, rotated: set<string>, baseline: Settings,
                      intents: Intents, override: Option<bool>) returns (next: Option<Doc>)
    requires rotated <= epochs.Keys
    modifies store`nextUuid
    ensures old(store.nextUuid) <= store.nextUuid
    ensures next.Some? <==> MergedSettings(baseline, settings, store.doc.settings, intents).Merged?
    ensures next.Some? ==>
              MergedSettings(baseline, settings, store.doc.settings, intents) == Merged(next.value.settings)
    ensures next.Some? ==>
              && EpochsPublished(store.doc.epochs, rotated, epochs, Changed(store.doc.settings, next.value.settings),
                                 old(store.nextUuid), store.nextUuid, next.value.epochs)
              && next.value.gate == if override.Some? then override.value else store.doc.gate
  {
    var disk := store.doc;
    var outcome := MergeSettings(baseline, settings, disk.settings, intents);
    if outcome.Conflict? { return None; }
    var explicit := RotatedEpochs(disk.epochs, rotated, epochs);
    var published := FreshEpochs(store, explicit, disk.settings, outcome.value);
    next := Some(Doc(outcome.value, published, if override.Some? then override.value else disk.gate));
  }

  class Config {
    var enabled: set<string>
    var intervals: Fields
    var plugins: Fields
    var webPort: int
    var epochs: Epochs
    var gate: bool
    var rotated: set<string>
    var baseline: Settings
    var enabledIntents: set<string>
    var intervalIntents: set<string>
    var settingIntents: Touched

    ghost function Contents(): View
      reads this
    {
      View(Settings(enabled, intervals, plugins, webPort), epochs, gate, rotated, baseline,
           Intents(enabledIntents, intervalIntents, settingIntents))
    }

    ghost predicate Valid()
      reads this
    {
      RotationsPending(Contents())
    }

    /** `load`: the Config remembers a detached copy of what it read. */
    constructor Load(doc: Doc)
      ensures Valid() && Contents() == Loaded(doc)
    {
      enabled, intervals, plugins := doc.settings.enabled, doc.settings.intervals, doc.settings.plugins;
      webPort, epochs, gate := doc.settings.webPort, doc.epochs, doc.gate;
      rotated, baseline := {}, doc.settings;
      enabledIntents, intervalIntents, settingIntents := {}, {}, map[];
    }

    method Enable(plugin: string)
      requires Valid()
      modifies this`enabled, this`enabledIntents
      ensures Valid()
      ensures enabled == old(enabled) + {plugin} && enabledIntents == old(enabledIntents) + {plugin}
    {
      enabledIntents := enabledIntents + {plugin};
      enabled := enabled + {plugin};
    }

    method Disable(plugin: string)
      requires Valid()
      modifies this`enabled, this`enabledIntents
      ensures Valid()
      ensures enabled == old(enabled) - {plugin} && enabledIntents == old(enabledIntents) + {plugin}
    {
      enabledIntents := enabledIntents + {plugin};
      enabled := enabled - {plugin};
    }

    method SetInterval(plugin: string, seconds: int)
      requires Valid()
      modifies this`intervals, this`intervalIntents
      ensures Valid()
      ensures intervals == old(intervals)[plugin := Num(seconds)]
      ensures intervalIntents == old(intervalIntents) + {plugin}
    {
      intervalIntents := intervalIntents + {plugin};
      intervals := intervals[plugin := Num(seconds)];
    }

    /** Every submitted field is remembered as explicit, whether or not its value changes. */
    method UpdatePluginSettings(plugin: string, values: Fields)
      requires Valid()
      requires plugin in plugins ==> plugins[plugin].Table?
      modifies this`plugins, this`settingIntents
      ensures Valid()
      ensures TouchedAt(settingIntents, plugin) == old(TouchedAt(settingIntents, plugin)) + values.Keys
      ensures forall field :: FieldAt(plugins, plugin, field) ==
                if field in values then Some(values[field]) else old(FieldAt(plugins, plugin, field))
      ensures forall other | other != plugin ::
                && Lookup(plugins, other) == old(Lookup(plugins, other))
                && TouchedAt(settingIntents, other) == old(TouchedAt(settingIntents, other))
    {
      settingIntents := settingIntents[plugin := TouchedAt(settingIntents, plugin) + values.Keys];
      plugins := plugins[plugin := Table(FieldsOf(Lookup(plugins, plugin)) + values)];
    }

    /** Invalidate a plugin's pending work: a new epoch, private until this Config is saved. */
    method RotatePluginEpoch(plugin: string, store: Store)
      requires Valid()
      modifies this`epochs, this`rotated, store`nextUuid
      ensures Valid()
      ensures Contents() == old(Contents()).(epochs := old(epochs)[plugin := old(store.nextUuid)],
                                             rotated := old(rotated) + {plugin})
      ensures store.nextUuid == old(store.nextUuid) + 1
    {
      var drawn := store.Uuid4();
      epochs := epochs[plugin := drawn];
      rotated := rotated + {plugin};
    }

    /**
     * `_save_locked`, the caller holding the save lock.  `writable` is false when the atomic
     * replacement fails: then, as on a conflict, neither the document nor this Config changes.
     */
    method SaveLocked(store: Store, override: Option<bool>, writable: bool) returns (saved: bool)
      requires Valid()
      modifies this, store
      ensures Valid()
      ensures var v := old(Contents());
              saved <==> writable && MergedSettings(v.baseline, v.settings, old(store.doc).settings, v.intents).Merged?
      ensures !saved ==> store.doc == old(store.doc) && Contents() == old(Contents())
      ensures saved ==> Published(old(store.doc), old(Contents()), override, old(store.nextUuid),
                                  store.doc, Contents(), store.nextUuid)
      ensures old(store.nextUuid) <= store.nextUuid
    {
      var next := NextDocument(store, Settings(enabled, intervals, plugins, webPort), epochs, rotated, baseline,
                               Intents(enabledIntents, intervalIntents, settingIntents), override);
      if next.None? || !writable { return false; }
      store.doc := next.value;
      Adopt(next.value);
      saved := true;
    }

    /** After a save the Config holds what was published and forgets its intents. */
    method Adopt(doc: Doc)
      modifies this
      ensures Contents() == Loaded(doc)
    {
      enabled, intervals, plugins := doc.settings.enabled, doc.settings.intervals, doc.settings.plugins;
      webPort, epochs, gate := doc.settings.webPort, doc.epochs, doc.gate;
      rotated, baseline := {}, doc.settings;
      enabledIntents, intervalIntents, settingIntents := {}, {}, map[];
    }
  }

  /** The plugins `invalidate_all_plugin_work` and the account transition rotate. */
  function KnownPlugins(doc: Doc): set<string> {
    doc.settings.enabled + doc.settings.plugins.Keys + doc.epochs.Keys
  }

  /** A freshly loaded Config with new private epochs for `targets`. */
  ghost predicate RotatedFrom(doc: Doc, targets: set<string>, next: nat, v: View, next': nat) {
    && next <= next'
    && v == Loaded(doc).(epochs := v.epochs, rotated := targets)
    && v.epochs.Keys == doc.epochs.Keys + targets
    && (forall p | p in targets :: next <= v.epochs[p] < next')
    && (forall p | p in doc.epochs.Keys - targets :: v.epochs[p] == doc.epochs[p])
  }

  /**
   * `invalidate_plugin_work`, `invalidate_all_plugin_work` and `_persist_account_transition`:
   * under the save lock, rotate the targets and save.  Settings never change here, so the save
   * cannot conflict; every target gets an epoch never drawn before and nothing else moves.
   */
  method RotateAndSave(store: Store, targets: set<string>, override: Option<bool>, writable: bool) returns (saved: bool)
    modifies store
    ensures saved == writable
    ensures !saved ==> store.doc == old(store.doc)
    ensures saved ==>
              && store.doc.settings == old(store.doc.settings)
              && store.doc.gate == (if override.Some? then override.value else old(store.doc.gate))
              && store.doc.epochs.Keys == old(store.doc.epochs.Keys) + targets
              && (forall p | p in targets :: old(store.nextUuid) <= store.doc.epochs[p] < store.nextUuid)
              && (forall p | p in old(store.doc.epochs).Keys - targets ::
                    store.doc.epochs[p] == old(store.doc.epochs)[p])
  {
    var cfg := new Config.Load(store.doc);
    var pending := targets;
    while pending != {}
      invariant pending <= targets && store.doc == old(store.doc)
      invariant cfg.Valid()
      invariant RotatedFrom(store.doc, targets - pending, old(store.nextUuid), cfg.Contents(), store.nextUuid)
      decreases pending
    {
      var p :| p in pending;
      cfg.RotatePluginEpoch(p, store);
      pending := pending - {p};
      assert targets - pending == targets - (pending + {p}) + {p};
    }
    assert targets - pending == targets;
    SettingsOverBaseline(store.doc.settings, store.doc.settings, NO_INTENTS);
    assert Changed(store.doc.settings, store.doc.settings) == {};
    saved := cfg.SaveLocked(store, override, writable);
  }

  // ---- What one publication may do -----------------------------------------------------------

  /** A save moves an epoch only if its Config rotated it, or its plugin effectively changed. */
  lemma {:induction false} StaleSaveKeepsEpochs(doc: Doc, v: View, override: Option<bool>, next: nat, doc': Doc,
                                                v': View, next': nat, p: string)
    requires RotationsPending(v) && Published(doc, v, override, next, doc', v', next')
    requires p !in v.rotated && SamePlugin(doc.settings, doc'.settings, p)
    ensures EpochOf(doc', p) == EpochOf(doc, p)
  {
    assert p !in Changed(doc.settings, doc'.settings);
    assert p in doc'.epochs <==> p in doc.epochs;
  }

  /** Conversely a changed plugin always gets a uuid drawn during this very save. */
  lemma {:induction false} ChangedPluginGetsFreshEpoch(doc: Doc, v: View, override: Option<bool>, next: nat,
                                                       doc': Doc, v': View, next': nat, p: string)
    requires RotationsPending(v) && Published(doc, v, override, next, doc', v', next')
    requires !SamePlugin(doc.settings, doc'.settings, p)
    ensures EpochOf(doc', p).Some? && next <= EpochOf(doc', p).value < next'
  {
    assert p in Changed(doc.settings, doc'.settings);
  }

  /** Saving a Config whose settings are exactly what it loaded publishes rotations and nothing else. */
  lemma {:induction false} RotationOnlySave(doc: Doc, v: View, override: Option<bool>, next: nat, doc': Doc,
                                            v': View, next': nat)
    requires RotationsPending(v) && Published(doc, v, override, next, doc', v', next')
    requires v.settings == v.baseline == doc.settings && v.intents == NO_INTENTS
    ensures doc'.settings == doc.settings && doc'.epochs.Keys == doc.epochs.Keys + v.rotated
  {
    SettingsOverBaseline(doc.settings, doc.settings, NO_INTENTS);
    NothingChanged(doc.settings);
  }

  lemma NothingChanged(settings: Settings)
    ensures Changed(settings, settings) == {}
  {
  }
}
