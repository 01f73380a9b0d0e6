/**
 * The three-way merge behind every configuration save (packages/collect/fulcra_collect/config.py).
 *
 * A saver holds the settings it loaded (`before`), the settings it now wants (`requested`) and,
 * under the save lock, the settings on disk (`current`).  A leaf the saver neither edited nor
 * touched explicitly keeps its disk value; any other leaf takes the requested value, but only
 * while disk still holds the baseline or already holds the request.
 */
module ConfigMerge {
  import opened Wrappers

  /** A TOML value after `_freeze`: comparison is structural. */
  datatype Value =
    | Flag(b: bool)
    | Num(n: int)
    | Text(s: string)
    | Items(items: seq<Value>)
    | Table(fields: map<string, Value>)

  type Fields = map<string, Value>
  type Touched = map<string, set<string>>

  datatype Merge<+T> = Merged(value: T) | Conflict

  datatype Settings = Settings(enabled: set<string>, intervals: Fields, plugins: Fields, webPort: int)

  /** What the caller submitted explicitly, changed or not. */
  datatype Intents = Intents(enabled: set<string>, intervals: set<string>, settings: Touched)

  function Lookup(m: Fields, key: string): Option<Value> {
    if key in m then Some(m[key]) else None
  }

  function TouchedAt(touched: Touched, key: string): set<string> {
    if key in touched then touched[key] else {}
  }

  function IsTable(v: Option<Value>): bool {
    v.Some? && v.value.Table?
  }

  function FieldsOf(v: Option<Value>): Fields {
    if IsTable(v) then v.value.fields else map[]
  }

  function MergeValue<T(==)>(before: T, requested: T, current: T, explicit: bool): Merge<T> {
    if !explicit && requested == before then Merged(current)
    else if current == before || current == requested then Merged(requested)
    else Conflict
  }

  /** Both sides hold a table here, so the fields are merged one by one. */
  predicate TableWise(was: Option<Value>, want: Option<Value>, now: Option<Value>) {
    IsTable(want) && IsTable(now) && (was.None? || IsTable(was))
  }

  /** The value one leaf of a mapping ends up with; a key no one wrote stays as it is on disk. */
  function MergeField(before: Fields, requested: Fields, current: Fields, touched: set<string>, key: string)
    : Merge<Option<Value>>
  {
    if key in before || key in requested then
      MergeValue(Lookup(before, key), Lookup(requested, key), Lookup(current, key), key in touched)
    else Merged(Lookup(current, key))
  }

  function MergedFields(before: Fields, requested: Fields, current: Fields, touched: set<string>): Merge<Fields> {
    if forall key | key in before.Keys + requested.Keys ::
         MergeField(before, requested, current, touched, key).Merged?
    then Merged(map key | key in before.Keys + requested.Keys + current.Keys
                          && MergeField(before, requested, current, touched, key).value.Some?
                  :: MergeField(before, requested, current, touched, key).value.value)
    else Conflict
  }

  /** What one plugin's settings end up as: merged field by field where both sides hold a table. */
  function MergePlugin(before: Fields, requested: Fields, current: Fields, touched: Touched, key: string)
    : Merge<Option<Value>>
  {
    var was, want, now := Lookup(before, key), Lookup(requested, key), Lookup(current, key);
    if was.None? && want.None? then Merged(now)
    else if TableWise(was, want, now) then
      match MergedFields(FieldsOf(was), want.value.fields, now.value.fields, TouchedAt(touched, key))
      case Merged(fields) => Merged(Some(Table(fields)))
      case Conflict => Conflict
    else MergeValue(was, want, now, TouchedAt(touched, key) != {})
  }

  function MergedPlugins(before: Fields, requested: Fields, current: Fields, touched: Touched): Merge<Fields> {
    if forall key | key in before.Keys + requested.Keys ::
         MergePlugin(before, requested, current, touched, key).Merged?
    then Merged(map key | key in before.Keys + requested.Keys + current.Keys
                          && MergePlugin(before, requested, current, touched, key).value.Some?
                  :: MergePlugin(before, requested, current, touched, key).value.value)
    else Conflict
  }

  lemma {:induction false} SameLookupsAreEqual(m: Fields, n: Fields)
    requires forall key :: Lookup(m, key) == Lookup(n, key)
    ensures m == n
  {
    forall key ensures key in m <==> key in n {
      assert Lookup(m, key) == Lookup(n, key);
    }
    forall key | key in m ensures m[key] == n[key] {
      assert Lookup(m, key) == Lookup(n, key);
    }
  }

  /** A successful merge holds, at every key, what that key merges to; and nothing else does. */
  lemma {:induction false} MergedFieldsAt(before: Fields, requested: Fields, current: Fields, touched: set<string>,
                                          m: Fields)
    requires forall key :: MergeField(before, requested, current, touched, key) == Merged(Lookup(m, key))
    ensures MergedFields(before, requested, current, touched) == Merged(m)
  {
    var merged := MergedFields(before, requested, current, touched).value;
    forall key ensures Lookup(merged, key) == Lookup(m, key) {
      assert MergeField(before, requested, current, touched, key) == Merged(Lookup(m, key));
    }
    SameLookupsAreEqual(merged, m);
  }

  lemma {:induction false} MergedPluginsAt(before: Fields, requested: Fields, current: Fields, touched: Touched,
                                           m: Fields)
    requires forall key :: MergePlugin(before, requested, current, touched, key) == Merged(Lookup(m, key))
    ensures MergedPlugins(before, requested, current, touched) == Merged(m)
  {
    var merged := MergedPlugins(before, requested, current, touched).value;
    forall key ensures Lookup(merged, key) == Lookup(m, key) {
      assert MergePlugin(before, requested, current, touched, key) == Merged(Lookup(m, key));
    }
    SameLookupsAreEqual(merged, m);
  }

  /** What `_merge_mapping` is to return: the nested form is used for the plugin tables only. */
  function MergedMapping(before: Fields, requested: Fields, current: Fields,
                         nested: bool, touched: set<string>, nestedTouched: Touched): Merge<Fields> {
    if nested then MergedPlugins(before, requested, current, nestedTouched)
    else MergedFields(before, requested, current, touched)
  }

  function MergeKey(before: Fields, requested: Fields, current: Fields,
                    nested: bool, touched: set<string>, nestedTouched: Touched, key: string): Merge<Option<Value>> {
    if nested then MergePlugin(before, requested, current, nestedTouched, key)
    else MergeField(before, requested, current, touched, key)
  }

  /** `_merge_mapping`: walk the edited keys over a copy of the disk mapping. */
  method MergeMapping(before: Fields, requested: Fields, current: Fields,
                      nested: bool, touched: set<string>, nestedTouched: Touched) returns (r: Merge<Fields>)
    requires nested ==> touched == {}
    requires !nested ==> nestedTouched == map[]
    ensures r == MergedMapping(before, requested, current, nested, touched, nestedTouched)
    decreases nested
  {
    var merged := current;
    var visited := before.Keys + requested.Keys;
    var pending := visited;
    while pending != {}
      invariant pending <= visited
      invariant forall key :: key !in visited || key in pending ==> Lookup(merged, key) == Lookup(current, key)
      invariant forall key | key in visited - pending ::
                  MergeKey(before, requested, current, nested, touched, nestedTouched, key)
                    == Merged(Lookup(merged, key))
      decreases pending
    {
      var key :| key in pending;
      var was, want, now := Lookup(before, key), Lookup(requested, key), Lookup(current, key);
      var outcome: Merge<Option<Value>>;
      if nested && TableWise(was, want, now) {
        var inner := MergeMapping(FieldsOf(was), want.value.fields, now.value.fields, false,
                                  TouchedAt(nestedTouched, key), map[]);
        outcome := if inner.Merged? then Merged(Some(Table(inner.value))) else Conflict;
      } else {
        outcome := MergeValue(was, want, now, key in touched || TouchedAt(nestedTouched, key) != {});
      }
      assert outcome == MergeKey(before, requested, current, nested, touched, nestedTouched, key);
      if outcome.Conflict? { return Conflict; }
      merged := if outcome.value.None? then merged - {key} else merged[key := outcome.value.value];
      pending := pending - {key};
    }
    r := Merged(merged);
    forall key
      ensures MergeKey(before, requested, current, nested, touched, nestedTouched, key) == Merged(Lookup(merged, key))
    {
    }
    if nested {
      MergedPluginsAt(before, requested, current, nestedTouched, merged);
    } else {
      MergedFieldsAt(before, requested, current, touched, merged);
    }
  }

  // ---- Field leaves of the plugin settings --------------------------------------------------

  /** One field of one plugin's table, if that plugin has a table with that field. */
  function FieldAt(plugins: Fields, plugin: string, field: string): Option<Value> {
    Lookup(FieldsOf(Lookup(plugins, plugin)), field)
  }

  /**
   * No lost update, field by field.  An edited or explicitly submitted field is published as
   * requested, every other field keeps what disk holds now, and a disk value is only ever
   * replaced when it still was the saver's baseline.
   */
  lemma {:induction false} NoLostUpdate(before: Fields, requested: Fields, current: Fields, touched: Touched,
                     plugin: string, field: string)
    requires MergedPlugins(before, requested, current, touched).Merged?
    ensures var was, want, now := FieldAt(before, plugin, field), FieldAt(requested, plugin, field),
                                  FieldAt(current, plugin, field);
            var published := FieldAt(MergedPlugins(before, requested, current, touched).value, plugin, field);
            var submitted := want.Some? && field in TouchedAt(touched, plugin);
            && (want != was || submitted ==> published == want)
            && (want == was ==> published == now)
            && (published != now ==> now == was)
  {
    PublishedPlugin(before, requested, current, touched, plugin);
    var was, want, now := Lookup(before, plugin), Lookup(requested, plugin), Lookup(current, plugin);
    if (was.Some? || want.Some?) && TableWise(was, want, now) {
      PublishedField(FieldsOf(was), want.value.fields, now.value.fields, TouchedAt(touched, plugin), field);
    }
  }

  lemma PublishedField(before: Fields, requested: Fields, current: Fields, touched: set<string>, key: string)
    requires MergedFields(before, requested, current, touched).Merged?
    ensures MergeField(before, requested, current, touched, key)
         == Merged(Lookup(MergedFields(before, requested, current, touched).value, key))
  {
  }

  lemma PublishedPlugin(before: Fields, requested: Fields, current: Fields, touched: Touched, key: string)
    requires MergedPlugins(before, requested, current, touched).Merged?
    ensures MergePlugin(before, requested, current, touched, key)
         == Merged(Lookup(MergedPlugins(before, requested, current, touched).value, key))
  {
  }

  // ---- Independent edits commute ------------------------------------------------------------

  /** The saver neither edited nor explicitly submitted anything of this plugin. */
  predicate Untouched(base: Fields, requested: Fields, touched: Touched, plugin: string) {
    Lookup(requested, plugin) == Lookup(base, plugin) && TouchedAt(touched, plugin) == {}
  }

  /** The saver and disk both hold a table, over a table or nothing. */
  predicate BothTables(was: Option<Value>, want: Option<Value>, now: Option<Value>) {
    && want.Some? && want.value.Table? && now.Some? && now.value.Table?
    && (was == None || (was.Some? && was.value.Table?))
  }

  /** Two savers with one baseline edit different plugins, or different fields of one plugin table. */
  ghost predicate DisjointAt(base: Fields, a: Fields, ta: Touched, b: Fields, tb: Touched, plugin: string) {
    || Untouched(base, a, ta, plugin)
    || Untouched(base, b, tb, plugin)
    || (&& BothTables(Lookup(base, plugin), Lookup(a, plugin), Lookup(b, plugin))
        && forall field ::
             || (FieldAt(a, plugin, field) == FieldAt(base, plugin, field) && field !in TouchedAt(ta, plugin))
             || (FieldAt(b, plugin, field) == FieldAt(base, plugin, field) && field !in TouchedAt(tb, plugin)))
  }

  ghost predicate DisjointEdits(base: Fields, a: Fields, ta: Touched, b: Fields, tb: Touched) {
    forall plugin :: DisjointAt(base, a, ta, b, tb, plugin)
  }

  /** Saving over an unchanged document publishes exactly the request. */
  lemma {:induction false} SaveOverBaseline(base: Fields, requested: Fields, touched: set<string>,
                                            nestedTouched: Touched)
    ensures MergedFields(base, requested, base, touched) == Merged(requested)
    ensures MergedPlugins(base, requested, base, nestedTouched) == Merged(requested)
  {
    MergedFieldsAt(base, requested, base, touched, requested);
    forall key ensures MergePlugin(base, requested, base, nestedTouched, key) == Merged(Lookup(requested, key)) {
      var was, want := Lookup(base, key), Lookup(requested, key);
      if TableWise(was, want, was) {
        MergedFieldsAt(FieldsOf(was), want.value.fields, FieldsOf(was), TouchedAt(nestedTouched, key),
                       want.value.fields);
      }
    }
    MergedPluginsAt(base, requested, base, nestedTouched, requested);
  }

  /** Within one mapping: edits of different keys merge in either order to the same mapping. */
  lemma {:induction false} FieldsCommute(base: Fields, a: Fields, ta: set<string>, b: Fields, tb: set<string>)
    requires forall key :: (Lookup(a, key) == Lookup(base, key) && key !in ta)
                        || (Lookup(b, key) == Lookup(base, key) && key !in tb)
    ensures MergedFields(base, b, a, tb).Merged?
    ensures MergedFields(base, b, a, tb) == MergedFields(base, a, b, ta)
  {
    forall key
      ensures MergeField(base, b, a, tb, key).Merged?
      ensures MergeField(base, b, a, tb, key) == MergeField(base, a, b, ta, key)
    {
      assert (Lookup(a, key) == Lookup(base, key) && key !in ta) || (Lookup(b, key) == Lookup(base, key) && key !in tb);
    }
    var m := MergedFields(base, b, a, tb).value;
    forall key ensures MergeField(base, a, b, ta, key) == Merged(Lookup(m, key)) {
      PublishedField(base, b, a, tb, key);
    }
    MergedFieldsAt(base, a, b, ta, m);
  }

  lemma {:induction false} PluginCommutes(base: Fields, a: Fields, ta: Touched, b: Fields, tb: Touched, plugin: string)
    requires DisjointAt(base, a, ta, b, tb, plugin)
    ensures MergePlugin(base, b, a, tb, plugin).Merged?
    ensures MergePlugin(base, b, a, tb, plugin) == MergePlugin(base, a, b, ta, plugin)
  {
    var was, fromA, fromB := Lookup(base, plugin), Lookup(a, plugin), Lookup(b, plugin);
    if TableWise(was, fromA, fromB) {
      var x, y, z := FieldsOf(was), FieldsOf(fromA), FieldsOf(fromB);
      forall key
        ensures (Lookup(y, key) == Lookup(x, key) && key !in TouchedAt(ta, plugin))
             || (Lookup(z, key) == Lookup(x, key) && key !in TouchedAt(tb, plugin))
      {
        assert FieldAt(a, plugin, key) == Lookup(y, key);
        assert FieldAt(b, plugin, key) == Lookup(z, key);
      }
      FieldsCommute(x, y, TouchedAt(ta, plugin), z, TouchedAt(tb, plugin));
    }
  }

  /** Both savers start from `base`; whoever saves second, both succeed and disk ends up the same. */
  lemma {:induction false} DisjointSavesCommute(base: Fields, a: Fields, ta: Touched, b: Fields, tb: Touched)
    requires DisjointEdits(base, a, ta, b, tb)
    ensures MergedPlugins(base, b, a, tb).Merged?
    ensures MergedPlugins(base, b, a, tb) == MergedPlugins(base, a, b, ta)
  {
    forall plugin
      ensures MergePlugin(base, b, a, tb, plugin).Merged?
      ensures MergePlugin(base, b, a, tb, plugin) == MergePlugin(base, a, b, ta, plugin)
    {
      assert DisjointAt(base, a, ta, b, tb, plugin);
      PluginCommutes(base, a, ta, b, tb, plugin);
    }
    var m := MergedPlugins(base, b, a, tb).value;
    forall plugin ensures MergePlugin(base, a, b, ta, plugin) == Merged(Lookup(m, plugin)) {
      PublishedPlugin(base, b, a, tb, plugin);
    }
    MergedPluginsAt(base, a, b, ta, m);
  }

  // ---- All settings together ----------------------------------------------------------------

  /** The enabled flag of one plugin after the merge. */
  function MergeFlag(before: Settings, requested: Settings, current: Settings, intents: Intents,
                     plugin: string): Merge<bool> {
    if plugin in before.enabled + requested.enabled + intents.enabled then
      MergeValue(plugin in before.enabled, plugin in requested.enabled, plugin in current.enabled,
                 plugin in intents.enabled)
    else Merged(plugin in current.enabled)
  }

  /** `_merge_settings`: every part merges, or nothing does. */
  function MergedSettings(before: Settings, requested: Settings, current: Settings, intents: Intents): Merge<Settings> {
    var everyone := before.enabled + requested.enabled + current.enabled + intents.enabled;
    var intervals := MergedFields(before.intervals, requested.intervals, current.intervals, intents.intervals);
    var plugins := MergedPlugins(before.plugins, requested.plugins, current.plugins, intents.settings);
    var webPort := MergeValue(before.webPort, requested.webPort, current.webPort, false);
    if (forall p | p in everyone :: MergeFlag(before, requested, current, intents, p).Merged?)
       && intervals.Merged? && plugins.Merged? && webPort.Merged? then
      Merged(Settings((set p | p in everyone && MergeFlag(before, requested, current, intents, p) == Merged(true)),
                      intervals.value, plugins.value, webPort.value))
    else Conflict
  }

  method MergeSettings(before: Settings, requested: Settings, current: Settings, intents: Intents)
    returns (r: Merge<Settings>)
    ensures r == MergedSettings(before, requested, current, intents)
  {
    var enabled := current.enabled;
    var visited := before.enabled + requested.enabled + intents.enabled;
    var pending := visited;
    while pending != {}
      invariant pending <= visited
      invariant forall p | p in visited - pending :: MergeFlag(before, requested, current, intents, p).Merged?
      invariant forall p :: p in enabled <==>
                  if p in visited - pending then MergeFlag(before, requested, current, intents, p) == Merged(true)
                  else p in current.enabled
      decreases pending
    {
      var p :| p in pending;
      var flag := MergeValue(p in before.enabled, p in requested.enabled, p in current.enabled, p in intents.enabled);
      assert flag == MergeFlag(before, requested, current, intents, p);
      if flag.Conflict? { return Conflict; }
      enabled := if flag.value then enabled + {p} else enabled - {p};
      pending := pending - {p};
    }
    var intervals := MergeMapping(before.intervals, requested.intervals, current.intervals, false,
                                  intents.intervals, map[]);
    if intervals.Conflict? { return Conflict; }
    var plugins := MergeMapping(before.plugins, requested.plugins, current.plugins, true, {}, intents.settings);
    if plugins.Conflict? { return Conflict; }
    var webPort := MergeValue(before.webPort, requested.webPort, current.webPort, false);
    if webPort.Conflict? { return Conflict; }
    r := Merged(Settings(enabled, intervals.value, plugins.value, webPort.value));
    assert enabled == MergedSettings(before, requested, current, intents).value.enabled;
  }

  ghost predicate DisjointSettings(base: Settings, a: Settings, ia: Intents, b: Settings, ib: Intents) {
    && (forall p :: ((p in a.enabled <==> p in base.enabled) && p !in ia.enabled)
                 || ((p in b.enabled <==> p in base.enabled) && p !in ib.enabled))
    && (forall key :: (Lookup(a.intervals, key) == Lookup(base.intervals, key) && key !in ia.intervals)
                   || (Lookup(b.intervals, key) == Lookup(base.intervals, key) && key !in ib.intervals))
    && DisjointEdits(base.plugins, a.plugins, ia.settings, b.plugins, ib.settings)
    && (a.webPort == base.webPort || b.webPort == base.webPort)
  }

  /** The whole-document law: independent saves from one baseline succeed and commute. */
  lemma {:induction false} DisjointSettingsCommute(base: Settings, a: Settings, ia: Intents, b: Settings, ib: Intents)
    requires DisjointSettings(base, a, ia, b, ib)
    ensures MergedSettings(base, a, base, ia) == Merged(a)
    ensures MergedSettings(base, b, base, ib) == Merged(b)
    ensures MergedSettings(base, b, a, ib).Merged?
    ensures MergedSettings(base, b, a, ib) == MergedSettings(base, a, b, ia)
  {
    SettingsOverBaseline(base, a, ia);
    SettingsOverBaseline(base, b, ib);
    DisjointSavesCommute(base.plugins, a.plugins, ia.settings, b.plugins, ib.settings);
    FieldsCommute(base.intervals, a.intervals, ia.intervals, b.intervals, ib.intervals);
    forall p
      ensures MergeFlag(base, b, a, ib, p).Merged? && MergeFlag(base, b, a, ib, p) == MergeFlag(base, a, b, ia, p)
    {
      FlagsCommute(base, a, ia, b, ib, p);
    }
    SameFlagsSameSettings(base, b, a, ib, a, b, ia);
  }

  lemma FlagsCommute(base: Settings, a: Settings, ia: Intents, b: Settings, ib: Intents, p: string)
    requires ((p in a.enabled <==> p in base.enabled) && p !in ia.enabled)
          || ((p in b.enabled <==> p in base.enabled) && p !in ib.enabled)
    ensures MergeFlag(base, b, a, ib, p).Merged? && MergeFlag(base, b, a, ib, p) == MergeFlag(base, a, b, ia, p)
  {
  }

  lemma {:induction false} SameFlagsSameSettings(base: Settings, r: Settings, c: Settings, i: Intents, r': Settings,
                                                 c': Settings, i': Intents)
    requires forall p :: MergeFlag(base, r, c, i, p).Merged?
                      && MergeFlag(base, r, c, i, p) == MergeFlag(base, r', c', i', p)
    requires MergedFields(base.intervals, r.intervals, c.intervals, i.intervals).Merged?
    requires MergedFields(base.intervals, r.intervals, c.intervals, i.intervals)
          == MergedFields(base.intervals, r'.intervals, c'.intervals, i'.intervals)
    requires MergedPlugins(base.plugins, r.plugins, c.plugins, i.settings).Merged?
    requires MergedPlugins(base.plugins, r.plugins, c.plugins, i.settings)
          == MergedPlugins(base.plugins, r'.plugins, c'.plugins, i'.settings)
    requires MergeValue(base.webPort, r.webPort, c.webPort, false).Merged?
    requires MergeValue(base.webPort, r.webPort, c.webPort, false)
             == MergeValue(base.webPort, r'.webPort, c'.webPort, false)
    ensures MergedSettings(base, r, c, i).Merged? && MergedSettings(base, r, c, i) == MergedSettings(base, r', c', i')
  {
    var one, two := MergedSettings(base, r, c, i), MergedSettings(base, r', c', i');
    assert one.Merged? && two.Merged?;
    forall p ensures p in one.value.enabled <==> p in two.value.enabled {
      assert MergeFlag(base, r, c, i, p) == MergeFlag(base, r', c', i', p);
    }
    assert one.value.enabled == two.value.enabled;
  }

  lemma {:induction false} SettingsOverBaseline(base: Settings, requested: Settings, intents: Intents)
    ensures MergedSettings(base, requested, base, intents) == Merged(requested)
  {
    SaveOverBaseline(base.intervals, requested.intervals, intents.intervals, map[]);
    SaveOverBaseline(base.plugins, requested.plugins, {}, intents.settings);
    var merged := MergedSettings(base, requested, base, intents);
    assert forall p :: MergeFlag(base, requested, base, intents, p) == Merged(p in requested.enabled);
    assert merged.value.enabled == requested.enabled;
  }

  /**
   * No lost update, at one leaf: edited or submitted means published as requested, unedited means
   * published as on disk, and what disk holds is replaced only while it is the baseline.
   */
  predicate Kept<T(==)>(was: T, want: T, now: T, published: T, submitted: bool) {
    && (want != was || submitted ==> published == want)
    && (want == was ==> published == now)
    && (published != now ==> now == was)
  }

  /** At every key of a flat mapping. */
  ghost predicate KeysKept(before: Fields, requested: Fields, current: Fields, merged: Fields, touched: set<string>) {
    forall key :: Kept(Lookup(before, key), Lookup(requested, key), Lookup(current, key), Lookup(merged, key),
                       key in touched && key in before.Keys + requested.Keys)
  }

  /** At every field of every plugin table. */
  ghost predicate FieldsKept(before: Fields, requested: Fields, current: Fields, merged: Fields, touched: Touched) {
    forall p, field :: Kept(FieldAt(before, p, field), FieldAt(requested, p, field), FieldAt(current, p, field),
                            FieldAt(merged, p, field),
                            field in TouchedAt(touched, p) && FieldAt(requested, p, field).Some?)
  }

  /** At every plugin as a whole, where its settings are not all tables. */
  ghost predicate PluginsKept(before: Fields, requested: Fields, current: Fields, merged: Fields, touched: Touched) {
    forall p :: || BothTables(Lookup(before, p), Lookup(requested, p), Lookup(current, p))
                || Kept(Lookup(before, p), Lookup(requested, p), Lookup(current, p), Lookup(merged, p),
                        TouchedAt(touched, p) != {} && p in before.Keys + requested.Keys)
  }

  /** No lost update at any leaf: every flag, interval and plugin field, settings that are no table, the port. */
  lemma {:induction false} NoLeafIsLost(before: Settings, requested: Settings, current: Settings, intents: Intents)
    requires MergedSettings(before, requested, current, intents).Merged?
    ensures var m := MergedSettings(before, requested, current, intents).value;
            && (forall p :: Kept(p in before.enabled, p in requested.enabled, p in current.enabled, p in m.enabled,
                                 p in intents.enabled))
            && KeysKept(before.intervals, requested.intervals, current.intervals, m.intervals, intents.intervals)
            && FieldsKept(before.plugins, requested.plugins, current.plugins, m.plugins, intents.settings)
            && PluginsKept(before.plugins, requested.plugins, current.plugins, m.plugins, intents.settings)
            && Kept(before.webPort, requested.webPort, current.webPort, m.webPort, false)
  {
    forall p
      ensures Kept(p in before.enabled, p in requested.enabled, p in current.enabled,
                   p in MergedSettings(before, requested, current, intents).value.enabled, p in intents.enabled)
    {
      FlagIsKept(before, requested, current, intents, p);
    }
    KeysAreKept(before.intervals, requested.intervals, current.intervals, intents.intervals);
    PluginsAreKept(before.plugins, requested.plugins, current.plugins, intents.settings);
  }

  lemma {:induction false} KeysAreKept(before: Fields, requested: Fields, current: Fields, touched: set<string>)
    requires MergedFields(before, requested, current, touched).Merged?
    ensures KeysKept(before, requested, current, MergedFields(before, requested, current, touched).value, touched)
  {
    var m := MergedFields(before, requested, current, touched).value;
    forall key
      ensures Kept(Lookup(before, key), Lookup(requested, key), Lookup(current, key), Lookup(m, key),
                   key in touched && key in before.Keys + requested.Keys)
    {
      PublishedField(before, requested, current, touched, key);
    }
  }

  lemma {:induction false} PluginsAreKept(before: Fields, requested: Fields, current: Fields, touched: Touched)
    requires MergedPlugins(before, requested, current, touched).Merged?
    ensures var m := MergedPlugins(before, requested, current, touched).value;
            && FieldsKept(before, requested, current, m, touched)
            && PluginsKept(before, requested, current, m, touched)
  {
    var m := MergedPlugins(before, requested, current, touched).value;
    forall p, field
      ensures Kept(FieldAt(before, p, field), FieldAt(requested, p, field), FieldAt(current, p, field),
                   FieldAt(m, p, field), field in TouchedAt(touched, p) && FieldAt(requested, p, field).Some?)
    {
      NoLostUpdate(before, requested, current, touched, p, field);
    }
    forall p
      ensures BothTables(Lookup(before, p), Lookup(requested, p), Lookup(current, p))
              || Kept(Lookup(before, p), Lookup(requested, p), Lookup(current, p), Lookup(m, p),
                      TouchedAt(touched, p) != {} && p in before.Keys + requested.Keys)
    {
      PublishedPlugin(before, requested, current, touched, p);
    }
  }

  lemma {:induction false} FlagIsKept(before: Settings, requested: Settings, current: Settings, intents: Intents,
                                      p: string)
    requires MergedSettings(before, requested, current, intents).Merged?
    ensures Kept(p in before.enabled, p in requested.enabled, p in current.enabled,
                 p in MergedSettings(before, requested, current, intents).value.enabled, p in intents.enabled)
  {
    var everyone := before.enabled + requested.enabled + current.enabled + intents.enabled;
    assert p in everyone ==> MergeFlag(before, requested, current, intents, p).Merged?;
  }

  // ---- When a save is refused ---------------------------------------------------------------

  /** Everything the merge decides on by itself. */
  datatype Leaf = FlagOf(plugin: string) | IntervalOf(key: string) | FieldOf(plugin: string, field: string)
                | WholePlugin(plugin: string) | Port

  /** The saver edited or submitted it, and disk holds neither its baseline nor its request. */
  predicate Clash<T(==)>(was: T, want: T, now: T, explicit: bool) {
    (explicit || want != was) && now != was && now != want
  }

  predicate KeyClash(before: Fields, requested: Fields, current: Fields, touched: set<string>, key: string) {
    (key in before || key in requested)
      && Clash(Lookup(before, key), Lookup(requested, key), Lookup(current, key), key in touched)
  }

  predicate Clashes(before: Settings, requested: Settings, current: Settings, intents: Intents, leaf: Leaf) {
    match leaf
    case FlagOf(p) => Clash(p in before.enabled, p in requested.enabled, p in current.enabled, p in intents.enabled)
    case IntervalOf(key) => KeyClash(before.intervals, requested.intervals, current.intervals, intents.intervals, key)
    case FieldOf(p, field) =>
      var was, want, now := Lookup(before.plugins, p), Lookup(requested.plugins, p), Lookup(current.plugins, p);
      BothTables(was, want, now)
        && KeyClash(FieldsOf(was), FieldsOf(want), FieldsOf(now), TouchedAt(intents.settings, p), field)
    case WholePlugin(p) =>
      var was, want, now := Lookup(before.plugins, p), Lookup(requested.plugins, p), Lookup(current.plugins, p);
      (was.Some? || want.Some?) && !BothTables(was, want, now)
        && Clash(was, want, now, TouchedAt(intents.settings, p) != {})
    case Port => Clash(before.webPort, requested.webPort, current.webPort, false)
  }

  lemma {:induction false} FieldsRefusedIff(before: Fields, requested: Fields, current: Fields, touched: set<string>)
    ensures MergedFields(before, requested, current, touched).Conflict? <==>
            exists key :: KeyClash(before, requested, current, touched, key)
  {
    forall key
      ensures KeyClash(before, requested, current, touched, key) <==>
                MergeField(before, requested, current, touched, key).Conflict?
    {
    }
    if key :| KeyClash(before, requested, current, touched, key) { assert key in before.Keys + requested.Keys; }
    if MergedFields(before, requested, current, touched).Conflict? {
      var key :| key in before.Keys + requested.Keys && MergeField(before, requested, current, touched, key).Conflict?;
      assert KeyClash(before, requested, current, touched, key);
    }
  }

  ghost predicate PluginClash(before: Settings, requested: Settings, current: Settings, intents: Intents, p: string) {
    Clashes(before, requested, current, intents, WholePlugin(p))
      || exists field :: Clashes(before, requested, current, intents, FieldOf(p, field))
  }

  lemma {:induction false} PluginRefusedIff(before: Settings, requested: Settings, current: Settings, intents: Intents,
                                            p: string)
    ensures MergePlugin(before.plugins, requested.plugins, current.plugins, intents.settings, p).Conflict? <==>
            PluginClash(before, requested, current, intents, p)
  {
    var was, want, now := Lookup(before.plugins, p), Lookup(requested.plugins, p), Lookup(current.plugins, p);
    if TableWise(was, want, now) {
      var touched := TouchedAt(intents.settings, p);
      FieldsRefusedIff(FieldsOf(was), FieldsOf(want), FieldsOf(now), touched);
      forall field
        ensures Clashes(before, requested, current, intents, FieldOf(p, field)) <==>
                  KeyClash(FieldsOf(was), FieldsOf(want), FieldsOf(now), touched, field)
      {
      }
      if field :| KeyClash(FieldsOf(was), FieldsOf(want), FieldsOf(now), touched, field) {
        assert Clashes(before, requested, current, intents, FieldOf(p, field));
      }
    } else {
      forall field ensures !Clashes(before, requested, current, intents, FieldOf(p, field)) {
      }
    }
  }

  lemma {:induction false} PluginsRefusedIff(before: Settings, requested: Settings, current: Settings, intents: Intents)
    ensures MergedPlugins(before.plugins, requested.plugins, current.plugins, intents.settings).Conflict? <==>
            exists p :: PluginClash(before, requested, current, intents, p)
  {
    hide MergePlugin, PluginClash;
    forall p
      ensures MergePlugin(before.plugins, requested.plugins, current.plugins, intents.settings, p).Conflict? <==>
                PluginClash(before, requested, current, intents, p)
    {
      PluginRefusedIff(before, requested, current, intents, p);
    }
    if p :| PluginClash(before, requested, current, intents, p) {
      UnknownPluginMerges(before.plugins, requested.plugins, current.plugins, intents.settings, p);
      assert p in before.plugins.Keys + requested.plugins.Keys;
    }
    if MergedPlugins(before.plugins, requested.plugins, current.plugins, intents.settings).Conflict? {
      var p :| p in before.plugins.Keys + requested.plugins.Keys
               && MergePlugin(before.plugins, requested.plugins, current.plugins, intents.settings, p).Conflict?;
      assert PluginClash(before, requested, current, intents, p);
    }
  }

  lemma UnknownPluginMerges(before: Fields, requested: Fields, current: Fields, touched: Touched, p: string)
    ensures p !in before && p !in requested ==> MergePlugin(before, requested, current, touched, p).Merged?
  {
  }

  /**
   * A save is refused exactly if some leaf -- a flag, an interval, a field of a plugin's table, a
   * plugin's settings that are no table, the port -- was edited or submitted by the saver while disk
   * holds neither its baseline nor the requested value.
   */
  lemma {:induction false} RefusedIff(before: Settings, requested: Settings, current: Settings, intents: Intents)
    ensures MergedSettings(before, requested, current, intents).Conflict? <==>
            exists leaf :: Clashes(before, requested, current, intents, leaf)
  {
    FieldsRefusedIff(before.intervals, requested.intervals, current.intervals, intents.intervals);
    PluginsRefusedIff(before, requested, current, intents);
    forall p
      ensures MergeFlag(before, requested, current, intents, p).Conflict? <==>
                Clashes(before, requested, current, intents, FlagOf(p))
    {
    }
    if leaf :| Clashes(before, requested, current, intents, leaf) {
      LeafRefuses(before, requested, current, intents, leaf);
    }
    if MergedSettings(before, requested, current, intents).Conflict? {
      SomeLeafClashes(before, requested, current, intents);
    }
  }

  lemma {:induction false} LeafRefuses(before: Settings, requested: Settings, current: Settings, intents: Intents,
                                       leaf: Leaf)
    requires Clashes(before, requested, current, intents, leaf)
    ensures MergedSettings(before, requested, current, intents).Conflict?
  {
    match leaf
    case FlagOf(p) =>
      assert p in before.enabled + requested.enabled + current.enabled + intents.enabled;
      assert MergeFlag(before, requested, current, intents, p).Conflict?;
    case IntervalOf(key) => FieldsRefusedIff(before.intervals, requested.intervals, current.intervals,
                                             intents.intervals);
    case FieldOf(p, _) =>
      assert PluginClash(before, requested, current, intents, p);
      PluginsRefusedIff(before, requested, current, intents);
    case WholePlugin(p) =>
      assert PluginClash(before, requested, current, intents, p);
      PluginsRefusedIff(before, requested, current, intents);
    case Port =>
  }

  lemma {:induction false} SomeLeafClashes(before: Settings, requested: Settings, current: Settings, intents: Intents)
    requires MergedSettings(before, requested, current, intents).Conflict?
    ensures exists leaf :: Clashes(before, requested, current, intents, leaf)
  {
    FieldsRefusedIff(before.intervals, requested.intervals, current.intervals, intents.intervals);
    PluginsRefusedIff(before, requested, current, intents);
    if p :|
      p in before.enabled + requested.enabled + current.enabled + intents.enabled &&
      MergeFlag(before, requested, current, intents, p).Conflict? {
      assert Clashes(before, requested, current, intents, FlagOf(p));
    } else if key :| KeyClash(before.intervals, requested.intervals, current.intervals, intents.intervals, key) {
      assert Clashes(before, requested, current, intents, IntervalOf(key));
    } else if p :| PluginClash(before, requested, current, intents, p) {
      if field :| Clashes(before, requested, current, intents, FieldOf(p, field)) {
      } else {
        assert Clashes(before, requested, current, intents, WholePlugin(p));
      }
    } else {
      assert Clashes(before, requested, current, intents, Port);
    }
  }
}
