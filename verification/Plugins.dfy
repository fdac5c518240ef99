/** The plugin lifecycle over three stores: the manager's records, the capability registry and the
    runtime's handler table. */
module Plugins {
  import opened Schemas
  import opened Capabilities

  type Handler = nat  // an opaque token

  datatype Package = Package(
    name: string,
    version: Version,
    capabilities: seq<Manifest>,
    requested: set<string>,
    hasEntrypoint: bool)

  datatype PluginStatus = INSTALLED | DISABLED | REMOVED

  datatype PluginRecord = PluginRecord(
    package: Package,
    status: PluginStatus,
    ids: seq<CapabilityId>,
    previous: seq<Version>)

  /** What calling the entrypoint gives: an exception, something else, or handlers by name. */
  datatype Loaded = Failed | NotHandlers | Handlers(byName: map<string, Handler>)

  datatype PluginError =
    | AlreadyInstalled | NotInstalled | SameVersion | WrongStatus
    | PackageRejected | EntrypointFailed | WiringFailed(cause: RegistryError)

  type Plugins = map<string, PluginRecord>

  function Names(p: Package): set<string> { set m | m in p.capabilities :: m.id.name }

  function IdSet(ms: seq<Manifest>): set<CapabilityId> { set m | m in ms :: m.id }

  function CapIds(p: Package): set<CapabilityId> { IdSet(p.capabilities) }

  lemma IdSetAppend(ms: seq<Manifest>, m: Manifest)
    ensures IdSet(ms + [m]) == IdSet(ms) + {m.id}
  {}

  function IdList(ms: seq<Manifest>): seq<CapabilityId> {
    seq(|ms|, i requires 0 <= i < |ms| => ms[i].id)
  }

  predicate DistinctNames(ms: seq<Manifest>) {
    forall i, j :: 0 <= i < j < |ms| ==> ms[i].id.name != ms[j].id.name
  }

  /** The package's own validation. */
  predicate ValidPackage(p: Package) {
    && !Blank(p.name) && SuffixOk(p.version.suffix)
    && p.capabilities != [] && p.hasEntrypoint && DistinctNames(p.capabilities)
    && forall m :: m in p.capabilities ==> WellFormed(m) && m.permissions <= p.requested
  }

  /** Some plugin other than `ignore` that is not removed provides the name. */
  ghost predicate Provided(plugins: Plugins, ignore: Option<string>, name: string) {
    exists n :: n in plugins && plugins[n].status != REMOVED && Some(n) != ignore && name in Names(plugins[n].package)
  }

  ghost predicate Acceptable(plugins: Plugins, allowed: Option<set<string>>, p: Package, ignore: Option<string>) {
    && ValidPackage(p)
    && (allowed.Some? ==> p.requested <= allowed.value)
    && forall m :: m in p.capabilities ==> !Provided(plugins, ignore, m.id.name)
  }

  /** What a package is checked for: it is valid, asks for no more than is allowed, and shares no capability
      name with a plugin that is not removed, other than the one it replaces. */
  lemma AcceptableSays(plugins: Plugins, allowed: Option<set<string>>, p: Package, ignore: Option<string>)
    ensures Acceptable(plugins, allowed, p, ignore) <==>
              && !Blank(p.name) && SuffixOk(p.version.suffix) && p.capabilities != [] && p.hasEntrypoint
              && (forall i, j :: 0 <= i < j < |p.capabilities| ==>
                    p.capabilities[i].id.name != p.capabilities[j].id.name)
              && (forall i :: 0 <= i < |p.capabilities| ==>
                    WellFormed(p.capabilities[i]) && p.capabilities[i].permissions <= p.requested)
              && (allowed.Some? ==> p.requested <= allowed.value)
              && (forall n, i, j :: n in plugins && plugins[n].status != REMOVED && Some(n) != ignore
                                    && 0 <= i < |p.capabilities| && 0 <= j < |plugins[n].package.capabilities| ==>
                    p.capabilities[i].id.name != plugins[n].package.capabilities[j].id.name)
  {
    hide Blank, SuffixOk, WellFormed;
    ValidPackageSays(p);
    hide ValidPackage;
    forall n, name | n in plugins
      ensures name in Names(plugins[n].package) <==>
              exists j :: 0 <= j < |plugins[n].package.capabilities|
                          && plugins[n].package.capabilities[j].id.name == name
    {
      NamedBy(plugins[n].package, name);
    }
    hide Names;
    if forall m :: m in p.capabilities ==> !Provided(plugins, ignore, m.id.name) {
      forall n, i, j | n in plugins && plugins[n].status != REMOVED && Some(n) != ignore
                       && 0 <= i < |p.capabilities| && 0 <= j < |plugins[n].package.capabilities|
        ensures p.capabilities[i].id.name != plugins[n].package.capabilities[j].id.name
      {
        assert p.capabilities[i] in p.capabilities;
        assert !Provided(plugins, ignore, p.capabilities[i].id.name);
      }
    }
  }

  lemma NamedBy(p: Package, name: string)
    ensures name in Names(p) <==> exists j :: 0 <= j < |p.capabilities| && p.capabilities[j].id.name == name
  {
    if name in Names(p) {
      var m :| m in p.capabilities && m.id.name == name;
      var j :| 0 <= j < |p.capabilities| && p.capabilities[j] == m;
      assert p.capabilities[j].id.name == name;
    }
    if j :| 0 <= j < |p.capabilities| && p.capabilities[j].id.name == name {
      assert p.capabilities[j] in p.capabilities;
    }
  }

  lemma ValidPackageSays(p: Package)
    ensures ValidPackage(p) <==>
              && !Blank(p.name) && SuffixOk(p.version.suffix) && p.capabilities != [] && p.hasEntrypoint
              && (forall i, j :: 0 <= i < j < |p.capabilities| ==>
                    p.capabilities[i].id.name != p.capabilities[j].id.name)
              && (forall i :: 0 <= i < |p.capabilities| ==>
                    WellFormed(p.capabilities[i]) && p.capabilities[i].permissions <= p.requested)
  {
    hide Blank, SuffixOk, WellFormed;
  }

  /** The entrypoint returned a handler for exactly the package's capabilities. */
  predicate Covers(p: Package, loaded: Loaded) {
    loaded.Handlers? && loaded.byName.Keys == Names(p)
  }

  // -- what is in service ------------------------------------------------------------------------

  /** The ids of the capabilities of installed plugins. */
  ghost function Wanted(plugins: Plugins): set<CapabilityId> {
    set n, id | n in plugins && id in CapIds(plugins[n].package) && plugins[n].status == INSTALLED :: id
  }

  function ActiveIds(records: Records): set<CapabilityId> {
    set id | id in records && records[id].status == ACTIVE
  }

  ghost predicate WellKept(plugins: Plugins) {
    forall n :: n in plugins ==>
                  && plugins[n].package.name == n && ValidPackage(plugins[n].package)
                  && plugins[n].ids == IdList(plugins[n].package.capabilities)
  }

  /** Plugins that are not removed provide disjoint names. */
  ghost predicate Disjoint(plugins: Plugins) {
    forall n, n' :: n in plugins && n' in plugins && n != n'
                    && plugins[n].status != REMOVED && plugins[n'].status != REMOVED ==>
                      Names(plugins[n].package) !! Names(plugins[n'].package)
  }

  /** Everything installed plugins provide is active and has a handler. */
  ghost predicate Serving(plugins: Plugins, records: Records, handlers: map<CapabilityId, Handler>) {
    Wanted(plugins) <= ActiveIds(records) && Wanted(plugins) <= handlers.Keys
  }

  /** The ids of the capabilities of disabled plugins. */
  ghost function Shelved(plugins: Plugins): set<CapabilityId> {
    set n, id | n in plugins && id in CapIds(plugins[n].package) && plugins[n].status == DISABLED :: id
  }

  /** Nothing disabled plugins provide is active or has a handler. */
  ghost predicate Resting(plugins: Plugins, records: Records, handlers: map<CapabilityId, Handler>) {
    Shelved(plugins) !! ActiveIds(records) + handlers.Keys
  }

  /** What is active without any installed plugin providing it: registered by others, or left behind. */
  ghost function Foreign(plugins: Plugins, records: Records): set<CapabilityId> {
    ActiveIds(records) - Wanted(plugins)
  }

  lemma IdName(p: Package, id: CapabilityId)
    requires id in CapIds(p)
    ensures id.name in Names(p)
  {}

  lemma OutsideNames(p: Package, id: CapabilityId)
    requires id.name !in Names(p)
    ensures id !in CapIds(p)
  {}

  /** What is wanted splits into what plugin `n` provides and what the others do. */
  lemma WantedWithout(plugins: Plugins, n: string, r: PluginRecord)
    requires n !in plugins || plugins[n].status != INSTALLED
    ensures Wanted(plugins[n := r]) == Wanted(plugins) + if r.status == INSTALLED then CapIds(r.package) else {}
  {
    var after := plugins[n := r];
    forall id
      ensures id in Wanted(after) <==> id in Wanted(plugins) || (r.status == INSTALLED && id in CapIds(r.package))
    {
      if id in Wanted(plugins) {
        var k :| k in plugins && id in CapIds(plugins[k].package) && plugins[k].status == INSTALLED;
        assert k in after && after[k] == plugins[k];
      }
      if r.status == INSTALLED && id in CapIds(r.package) { assert n in after && after[n] == r; }
    }
  }

  /** Taking an installed plugin out of service takes away exactly its ids. */
  lemma WantedTaken(plugins: Plugins, n: string, r: PluginRecord)
    requires n in plugins && plugins[n].status == INSTALLED && Disjoint(plugins) && r.status != INSTALLED
    ensures Wanted(plugins[n := r]) == Wanted(plugins) - CapIds(plugins[n].package)
    ensures CapIds(plugins[n].package) <= Wanted(plugins)
  {
    var after := plugins[n := r];
    forall id ensures id in Wanted(after) <==> id in Wanted(plugins) && id !in CapIds(plugins[n].package) {
      if id in Wanted(after) {
        var k :| k in after && id in CapIds(after[k].package) && after[k].status == INSTALLED;
        assert k != n && plugins[k] == after[k];
        IdName(plugins[k].package, id);
        if id in CapIds(plugins[n].package) { IdName(plugins[n].package, id); }
      }
      if id in Wanted(plugins) && id !in CapIds(plugins[n].package) {
        var k :| k in plugins && id in CapIds(plugins[k].package) && plugins[k].status == INSTALLED;
        assert k in after && after[k] == plugins[k];
      }
    }
  }

  lemma ShelvedOne(plugins: Plugins, n: string)
    requires n in plugins && plugins[n].status == DISABLED
    ensures CapIds(plugins[n].package) <= Shelved(plugins)
  {}

  /** One plugin's change takes from or adds to what is shelved only that plugin's ids. */
  lemma ShelvedWith(plugins: Plugins, n: string, r: PluginRecord)
    ensures Shelved(plugins[n := r]) <= Shelved(plugins) + if r.status == DISABLED then CapIds(r.package) else {}
  {
    var after := plugins[n := r];
    forall id | id in Shelved(after)
      ensures id in Shelved(plugins) || (r.status == DISABLED && id in CapIds(r.package))
    {
      var k :| k in after && id in CapIds(after[k].package) && after[k].status == DISABLED;
      if k != n { assert k in plugins && plugins[k] == after[k]; }
    }
  }

  /** What is shelved is not wanted. */
  lemma ShelvedIsUnwanted(plugins: Plugins)
    requires Disjoint(plugins)
    ensures Shelved(plugins) !! Wanted(plugins)
  {
    hide Disjoint, Wanted, CapIds;
    forall id | id in Shelved(plugins) ensures id !in Wanted(plugins) {
      var n :| n in plugins && id in CapIds(plugins[n].package) && plugins[n].status == DISABLED;
      NotInService(plugins, n, id);
    }
  }

  /** The ids of an acceptable package are not shelved, except through the plugin being replaced. */
  lemma AcceptableIsUnshelved(plugins: Plugins, allowed: Option<set<string>>, p: Package, ignore: Option<string>,
                              id: CapabilityId)
    requires Acceptable(plugins, allowed, p, ignore) && id in CapIds(p) && id in Shelved(plugins)
    ensures ignore.Some? && ignore.value in plugins && plugins[ignore.value].status == DISABLED
    ensures id in CapIds(plugins[ignore.value].package)
  {
    IdName(p, id);
    var k :| k in plugins && id in CapIds(plugins[k].package) && plugins[k].status == DISABLED;
    IdName(plugins[k].package, id);
    var m :| m in p.capabilities && m.id == id;
    assert !Provided(plugins, ignore, m.id.name);
  }

  /** The ids of an acceptable package are not in service, except through the plugin being replaced. */
  lemma AcceptableIsFree(plugins: Plugins, allowed: Option<set<string>>, p: Package, ignore: Option<string>,
                         id: CapabilityId)
    requires Acceptable(plugins, allowed, p, ignore) && id in CapIds(p) && id in Wanted(plugins)
    ensures ignore.Some? && ignore.value in plugins && plugins[ignore.value].status == INSTALLED
    ensures id in CapIds(plugins[ignore.value].package)
  {
    IdName(p, id);
    var k :| k in plugins && id in CapIds(plugins[k].package) && plugins[k].status == INSTALLED;
    IdName(plugins[k].package, id);
    var m :| m in p.capabilities && m.id == id;
    assert !Provided(plugins, ignore, m.id.name);
  }

  lemma StaysDisjoint(plugins: Plugins, allowed: Option<set<string>>, p: Package, ignore: Option<string>,
                      r: PluginRecord)
    requires WellKept(plugins) && Disjoint(plugins) && Acceptable(plugins, allowed, p, ignore)
    requires r.package == p && r.ids == IdList(p.capabilities) && (ignore == None || ignore == Some(p.name))
    requires ignore == None ==> p.name !in plugins || plugins[p.name].status == REMOVED
    ensures WellKept(plugins[p.name := r]) && Disjoint(plugins[p.name := r])
  {
    var after := plugins[p.name := r];
    hide ValidPackage;
    forall n | n in plugins && n != p.name && plugins[n].status != REMOVED
      ensures Names(plugins[n].package) !! Names(p)
    {
      forall name | name in Names(p) ensures name !in Names(plugins[n].package) {
        var m :| m in p.capabilities && m.id.name == name;
        assert !Provided(plugins, ignore, m.id.name);
      }
    }
  }

  /** What the registry refuses on its own account does not change over its life. */
  predicate Admits(registry: Registry, p: Package) {
    forall m :: m in p.capabilities ==> registry.Admissible(m)
  }

  /** Everything a plugin record holds went through the registry once. */
  ghost predicate Admitted(registry: Registry, plugins: Plugins) {
    forall n :: n in plugins ==> Admits(registry, plugins[n].package)
  }

  /** Why the registry does not take a capability, if it does not. */
  function Refused(registry: Registry, records: Records, m: Manifest): Option<RegistryError> {
    if !registry.Admissible(m) then Some(ManifestRejected)
    else if m.id in ActiveIds(records) then Some(AlreadyRegistered)
    else None
  }

  /** Why the first capability that the registry does not take is refused, if any is. */
  function Refusal(registry: Registry, records: Records, ms: seq<Manifest>): Option<RegistryError> {
    if ms == [] then None
    else
      var first := Refused(registry, records, ms[0]);
      if first.Some? then first else Refusal(registry, records, ms[1..])
  }

  /** The first `done` capabilities went in: all, or those before the first that was refused. */
  ghost predicate TakenUpTo(registry: Registry, records: Records, ms: seq<Manifest>, done: nat) {
    && done <= |ms|
    && (forall j :: 0 <= j < done ==> Refused(registry, records, ms[j]).None?)
    && (done < |ms| ==> Refused(registry, records, ms[done]).Some?)
  }

  /** How many capabilities the registry takes before the first that it refuses. */
  function Taken(registry: Registry, records: Records, ms: seq<Manifest>): (n: nat)
    ensures n <= |ms|
  {
    if ms == [] || Refused(registry, records, ms[0]).Some? then 0 else Taken(registry, records, ms[1..]) + 1
  }

  lemma {:induction false} TakenIsDone(registry: Registry, records: Records, ms: seq<Manifest>, done: nat)
    requires TakenUpTo(registry, records, ms, done)
    ensures done == Taken(registry, records, ms)
    decreases done
  {
    hide Refused;
    if done > 0 {
      assert forall j :: 0 <= j < done - 1 ==> ms[1..][j] == ms[j + 1];
      TakenIsDone(registry, records, ms[1..], done - 1);
    }
  }

  lemma {:induction false} RefusalIsFirst(registry: Registry, records: Records, ms: seq<Manifest>, done: nat)
    requires TakenUpTo(registry, records, ms, done)
    ensures Refusal(registry, records, ms)
            == if done == |ms| then None else Refused(registry, records, ms[done])
    decreases done
  {
    hide Refused;
    if done > 0 {
      assert forall j :: 0 <= j < done - 1 ==> ms[1..][j] == ms[j + 1];
      RefusalIsFirst(registry, records, ms[1..], done - 1);
    }
  }

  /** A package that was admitted once is refused only for a capability that is active already. */
  lemma {:induction false} AdmittedRefusal(registry: Registry, records: Records, ms: seq<Manifest>)
    requires forall m :: m in ms ==> registry.Admissible(m)
    ensures Refusal(registry, records, ms) == if IdSet(ms) !! ActiveIds(records) then None else Some(AlreadyRegistered)
    decreases |ms|
  {
    hide ActiveIds, Registry.Admissible;
    if ms != [] {
      AdmittedRefusal(registry, records, ms[1..]);
      assert ms == [ms[0]] + ms[1..];
      assert IdSet(ms) == {ms[0].id} + IdSet(ms[1..]);
    }
  }

  lemma {:induction false} TakenIsAdmitted(registry: Registry, records: Records, ms: seq<Manifest>)
    requires Refusal(registry, records, ms).None?
    ensures forall m :: m in ms ==> registry.Admissible(m) && m.id !in ActiveIds(records)
    decreases |ms|
  {
    hide ActiveIds, Registry.Admissible;
    if ms != [] {
      TakenIsAdmitted(registry, records, ms[1..]);
      assert ms == [ms[0]] + ms[1..];
    }
  }

  // -- the stores -----------------------------------------------------------------------------------

  class HandlerTable {
    var handlers: map<CapabilityId, Handler>

    constructor ()
      ensures handlers == map[]
    {
      handlers := map[];
    }

    method Register(id: CapabilityId, handler: Handler)
      modifies this
      ensures handlers == old(handlers)[id := handler]
    {
      handlers := handlers[id := handler];
    }

    method Unregister(id: CapabilityId)
      modifies this
      ensures handlers == old(handlers) - {id}
    {
      handlers := handlers - {id};
    }
  }

  /** The handlers of the first capabilities, by id. */
  function Wired(ms: seq<Manifest>, byName: map<string, Handler>): map<CapabilityId, Handler> {
    if ms == [] then map[]
    else
      var last := ms[|ms| - 1];
      var rest := Wired(ms[..|ms| - 1], byName);
      if last.id.name in byName then rest[last.id := byName[last.id.name]] else rest
  }

  lemma {:induction false} WiredKeys(ms: seq<Manifest>, byName: map<string, Handler>)
    requires forall m :: m in ms ==> m.id.name in byName
    ensures Wired(ms, byName).Keys == IdSet(ms)
    decreases |ms|
  {
    if ms != [] {
      var init, last := ms[..|ms| - 1], ms[|ms| - 1];
      WiredKeys(init, byName);
      assert ms == init + [last];
      IdSetAppend(init, last);
    }
  }

  /** The registry after capabilities were registered afresh. */
  function RegisteredAll(records: Records, ms: seq<Manifest>): Records {
    if ms == [] then records
    else RegisteredAll(records, ms[..|ms| - 1])[ms[|ms| - 1].id := Record(ms[|ms| - 1], ACTIVE, UNKNOWN)]
  }

  /** Registering afresh forgets the outcomes recorded before. */
  ghost function Renewed(past: map<CapabilityId, Past>, ms: seq<Manifest>): map<CapabilityId, Past> {
    if ms == [] then past
    else Renewed(past, ms[..|ms| - 1])[ms[|ms| - 1].id := Past(ms[|ms| - 1], [])]
  }

  /** The registry after capabilities were retired. */
  function Retired(records: Records, ids: set<CapabilityId>): Records {
    map id | id in records :: if id in ids then records[id].(status := RETIRED) else records[id]
  }

  lemma RetiredActive(records: Records, ids: set<CapabilityId>)
    ensures ActiveIds(Retired(records, ids)) == ActiveIds(records) - ids
  {}

  lemma RetireNext(records: Records, ids: set<CapabilityId>, id: CapabilityId)
    ensures var now := Retired(records, ids);
            Retired(records, ids + {id})
            == if id in now && now[id].status == ACTIVE then now[id := now[id].(status := RETIRED)] else now
  {}

  lemma RetireNone(records: Records)
    ensures Retired(records, {}) == records
  {}

  lemma LastIsNew(ms: seq<Manifest>)
    requires DistinctNames(ms) && ms != []
    ensures DistinctNames(ms[..|ms| - 1])
    ensures forall m :: m in ms[..|ms| - 1] ==> m.id != ms[|ms| - 1].id
    ensures IdSet(ms) == IdSet(ms[..|ms| - 1]) + {ms[|ms| - 1].id}
  {
    var init, last := ms[..|ms| - 1], ms[|ms| - 1];
    forall m | m in init ensures m.id != last.id {
      var j :| 0 <= j < |init| && init[j] == m;
      assert ms[j].id.name != ms[|ms| - 1].id.name;
    }
    assert ms == init + [last];
    IdSetAppend(init, last);
  }

  lemma {:induction false} RegisteredAt(records: Records, ms: seq<Manifest>)
    requires DistinctNames(ms)
    ensures forall m :: m in ms ==>
              m.id in RegisteredAll(records, ms) && RegisteredAll(records, ms)[m.id] == Record(m, ACTIVE, UNKNOWN)
    ensures RegisteredAll(records, ms) - IdSet(ms) == records - IdSet(ms)
    decreases |ms|
  {
    hide DistinctNames, IdSet;
    if ms == [] {
      NoIds();
    } else {
      var init, last := ms[..|ms| - 1], ms[|ms| - 1];
      LastIsNew(ms);
      RegisteredAt(records, init);
      assert ms == init + [last];
      WithoutAll(RegisteredAll(records, init), last.id, Record(last, ACTIVE, UNKNOWN), records, IdSet(init));
    }
  }

  lemma {:induction false} RenewedAt(past: map<CapabilityId, Past>, ms: seq<Manifest>)
    requires DistinctNames(ms)
    ensures forall m :: m in ms ==> m.id in Renewed(past, ms) && Renewed(past, ms)[m.id] == Past(m, [])
    ensures Renewed(past, ms) - IdSet(ms) == past - IdSet(ms)
    decreases |ms|
  {
    hide DistinctNames, IdSet;
    if ms == [] {
      NoIds();
    } else {
      var init, last := ms[..|ms| - 1], ms[|ms| - 1];
      LastIsNew(ms);
      RenewedAt(past, init);
      assert ms == init + [last];
      WithoutAll(Renewed(past, init), last.id, Past(last, []), past, IdSet(init));
    }
  }

  /** Registering touches the records of the registered ids alone and leaves them active, unprobed and
      scored as their manifests say. */
  lemma RegisteredAllAt(records: Records, past: map<CapabilityId, Past>, ms: seq<Manifest>)
    requires DistinctNames(ms)
    ensures forall m :: m in ms ==> m.id in RegisteredAll(records, ms) && m.id in Renewed(past, ms)
    ensures forall m :: m in ms ==>
              RegisteredAll(records, ms)[m.id] == Record(m, ACTIVE, UNKNOWN) && Renewed(past, ms)[m.id] == Past(m, [])
    ensures RegisteredAll(records, ms) - IdSet(ms) == records - IdSet(ms)
    ensures Renewed(past, ms) - IdSet(ms) == past - IdSet(ms)
  {
    hide DistinctNames, IdSet, RegisteredAll, Renewed;
    RegisteredAt(records, ms);
    RenewedAt(past, ms);
  }

  lemma WithoutAll<V>(now: map<CapabilityId, V>, id: CapabilityId, v: V, was: map<CapabilityId, V>,
                      ids: set<CapabilityId>)
    requires now - ids == was - ids
    ensures now[id := v] - (ids + {id}) == was - (ids + {id})
  {
    forall k | k !in ids + {id} ensures k in now[id := v] <==> k in was {
      assert k in now - ids <==> k in was - ids;
    }
    forall k | k !in ids + {id} && k in was ensures now[id := v][k] == was[k] {
      assert k in was - ids && (now - ids)[k] == (was - ids)[k];
    }
  }

  lemma ActiveAfter(records: Records, id: CapabilityId, r: Record)
    ensures ActiveIds(records[id := r])
            == if r.status == ACTIVE then ActiveIds(records) + {id} else ActiveIds(records) - {id}
  {}

  lemma {:induction false} RegisteredAllActive(records: Records, ms: seq<Manifest>)
    ensures ActiveIds(RegisteredAll(records, ms)) == ActiveIds(records) + IdSet(ms)
    ensures records.Keys <= RegisteredAll(records, ms).Keys
    decreases |ms|
  {
    if ms != [] {
      var init, last := ms[..|ms| - 1], ms[|ms| - 1];
      RegisteredAllActive(records, init);
      assert ms == init + [last];
      IdSetAppend(init, last);
      ActiveAfter(RegisteredAll(records, init), last.id, Record(last, ACTIVE, UNKNOWN));
    }
  }

  // -- the manager ----------------------------------------------------------------------------------

  class PluginManager {
    const registry: Registry
    const table: HandlerTable
    const allowed: Option<set<string>>
    var plugins: Plugins

    /** The registry and the handler table may hold entries of others. */
    ghost predicate Valid()
      reads this, registry
    {
      registry.Valid() && WellKept(plugins) && Disjoint(plugins) && Admitted(registry, plugins)
    }

    ghost predicate InService()
      reads this, registry, table
    {
      Serving(plugins, registry.records, table.handlers)
    }

    ghost predicate AtRest()
      reads this, registry, table
    {
      Resting(plugins, registry.records, table.handlers)
    }

    ghost function Others(): set<CapabilityId>
      reads this, registry
    {
      Foreign(plugins, registry.records)
    }

    constructor (registry: Registry, table: HandlerTable, allowed: Option<set<string>>)
      requires registry.Valid()
      ensures Valid() && this.registry == registry && this.table == table && this.allowed == allowed
      ensures plugins == map[] && InService() && AtRest()
    {
      this.registry, this.table, this.allowed, plugins := registry, table, allowed, map[];
    }

    /** Validation, permission review, name collisions and loading, all before anything changes. */
    method ValidateAndLoad(p: Package, ignore: Option<string>, loaded: Loaded) returns (err: Option<PluginError>)
      ensures err == if !Acceptable(plugins, allowed, p, ignore) then Some(PackageRejected)
                     else if !Covers(p, loaded) then Some(EntrypointFailed) else None
    {
      if !ValidPackage(p) { return Some(PackageRejected); }
      if allowed.Some? && !(p.requested <= allowed.value) { return Some(PackageRejected); }
      hide ValidPackage;
      for i := 0 to |p.capabilities|
        invariant forall j :: 0 <= j < i ==> !Provided(plugins, ignore, p.capabilities[j].id.name)
      {
        var taken := IsProvided(p.capabilities[i].id.name, ignore);
        if taken { return Some(PackageRejected); }
      }
      if !Covers(p, loaded) { return Some(EntrypointFailed); }
      err := None;
    }

    /** Whether another plugin owns the capability name. */
    method IsProvided(name: string, ignore: Option<string>) returns (taken: bool)
      ensures taken <==> Provided(plugins, ignore, name)
    {
      var left := plugins.Keys;
      while left != {}
        invariant left <= plugins.Keys
        invariant forall n :: n in plugins && n !in left ==>
                    plugins[n].status == REMOVED || Some(n) == ignore || name !in Names(plugins[n].package)
        decreases left
      {
        var n :| n in left;
        if plugins[n].status != REMOVED && Some(n) != ignore && name in Names(plugins[n].package) { return true; }
        left := left - {n};
      }
      taken := false;
    }

    /** Registers capabilities until one is refused; `done` says how many went in. */
    method RegisterCapabilities(ms: seq<Manifest>) returns (err: Option<PluginError>, ghost done: nat)
      requires registry.Valid() && DistinctNames(ms)
      modifies registry
      ensures registry.Valid() && TakenUpTo(registry, old(registry.records), ms, done)
      ensures registry.records == RegisteredAll(old(registry.records), ms[..done])
      ensures registry.past == Renewed(old(registry.past), ms[..done])
      ensures if done == |ms| then err.None?
              else err == Some(WiringFailed(Refused(registry, old(registry.records), ms[done]).value))
    {
      hide WellFormed, Accounted, Capabilities.Indexed, Registry.Admissible, DistinctNames, RegisteredAll, Renewed;
      hide ActiveIds;
      ghost var records, past := registry.records, registry.past;
      RegisteredNone(records, past, ms);
      done := 0;
      for i := 0 to |ms|
        invariant done == i && registry.Valid()
        invariant registry.records == RegisteredAll(records, ms[..i]) && registry.past == Renewed(past, ms[..i])
        invariant forall j :: 0 <= j < i ==> Refused(registry, records, ms[j]).None?
      {
        RegisteredOne(records, past, ms, i);
        ActiveInTurn(records, ms, i);
        var refused := registry.Register(ms[i]);
        if refused.Some? { return Some(WiringFailed(refused.value)), i; }
        done := i + 1;
      }
      assert ms[..|ms|] == ms;
      err := None;
    }

    method RegisterHandlers(ms: seq<Manifest>, byName: map<string, Handler>)
      requires forall m :: m in ms ==> m.id.name in byName
      modifies table
      ensures table.handlers == old(table.handlers) + Wired(ms, byName)
    {
      ghost var handlers := table.handlers;
      for i := 0 to |ms|
        invariant table.handlers == handlers + Wired(ms[..i], byName)
      {
        assert ms[..i + 1] == ms[..i] + [ms[i]];
        table.Register(ms[i].id, byName[ms[i].id.name]);
      }
      assert ms[..|ms|] == ms;
    }

    /** Registers every capability, then every handler. A refused registration leaves those before it
        registered and no handler in place. */
    method Wire(p: Package, byName: map<string, Handler>) returns (err: Option<PluginError>, ghost done: nat)
      requires registry.Valid() && ValidPackage(p) && byName.Keys == Names(p)
      modifies registry, table
      ensures registry.Valid() && TakenUpTo(registry, old(registry.records), p.capabilities, done)
      ensures err == WiringError(Refusal(registry, old(registry.records), p.capabilities))
      ensures err.None? <==> done == |p.capabilities|
      ensures registry.records == RegisteredAll(old(registry.records), p.capabilities[..done])
      ensures registry.past == Renewed(old(registry.past), p.capabilities[..done])
      ensures table.handlers
              == if err.None? then old(table.handlers) + Wired(p.capabilities, byName) else old(table.handlers)
    {
      hide WellFormed, Accounted, Capabilities.Indexed, Registry.Admissible, DistinctNames, ActiveIds, Refused;
      ghost var records := registry.records;
      err, done := RegisterCapabilities(p.capabilities);
      RefusalIsFirst(registry, records, p.capabilities, done);
      if err.Some? { return; }
      forall m | m in p.capabilities ensures m.id.name in byName { assert m.id.name in Names(p); }
      RegisterHandlers(p.capabilities, byName);
    }

    /** Retires every capability that is active and drops every handler. */
    method Unwire(p: Package)
      requires registry.Valid()
      modifies registry`records, table
      ensures registry.Valid()
      ensures registry.records == Retired(old(registry.records), CapIds(p))
      ensures table.handlers == old(table.handlers) - CapIds(p)
    {
      hide Accounted, Capabilities.Indexed, IdSet, Retired;
      ghost var records, handlers := registry.records, table.handlers;
      var ms := p.capabilities;
      NoIds();
      RetireNone(records);
      for i := 0 to |ms|
        invariant registry.Valid()
        invariant registry.records == Retired(records, IdSet(ms[..i]))
        invariant table.handlers == handlers - IdSet(ms[..i])
      {
        assert ms[..i + 1] == ms[..i] + [ms[i]];
        IdSetAppend(ms[..i], ms[i]);
        RetireNext(records, IdSet(ms[..i]), ms[i].id);
        if ms[i].id in registry.records && registry.records[ms[i].id].status == ACTIVE {
          var err := registry.Retire(ms[i].id);
        }
        table.Unregister(ms[i].id);
      }
      assert ms[..|ms|] == ms;
    }

    /** A new plugin, or one that was removed. A package of which the registry does not take every
        capability is refused, but only after the capabilities before the first it does not take went
        in: the refusal leaves a trace if and only if the registry takes the first capability. */
    method Install(p: Package, loaded: Loaded) returns (err: Option<PluginError>, ghost done: nat)
      requires Valid()
      modifies this, registry, table
      ensures Valid()
      ensures err == if p.name in old(plugins) && old(plugins)[p.name].status != REMOVED then Some(AlreadyInstalled)
                     else if !Acceptable(old(plugins), allowed, p, None) then Some(PackageRejected)
                     else if !Covers(p, loaded) then Some(EntrypointFailed)
                     else WiringError(Refusal(registry, old(registry.records), p.capabilities))
      ensures if err.None? || err.value.WiringFailed?
              then TakenUpTo(registry, old(registry.records), p.capabilities, done) else done == 0
      ensures registry.records == RegisteredAll(old(registry.records), p.capabilities[..done])
      ensures registry.past == Renewed(old(registry.past), p.capabilities[..done])
      ensures plugins == if err.None? then old(plugins)[p.name := NewRecord(old(plugins), p)] else old(plugins)
      ensures table.handlers == if err.None? then old(table.handlers) + Wired(p.capabilities, loaded.byName)
                                else old(table.handlers)
      ensures err.Some? ==>
                (registry.records != old(registry.records)
                 <==> err.value.WiringFailed? && Refused(registry, old(registry.records), p.capabilities[0]).None?)
      ensures (old(InService()) ==> InService()) && (old(AtRest()) ==> AtRest())
      ensures Others() == if err.None? then old(Others()) else old(Others()) + IdSet(p.capabilities[..done])
    {
      hide WellFormed, ValidPackage, Accounted, Capabilities.Indexed, Registry.Admissible, Acceptable, Serving, Foreign;
      hide Resting;
      hide ActiveIds, RegisteredAll, Renewed, Admits, Admitted, TakenUpTo, Refusal, Refused, WellKept, Disjoint, IdSet;
      done := 0;
      NoIds();
      RegisteredNone(registry.records, registry.past, p.capabilities);
      if p.name in plugins && plugins[p.name].status != REMOVED { return Some(AlreadyInstalled), 0; }
      err := ValidateAndLoad(p, None, loaded);
      if err.Some? { return; }
      ghost var records, handlers := registry.records, table.handlers;
      var next := NewRecord(plugins, p);
      AcceptableIsValid(plugins, allowed, p, None);
      StaysDisjoint(plugins, allowed, p, None, next);
      err, done := Wire(p, loaded.byName);
      TakenPrefix(registry, records, p.capabilities, done);
      if err.Some? {
        TraceIff(registry, records, p.capabilities, done);
        LeftBehind(plugins, records, handlers, allowed, p, done);
        LeftBehindRests(plugins, records, handlers, allowed, p, done);
        return;
      }
      WiredServes(plugins, records, handlers, p, next, loaded.byName);
      WiredRests(plugins, records, handlers, p, next, loaded.byName);
      AdmittedWith(registry, plugins, records, p, next);
      plugins := plugins[p.name := next];
    }

    /** Validates and loads the new version, then swaps it in for the old one. A new version of which the
        registry does not take every capability is refused when the old one has been unwired already: if
        the plugin was installed it is now out of service, while its record still says installed. If it was
        disabled, what it provides is active again, while its record still says disabled, exactly if the
        new version names one of the old capabilities before the first one the registry refuses. */
    method Update(p: Package, loaded: Loaded) returns (err: Option<PluginError>, ghost done: nat)
      requires Valid()
      modifies this, registry, table
      ensures Valid()
      ensures err == if p.name !in old(plugins) || old(plugins)[p.name].status == REMOVED then Some(NotInstalled)
                     else if p.version == old(plugins)[p.name].package.version then Some(SameVersion)
                     else if !Acceptable(old(plugins), allowed, p, Some(p.name)) then Some(PackageRejected)
                     else if !Covers(p, loaded) then Some(EntrypointFailed)
                     else var gone := CapIds(old(plugins)[p.name].package);
                          WiringError(Refusal(registry, Retired(old(registry.records), gone), p.capabilities))
      ensures plugins == if err.None? then old(plugins)[p.name := NewRecord(old(plugins), p)] else old(plugins)
      ensures err.Some? && !err.value.WiringFailed? ==>
                && registry.records == old(registry.records) && registry.past == old(registry.past)
                && table.handlers == old(table.handlers)
      ensures err.None? || err.value.WiringFailed? ==>
                && var gone := CapIds(old(plugins)[p.name].package);
                && TakenUpTo(registry, Retired(old(registry.records), gone), p.capabilities, done)
                && registry.records == RegisteredAll(Retired(old(registry.records), gone), p.capabilities[..done])
                && registry.past == Renewed(old(registry.past), p.capabilities[..done])
                && table.handlers
                   == if err.None? then (old(table.handlers) - gone) + Wired(p.capabilities, loaded.byName)
                      else old(table.handlers) - gone
      ensures old(InService()) ==>
                (InService() <==> err.None? || !err.value.WiringFailed? || old(plugins)[p.name].status != INSTALLED)
      ensures old(AtRest()) ==>
                (AtRest() <==> !(err.Some? && err.value.WiringFailed? && old(plugins)[p.name].status == DISABLED
                                 && Revives(registry, old(registry.records), old(plugins)[p.name].package, p)))
      ensures err.None? ==> Others() == old(Others()) - CapIds(old(plugins)[p.name].package)
      ensures err.Some? && err.value.WiringFailed? ==>
                var gone, taken := CapIds(old(plugins)[p.name].package), IdSet(p.capabilities[..done]);
                Others() == if old(plugins)[p.name].status == INSTALLED then old(Others()) + (taken - gone)
                            else old(Others()) - gone + taken
      ensures err.Some? && err.value.WiringFailed? ==>
                var gone := CapIds(old(plugins)[p.name].package);
                gone !! ActiveIds(old(registry.records)) + old(table.handlers).Keys ==>
                  && table.handlers == old(table.handlers)
                  && (registry.records == old(registry.records)
                      <==> Refused(registry, old(registry.records), p.capabilities[0]).Some?)
    {
      hide WellFormed, ValidPackage, Accounted, Capabilities.Indexed, Registry.Admissible, Acceptable, Serving, Foreign;
      hide ActiveIds, RegisteredAll, Renewed, Retired, Admits, Admitted, TakenUpTo, Refusal, Refused, WellKept;
      hide Disjoint, Resting, IdSet, Taken;
      done := 0;
      if p.name !in plugins || plugins[p.name].status == REMOVED { return Some(NotInstalled), 0; }
      var current := plugins[p.name];
      if p.version == current.package.version { return Some(SameVersion), 0; }
      err := ValidateAndLoad(p, Some(p.name), loaded);
      if err.Some? { return; }
      ghost var records, handlers, gone := registry.records, table.handlers, CapIds(current.package);
      ghost var off := plugins[p.name := current.(status := DISABLED)];
      var next := NewRecord(plugins, p);
      AcceptableIsValid(plugins, allowed, p, Some(p.name));
      StaysDisjoint(plugins, allowed, p, Some(p.name), next);
      Unwire(current.package);
      UnwiredServes(plugins, records, handlers, p.name, current.(status := DISABLED));
      UnwiredRests(plugins, records, handlers, p.name, current.(status := DISABLED));
      err, done := Wire(p, loaded.byName);
      TakenPrefix(registry, Retired(records, gone), p.capabilities, done);
      assert off[p.name := next] == plugins[p.name := next];
      if err.Some? {
        UpdateRefused(plugins, records, handlers, p, done);
        RefusedLeaves(plugins, records, allowed, p, done);
        TakenIsDone(registry, Retired(records, gone), p.capabilities, done);
        if Resting(plugins, records, handlers) { RefusedRests(plugins, records, handlers, allowed, p, done); }
        if gone !! ActiveIds(records) + handlers.Keys {
          NothingToUnwire(records, handlers, gone);
          TraceIff(registry, records, p.capabilities, done);
        }
        return;
      }
      WiredServes(off, Retired(records, gone), handlers - gone, p, next, loaded.byName);
      WiredRests(off, Retired(records, gone), handlers - gone, p, next, loaded.byName);
      AdmittedWith(registry, plugins, Retired(records, gone), p, next);
      plugins := plugins[p.name := next];
    }

    method Disable(n: string) returns (err: Option<PluginError>)
      requires Valid()
      modifies this, registry`records, table
      ensures Valid()
      ensures err == if n in old(plugins) && old(plugins)[n].status == INSTALLED then None else Some(WrongStatus)
      ensures err.Some? ==>
                && plugins == old(plugins) && registry.records == old(registry.records)
                && table.handlers == old(table.handlers)
      ensures err.None? ==>
                && plugins == old(plugins)[n := old(plugins)[n].(status := DISABLED)]
                && registry.records == Retired(old(registry.records), CapIds(plugins[n].package))
                && table.handlers == old(table.handlers) - CapIds(plugins[n].package)
      ensures (old(InService()) ==> InService()) && (old(AtRest()) ==> AtRest()) && Others() == old(Others())
    {
      hide Accounted, Capabilities.Indexed, WellKept, Disjoint, Serving, Foreign, Retired, Admits, Admitted, CapIds;
      hide Resting;
      if n !in plugins || plugins[n].status != INSTALLED { return Some(WrongStatus); }
      var record := plugins[n];
      UnwiredServes(plugins, registry.records, table.handlers, n, record.(status := DISABLED));
      UnwiredRests(plugins, registry.records, table.handlers, n, record.(status := DISABLED));
      Unwire(record.package);
      AdmittedStill(registry, plugins, n, record.(status := DISABLED));
      plugins := plugins[n := record.(status := DISABLED)];
      err := None;
    }

    /** The entrypoint is loaded again. The package was validated, and admitted by the registry, when it
        was installed; what can still stop it is that one of its capabilities is active already. */
    method Enable(n: string, loaded: Loaded) returns (err: Option<PluginError>, ghost done: nat)
      requires Valid()
      modifies this, registry, table
      ensures Valid()
      ensures err == if !(n in old(plugins) && old(plugins)[n].status == DISABLED) then Some(WrongStatus)
                     else if !Covers(old(plugins)[n].package, loaded) then Some(EntrypointFailed)
                     else if CapIds(old(plugins)[n].package) !! ActiveIds(old(registry.records)) then None
                     else Some(WiringFailed(AlreadyRegistered))
      ensures err.Some? && !err.value.WiringFailed? ==>
                && registry.records == old(registry.records) && registry.past == old(registry.past) && done == 0
      ensures err.None? || err.value.WiringFailed? ==>
                && var ms := old(plugins)[n].package.capabilities;
                && TakenUpTo(registry, old(registry.records), ms, done) && (err.None? <==> done == |ms|)
                && registry.records == RegisteredAll(old(registry.records), ms[..done])
                && registry.past == Renewed(old(registry.past), ms[..done])
      ensures plugins == if err.None? then old(plugins)[n := old(plugins)[n].(status := INSTALLED)] else old(plugins)
      ensures table.handlers
              == if err.None? then old(table.handlers) + Wired(old(plugins)[n].package.capabilities, loaded.byName)
                 else old(table.handlers)
      ensures old(InService()) ==> InService()
      ensures old(AtRest()) ==> AtRest() && (err.Some? ==> !err.value.WiringFailed?)
      ensures err.None? ==> Others() == old(Others())
    {
      hide WellFormed, ValidPackage, Accounted, Capabilities.Indexed, Registry.Admissible, ActiveIds, RegisteredAll;
      hide Renewed, WellKept, Disjoint, Admits, Admitted, TakenUpTo, Refusal, Refused, Wired, Serving, Foreign, Resting;
      done := 0;
      if n !in plugins || plugins[n].status != DISABLED { return Some(WrongStatus), 0; }
      var record := plugins[n];
      if !Covers(record.package, loaded) { return Some(EntrypointFailed), 0; }
      var next := record.(status := INSTALLED, ids := IdList(record.package.capabilities));
      ghost var records, handlers := registry.records, table.handlers;
      EnabledKept(plugins, n, next);
      AdmittedOne(registry, plugins, n, records);
      AdmittedStill(registry, plugins, n, next);
      RestingFrees(plugins, records, handlers, n);
      err, done := Wire(record.package, loaded.byName);
      TakenPrefix(registry, records, record.package.capabilities, done);
      if err.Some? {
        StillServing(plugins, records, handlers, record.package.capabilities[..done]);
        return;
      }
      WiredServes(plugins, records, handlers, record.package, next, loaded.byName);
      WiredRests(plugins, records, handlers, record.package, next, loaded.byName);
      plugins := plugins[n := next];
    }

    /** Registry records stay, retired. */
    method Remove(n: string) returns (err: Option<PluginError>)
      requires Valid()
      modifies this, registry`records, table
      ensures Valid()
      ensures err == if n in old(plugins) && old(plugins)[n].status != REMOVED then None else Some(NotInstalled)
      ensures plugins == if err.None? then old(plugins)[n := old(plugins)[n].(status := REMOVED)] else old(plugins)
      ensures if err.None? && old(plugins)[n].status == INSTALLED then
                && registry.records == Retired(old(registry.records), CapIds(plugins[n].package))
                && table.handlers == old(table.handlers) - CapIds(plugins[n].package)
              else registry.records == old(registry.records) && table.handlers == old(table.handlers)
      ensures (old(InService()) ==> InService()) && (old(AtRest()) ==> AtRest()) && Others() == old(Others())
    {
      hide Accounted, Capabilities.Indexed, WellKept, Disjoint, Serving, Foreign, Retired, Admits, Admitted, CapIds;
      hide Resting;
      if n !in plugins || plugins[n].status == REMOVED { return Some(NotInstalled); }
      var record := plugins[n];
      UnwiredServes(plugins, registry.records, table.handlers, n, record.(status := REMOVED));
      UnwiredRests(plugins, registry.records, table.handlers, n, record.(status := REMOVED));
      RemovedWithout(plugins, registry.records, table.handlers, n, record.(status := REMOVED));
      if record.status == INSTALLED { Unwire(record.package); }
      AdmittedStill(registry, plugins, n, record.(status := REMOVED));
      plugins := plugins[n := record.(status := REMOVED)];
      err := None;
    }

    /** Disabling a plugin and enabling it again puts its ids and handler keys in service and leaves every
        other capability alone: nothing changes there if they were in service before. What does not come
        back is what was learned about the plugin's own capabilities: they are registered afresh,
        unprobed and scored as their manifests say. */
    method DisableThenEnable(n: string, loaded: Loaded)
      requires Valid() && n in plugins && plugins[n].status == INSTALLED && Covers(plugins[n].package, loaded)
      modifies this, registry, table
      ensures Valid() && plugins == old(plugins)
      ensures ActiveIds(registry.records) == ActiveIds(old(registry.records)) + CapIds(plugins[n].package)
      ensures table.handlers.Keys == old(table.handlers).Keys + CapIds(plugins[n].package)
      ensures old(InService()) ==> ActiveIds(registry.records) == ActiveIds(old(registry.records))
                                   && table.handlers.Keys == old(table.handlers).Keys
      ensures var own := CapIds(plugins[n].package);
              && registry.records - own == old(registry.records) - own
              && registry.past - own == old(registry.past) - own
              && table.handlers - own == old(table.handlers) - own
      ensures forall m :: m in plugins[n].package.capabilities ==>
                && m.id in registry.records && registry.records[m.id] == Record(m, ACTIVE, UNKNOWN)
                && m.id in registry.past && registry.past[m.id] == Past(m, [])
    {
      hide Accounted, Capabilities.Indexed, ValidPackage, Admits, Admitted, RegisteredAll, Renewed, Retired, Disjoint;
      hide ActiveIds, Wired, WellKept, Serving, Foreign, TakenUpTo, Resting, WellFormed, DistinctNames, Blank;
      ghost var records, past, handlers, p := registry.records, registry.past, table.handlers, plugins[n].package;
      KeptPackage(plugins, n);
      OwnAreWanted(plugins, records, handlers, n);
      RetiredActive(records, CapIds(p));
      var err := Disable(n);
      assert plugins[n].package == p;
      ghost var done;
      err, done := Enable(n, loaded);
      assert p.capabilities[..|p.capabilities|] == p.capabilities;
      assert plugins == old(plugins);
      RegisteredAllActive(Retired(records, CapIds(p)), p.capabilities);
      RegisteredAllAt(Retired(records, CapIds(p)), past, p.capabilities);
      RetiredWithout(records, CapIds(p));
      forall m | m in p.capabilities ensures m.id.name in loaded.byName { assert m.id.name in Names(p); }
      WiredKeys(p.capabilities, loaded.byName);
      WiredWithout(handlers, Wired(p.capabilities, loaded.byName), CapIds(p));
    }
  }

  function WiringError(cause: Option<RegistryError>): Option<PluginError> {
    if cause.Some? then Some(WiringFailed(cause.value)) else None
  }

  lemma TakenPrefix(registry: Registry, records: Records, ms: seq<Manifest>, done: nat)
    requires TakenUpTo(registry, records, ms, done)
    ensures done <= |ms| && (done == |ms| ==> ms[..done] == ms)
    ensures forall m :: m in ms[..done] ==> m.id !in ActiveIds(records)
    ensures ms != [] ==> (done > 0 <==> Refused(registry, records, ms[0]).None?)
  {
    hide Registry.Admissible, ActiveIds;
    forall m | m in ms[..done] ensures m.id !in ActiveIds(records) {
      var j :| 0 <= j < done && ms[..done][j] == m;
      assert Refused(registry, records, ms[j]).None?;
    }
  }

  lemma AdmittedWith(registry: Registry, plugins: Plugins, records: Records, p: Package, r: PluginRecord)
    requires Admitted(registry, plugins) && Refusal(registry, records, p.capabilities).None? && r.package == p
    ensures Admitted(registry, plugins[p.name := r])
  {
    TakenIsAdmitted(registry, records, p.capabilities);
    hide Registry.Admissible, Refusal;
  }

  lemma AdmittedOne(registry: Registry, plugins: Plugins, n: string, records: Records)
    requires Admitted(registry, plugins) && n in plugins
    ensures Refusal(registry, records, plugins[n].package.capabilities)
            == if CapIds(plugins[n].package) !! ActiveIds(records) then None else Some(AlreadyRegistered)
  {
    hide Registry.Admissible, ActiveIds, Refusal;
    assert Admits(registry, plugins[n].package);
    AdmittedRefusal(registry, records, plugins[n].package.capabilities);
  }

  lemma AdmittedStill(registry: Registry, plugins: Plugins, n: string, r: PluginRecord)
    requires Admitted(registry, plugins) && n in plugins && r.package == plugins[n].package
    ensures Admitted(registry, plugins[n := r])
  {
    hide Admits;
  }

  /** A wiring that stopped halfway changed the registry exactly when it registered something. */
  lemma TraceIff(registry: Registry, records: Records, ms: seq<Manifest>, done: nat)
    requires TakenUpTo(registry, records, ms, done)
    ensures RegisteredAll(records, ms[..done]) != records <==> done > 0
  {
    hide TakenUpTo, ActiveIds;
    TakenPrefix(registry, records, ms, done);
    var gone := ms[..done];
    RegisteredAllActive(records, gone);
    if done > 0 {
      assert gone[0] in gone && gone[0].id in IdSet(gone);
    } else {
      assert gone == [];
    }
  }

  /** Unwiring what is neither active nor handled changes nothing. */
  lemma NothingToUnwire(records: Records, handlers: map<CapabilityId, Handler>, ids: set<CapabilityId>)
    requires ids !! ActiveIds(records) + handlers.Keys
    ensures Retired(records, ids) == records && handlers - ids == handlers
  {
    forall id | id in ids && id in records ensures records[id].status == RETIRED { assert id !in ActiveIds(records); }
  }

  lemma KeptPackage(plugins: Plugins, n: string)
    requires WellKept(plugins) && n in plugins
    ensures DistinctNames(plugins[n].package.capabilities)
  {}

  lemma OwnAreWanted(plugins: Plugins, records: Records, handlers: map<CapabilityId, Handler>, n: string)
    requires Disjoint(plugins) && n in plugins && plugins[n].status == INSTALLED
    ensures Serving(plugins, records, handlers) ==>
              CapIds(plugins[n].package) <= ActiveIds(records) && CapIds(plugins[n].package) <= handlers.Keys
  {
    WantedTaken(plugins, n, plugins[n].(status := DISABLED));
    hide ActiveIds, Wanted, CapIds;
  }

  lemma RetiredWithout(records: Records, ids: set<CapabilityId>)
    ensures Retired(records, ids) - ids == records - ids
  {}

  lemma WiredWithout(handlers: map<CapabilityId, Handler>, wired: map<CapabilityId, Handler>, ids: set<CapabilityId>)
    requires wired.Keys == ids
    ensures (handlers - ids) + wired - ids == handlers - ids
  {}

  /** The record of a fresh or repeated installation. */
  function NewRecord(plugins: Plugins, p: Package): PluginRecord {
    PluginRecord(p, INSTALLED, IdList(p.capabilities),
                 if p.name in plugins then plugins[p.name].previous + [plugins[p.name].package.version] else [])
  }

  /** The record keeps the package and its capabilities' ids, and the versions installed before it. */
  lemma NewRecordSays(plugins: Plugins, p: Package)
    ensures var r := NewRecord(plugins, p);
            && r.package == p && r.status == INSTALLED && |r.ids| == |p.capabilities|
            && (forall i :: 0 <= i < |r.ids| ==> r.ids[i] == p.capabilities[i].id)
            && (p.name !in plugins ==> r.previous == [])
            && (p.name in plugins ==> r.previous == plugins[p.name].previous + [plugins[p.name].package.version])
  {}

  lemma AcceptableIsValid(plugins: Plugins, allowed: Option<set<string>>, p: Package, ignore: Option<string>)
    requires Acceptable(plugins, allowed, p, ignore)
    ensures ValidPackage(p) && p.capabilities != []
  {}

  /** Wiring a package puts it in service and changes nothing that others provide or registered. */
  lemma WiredServes(plugins: Plugins, records: Records, handlers: map<CapabilityId, Handler>, p: Package,
                    r: PluginRecord, byName: map<string, Handler>)
    requires p.name in plugins ==> plugins[p.name].status != INSTALLED
    requires r.package == p && r.status == INSTALLED && byName.Keys == Names(p)
    requires forall m :: m in p.capabilities ==> m.id !in ActiveIds(records)
    ensures var ms := p.capabilities;
            && (Serving(plugins, records, handlers) ==>
                  Serving(plugins[p.name := r], RegisteredAll(records, ms), handlers + Wired(ms, byName)))
            && Foreign(plugins[p.name := r], RegisteredAll(records, ms)) == Foreign(plugins, records)
  {
    RegisteredAllActive(records, p.capabilities);
    forall m | m in p.capabilities ensures m.id.name in byName { assert m.id.name in Names(p); }
    WiredKeys(p.capabilities, byName);
    WantedWithout(plugins, p.name, r);
    assert CapIds(p) !! ActiveIds(records);
    hide ActiveIds, Wanted, RegisteredAll, Wired, IdSet;
  }

  /** Registering more takes nothing out of service. */
  lemma StillServing(plugins: Plugins, records: Records, handlers: map<CapabilityId, Handler>, ms: seq<Manifest>)
    ensures Serving(plugins, records, handlers) ==> Serving(plugins, RegisteredAll(records, ms), handlers)
  {
    RegisteredAllActive(records, ms);
    hide ActiveIds, Wanted, RegisteredAll;
  }

  /** What a refused install leaves active belongs to no installed plugin. */
  lemma LeftBehind(plugins: Plugins, records: Records, handlers: map<CapabilityId, Handler>,
                   allowed: Option<set<string>>, p: Package, done: nat)
    requires Acceptable(plugins, allowed, p, None) && done <= |p.capabilities|
    ensures var ms := p.capabilities[..done];
            && (Serving(plugins, records, handlers) ==> Serving(plugins, RegisteredAll(records, ms), handlers))
            && Foreign(plugins, RegisteredAll(records, ms)) == Foreign(plugins, records) + IdSet(ms)
  {
    var ms := p.capabilities[..done];
    StillServing(plugins, records, handlers, ms);
    RegisteredAllActive(records, ms);
    forall id | id in IdSet(ms) ensures id !in Wanted(plugins) {
      var m :| m in ms && m.id == id;
      assert m in p.capabilities && id in CapIds(p);
      if id in Wanted(plugins) { AcceptableIsFree(plugins, allowed, p, None, id); }
    }
    hide ActiveIds, Wanted, RegisteredAll, IdSet, Acceptable, Serving;
  }

  /** What a refused update leaves is in service exactly if the plugin was not installed. */
  lemma UpdateRefused(plugins: Plugins, records: Records, handlers: map<CapabilityId, Handler>, p: Package, done: nat)
    requires WellKept(plugins) && Disjoint(plugins) && p.name in plugins && plugins[p.name].status != REMOVED
    requires done <= |p.capabilities|
    ensures var gone := CapIds(plugins[p.name].package);
            Serving(plugins, records, handlers) ==>
              (Serving(plugins, RegisteredAll(Retired(records, gone), p.capabilities[..done]), handlers - gone)
               <==> plugins[p.name].status != INSTALLED)
  {
    var n, gone := p.name, CapIds(plugins[p.name].package);
    RegisteredAllActive(Retired(records, gone), p.capabilities[..done]);
    RetiredActive(records, gone);
    if plugins[n].status == INSTALLED {
      WantedTaken(plugins, n, plugins[n].(status := DISABLED));
      var ms := plugins[n].package.capabilities;
      assert ms[0] in ms && ms[0].id in gone;
    } else {
      forall id | id in gone ensures id !in Wanted(plugins) { NotInService(plugins, n, id); }
      hide WellKept, Disjoint, ActiveIds, Wanted, CapIds, RegisteredAll, Retired, IdSet;
    }
  }

  /** Taking a plugin out of service leaves exactly what the others provide. */
  lemma OutOfService(plugins: Plugins, n: string, r: PluginRecord)
    requires Disjoint(plugins) && n in plugins && plugins[n].status != REMOVED && r.status != INSTALLED
    ensures Wanted(plugins[n := r]) == Wanted(plugins) - CapIds(plugins[n].package)
  {
    if plugins[n].status == INSTALLED {
      WantedTaken(plugins, n, r);
    } else {
      WantedWithout(plugins, n, r);
      forall id | id in CapIds(plugins[n].package) ensures id !in Wanted(plugins) { NotInService(plugins, n, id); }
    }
  }

  /** A disabled plugin's capabilities are not in service. */
  lemma NotInService(plugins: Plugins, n: string, id: CapabilityId)
    requires Disjoint(plugins) && n in plugins && plugins[n].status == DISABLED && id in CapIds(plugins[n].package)
    ensures id !in Wanted(plugins)
  {
    IdName(plugins[n].package, id);
    forall k | k in plugins && plugins[k].status == INSTALLED ensures id !in CapIds(plugins[k].package) {
      assert Names(plugins[n].package) !! Names(plugins[k].package);
      OutsideNames(plugins[k].package, id);
    }
  }

  /** Unwiring a plugin leaves in service whatever others provide or registered. */
  lemma UnwiredServes(plugins: Plugins, records: Records, handlers: map<CapabilityId, Handler>, n: string,
                      r: PluginRecord)
    requires WellKept(plugins) && Disjoint(plugins) && n in plugins && plugins[n].status != REMOVED
    requires r.package == plugins[n].package && r.status != INSTALLED && r.ids == plugins[n].ids
    ensures WellKept(plugins[n := r]) && Disjoint(plugins[n := r])
    ensures var gone := CapIds(r.package);
            && (Serving(plugins, records, handlers) ==>
                  Serving(plugins[n := r], Retired(records, gone), handlers - gone))
            && Foreign(plugins[n := r], Retired(records, gone)) == Foreign(plugins, records) - gone
            && (plugins[n].status == INSTALLED ==> Foreign(plugins, records) - gone == Foreign(plugins, records))
  {
    OutOfService(plugins, n, r);
    RetiredActive(records, CapIds(r.package));
    if plugins[n].status == INSTALLED { WantedTaken(plugins, n, r); }
    hide ActiveIds, Wanted, CapIds, ValidPackage, Retired;
  }

  /** What is wired into an installed plugin belongs to no disabled one. */
  lemma WiredRests(plugins: Plugins, records: Records, handlers: map<CapabilityId, Handler>, p: Package,
                   r: PluginRecord, byName: map<string, Handler>)
    requires r.package == p && r.status == INSTALLED && byName.Keys == Names(p) && Disjoint(plugins[p.name := r])
    ensures Resting(plugins, records, handlers) ==>
              Resting(plugins[p.name := r], RegisteredAll(records, p.capabilities),
                      handlers + Wired(p.capabilities, byName))
  {
    RegisteredAllActive(records, p.capabilities);
    forall m | m in p.capabilities ensures m.id.name in byName { assert m.id.name in Names(p); }
    WiredKeys(p.capabilities, byName);
    ShelvedWith(plugins, p.name, r);
    ShelvedIsUnwanted(plugins[p.name := r]);
    OwnWanted(plugins[p.name := r], p.name);
    hide ActiveIds, Wanted, Shelved, RegisteredAll, Wired, IdSet, Disjoint;
  }

  /** A disabled plugin at rest has none of its capabilities active. */
  lemma RestingFrees(plugins: Plugins, records: Records, handlers: map<CapabilityId, Handler>, n: string)
    requires n in plugins && plugins[n].status == DISABLED
    ensures Resting(plugins, records, handlers) ==> CapIds(plugins[n].package) !! ActiveIds(records)
  {
    ShelvedOne(plugins, n);
    hide ActiveIds, Shelved, CapIds;
  }

  lemma OwnWanted(plugins: Plugins, n: string)
    requires n in plugins && plugins[n].status == INSTALLED
    ensures CapIds(plugins[n].package) <= Wanted(plugins)
  {}

  /** Unwiring a plugin that is to be disabled or removed puts all it provides to rest. */
  lemma UnwiredRests(plugins: Plugins, records: Records, handlers: map<CapabilityId, Handler>, n: string,
                     r: PluginRecord)
    ensures var gone := CapIds(r.package);
            && (Resting(plugins, records, handlers) ==>
                  Resting(plugins[n := r], Retired(records, gone), handlers - gone))
            && (r.status == REMOVED && Resting(plugins, records, handlers) ==>
                  Resting(plugins[n := r], records, handlers))
  {
    RetiredActive(records, CapIds(r.package));
    ShelvedWith(plugins, n, r);
    hide ActiveIds, Shelved, CapIds, Retired;
  }

  /** What a refused install leaves active belongs to no disabled plugin. */
  lemma LeftBehindRests(plugins: Plugins, records: Records, handlers: map<CapabilityId, Handler>,
                        allowed: Option<set<string>>, p: Package, done: nat)
    requires Acceptable(plugins, allowed, p, None) && done <= |p.capabilities|
    ensures Resting(plugins, records, handlers) ==>
              Resting(plugins, RegisteredAll(records, p.capabilities[..done]), handlers)
  {
    var ms := p.capabilities[..done];
    RegisteredAllActive(records, ms);
    forall id | id in IdSet(ms) ensures id !in Shelved(plugins) {
      var m :| m in ms && m.id == id;
      assert m in p.capabilities && id in CapIds(p);
      if id in Shelved(plugins) { AcceptableIsUnshelved(plugins, allowed, p, None, id); }
    }
    hide ActiveIds, Shelved, RegisteredAll, IdSet, Acceptable;
  }

  lemma Apart<T>(a: set<T>, b: set<T>)
    ensures a !! b <==> a * b == {}
  {
    forall x | a * b == {} && x in a ensures x !in b { assert x !in a * b; }
  }

  /** What a refused update leaves rests exactly unless the plugin was disabled and the capabilities that
      went in are in part its own. */
  lemma RefusedRests(plugins: Plugins, records: Records, handlers: map<CapabilityId, Handler>,
                     allowed: Option<set<string>>, p: Package, done: nat)
    requires p.name in plugins && Acceptable(plugins, allowed, p, Some(p.name)) && done <= |p.capabilities|
    requires Resting(plugins, records, handlers)
    ensures var gone, ms := CapIds(plugins[p.name].package), p.capabilities[..done];
            Resting(plugins, RegisteredAll(Retired(records, gone), ms), handlers - gone)
            <==> !(plugins[p.name].status == DISABLED && IdSet(ms) * gone != {})
  {
    var gone, ms := CapIds(plugins[p.name].package), p.capabilities[..done];
    RegisteredAllActive(Retired(records, gone), ms);
    RetiredActive(records, gone);
    forall id | id in IdSet(ms) && id in Shelved(plugins)
      ensures plugins[p.name].status == DISABLED && id in gone
    {
      var m :| m in ms && m.id == id;
      assert m in p.capabilities && id in CapIds(p);
      AcceptableIsUnshelved(plugins, allowed, p, Some(p.name), id);
    }
    if plugins[p.name].status == DISABLED { ShelvedOne(plugins, p.name); }
    hide ActiveIds, Shelved, RegisteredAll, Retired, IdSet, CapIds, Acceptable;
    var after := RegisteredAll(Retired(records, gone), ms);
    var now := ActiveIds(after) + (handlers - gone).Keys;
    assert Shelved(plugins) * now == Shelved(plugins) * IdSet(ms);
    Apart(Shelved(plugins), now);
    if plugins[p.name].status == DISABLED {
      assert Shelved(plugins) * IdSet(ms) == IdSet(ms) * gone;
    } else {
      assert Shelved(plugins) * IdSet(ms) == {};
    }
  }

  /** What a refused update leaves active beyond what installed plugins provide. */
  lemma RefusedLeaves(plugins: Plugins, records: Records, allowed: Option<set<string>>, p: Package, done: nat)
    requires Disjoint(plugins) && p.name in plugins && plugins[p.name].status != REMOVED
    requires Acceptable(plugins, allowed, p, Some(p.name)) && done <= |p.capabilities|
    ensures var gone, ms := CapIds(plugins[p.name].package), p.capabilities[..done];
            Foreign(plugins, RegisteredAll(Retired(records, gone), ms))
            == if plugins[p.name].status == INSTALLED then Foreign(plugins, records) + (IdSet(ms) - gone)
               else Foreign(plugins, records) - gone + IdSet(ms)
  {
    var gone, ms := CapIds(plugins[p.name].package), p.capabilities[..done];
    RegisteredAllActive(Retired(records, gone), ms);
    RetiredActive(records, gone);
    forall id | id in IdSet(ms) && id in Wanted(plugins) ensures plugins[p.name].status == INSTALLED && id in gone {
      var m :| m in ms && m.id == id;
      assert m in p.capabilities && id in CapIds(p);
      AcceptableIsFree(plugins, allowed, p, Some(p.name), id);
    }
    if plugins[p.name].status == INSTALLED { OwnWanted(plugins, p.name); }
    hide ActiveIds, Wanted, RegisteredAll, Retired, IdSet, CapIds, Acceptable, Disjoint;
  }

  /** The update registers a capability of the old version again before it is refused. */
  predicate Revives(registry: Registry, records: Records, was: Package, now: Package) {
    var left := Retired(records, CapIds(was));
    IdSet(now.capabilities[..Taken(registry, left, now.capabilities)]) * CapIds(was) != {}
  }

  /** Removing a disabled plugin changes nothing in service. */
  lemma RemovedWithout(plugins: Plugins, records: Records, handlers: map<CapabilityId, Handler>, n: string,
                       r: PluginRecord)
    requires n in plugins && r.status == REMOVED && plugins[n].status != REMOVED
    ensures plugins[n].status == DISABLED ==>
              && (Serving(plugins, records, handlers) ==> Serving(plugins[n := r], records, handlers))
              && Foreign(plugins[n := r], records) == Foreign(plugins, records)
  {
    if plugins[n].status == DISABLED { WantedWithout(plugins, n, r); }
    hide ActiveIds, Wanted;
  }

  lemma EnabledKept(plugins: Plugins, n: string, r: PluginRecord)
    requires WellKept(plugins) && Disjoint(plugins) && n in plugins && plugins[n].status == DISABLED
    requires r == plugins[n].(status := INSTALLED, ids := IdList(plugins[n].package.capabilities))
    ensures WellKept(plugins[n := r]) && Disjoint(plugins[n := r])
    ensures ValidPackage(r.package) && r.package.name == n && r == plugins[n].(status := INSTALLED)
  {
    hide ValidPackage;
  }

  lemma RegisteredNone(records: Records, past: map<CapabilityId, Past>, ms: seq<Manifest>)
    ensures RegisteredAll(records, ms[..0]) == records && Renewed(past, ms[..0]) == past
  {}

  lemma RegisteredOne(records: Records, past: map<CapabilityId, Past>, ms: seq<Manifest>, i: nat)
    requires i < |ms|
    ensures RegisteredAll(records, ms[..i + 1])
            == RegisteredAll(records, ms[..i])[ms[i].id := Record(ms[i], ACTIVE, UNKNOWN)]
    ensures Renewed(past, ms[..i + 1]) == Renewed(past, ms[..i])[ms[i].id := Past(ms[i], [])]
  {
    assert ms[..i + 1][..i] == ms[..i];
  }

  /** Capabilities of one package do not collide while they are registered one by one. */
  lemma ActiveInTurn(records: Records, ms: seq<Manifest>, i: nat)
    requires i < |ms| && DistinctNames(ms)
    ensures var now := RegisteredAll(records, ms[..i]);
            ms[i].id in ActiveIds(records) <==> ms[i].id in now && now[ms[i].id].status == ACTIVE
  {
    RegisteredAllActive(records, ms[..i]);
    forall m | m in ms[..i] ensures m.id != ms[i].id {
      var j :| 0 <= j < i && ms[..i][j] == m;
      assert ms[j].id.name != ms[i].id.name;
    }
    hide RegisteredAll;
    assert ms[i].id !in IdSet(ms[..i]);
    var now := RegisteredAll(records, ms[..i]);
    assert ms[i].id in ActiveIds(now) <==> ms[i].id in now && now[ms[i].id].status == ACTIVE;
  }

  lemma NoIds()
    ensures IdSet([]) == {}
  {}

  // -- where a refusal leaves a trace ------------------------------------------------------------

  function Sample(name: string, major: nat, permissions: set<string>): Manifest {
    Manifest(CapabilityId(name, Version(major, 0, 0, "")), "text", permissions, 0.0, 0.0, 1.0, 1.0, 1.0, 1.0)
  }

  function SamplePackage(major: nat, capabilities: seq<Manifest>): Package {
    Package("notes", Version(major, 0, 0, ""), capabilities, {"net"}, true)
  }

  lemma SampleIsValid(p: Package)
    requires p.name == "notes" && p.version.suffix == "" && p.hasEntrypoint && p.requested == {"net"}
    requires p.capabilities != []
    requires DistinctNames(p.capabilities)
    requires forall m :: m in p.capabilities ==> WellFormed(m) && m.permissions <= {"net"}
    ensures ValidPackage(p)
  {
    assert p.name[0] == 'n';
  }

  lemma SampleWellFormed(m: Manifest)
    requires m.id.name in {"read", "send"} && m.capabilityType == "text"
    requires m.cost == 0.0 && m.latency == 0.0 && m.reliability == 1.0 && m.trust == 1.0
    requires m.evidenceScore == 1.0 && m.confidence == 1.0 && m.id.version.suffix == ""
    ensures WellFormed(m)
  {
    assert m.id.name[0] in {'r', 's'} && m.capabilityType[0] == 't';
  }

  /** Nobody else provides what the only plugin replaces. */
  lemma SampleAcceptable(plugins: Plugins, p: Package, ignore: Option<string>)
    requires ValidPackage(p) && forall n :: n in plugins ==> Some(n) == ignore
    ensures Acceptable(plugins, None, p, ignore)
  {
    hide ValidPackage;
  }

  lemma SampleNames(p: Package, m: Manifest, m': Manifest)
    requires p.capabilities == [m, m'] || (p.capabilities == [m] && m == m')
    ensures Names(p) == {m.id.name, m'.id.name} && CapIds(p) == {m.id, m'.id}
  {
    assert m in p.capabilities && m' in p.capabilities;
  }

  lemma RefusalOfOne(registry: Registry, records: Records, m: Manifest)
    ensures Refusal(registry, records, [m]) == Refused(registry, records, m)
    ensures TakenUpTo(registry, records, [m], if Refused(registry, records, m).Some? then 0 else 1)
  {
    hide Refused;
    assert [m][1..] == [];
  }

  lemma RefusalOfSecond(registry: Registry, records: Records, first: Manifest, second: Manifest)
    requires Refused(registry, records, first).None? && Refused(registry, records, second).Some?
    ensures Refusal(registry, records, [first, second]) == Refused(registry, records, second)
    ensures forall done: nat :: TakenUpTo(registry, records, [first, second], done) ==> done == 1
  {
    hide Refused;
    assert [first, second][1..] == [second];
    RefusalOfOne(registry, records, second);
    assert [first, second][0] == first && [first, second][1] == second;
  }

  /** A registry that knows no permissions meets a package whose second capability needs one: the
      install is refused, and the first capability stays active without a plugin or a handler. */
  method RefusedInstall() returns (manager: PluginManager, err: Option<PluginError>)
    ensures err == Some(WiringFailed(ManifestRejected)) && manager.plugins == map[]
    ensures ActiveIds(manager.registry.records) == {CapabilityId("read", Version(1, 0, 0, ""))}
    ensures manager.table.handlers == map[]
  {
    hide ActiveIds, RegisteredAll, Renewed, Admitted, Acceptable, ValidPackage, WellFormed, Accounted, Refusal;
    hide TakenUpTo, Serving, Foreign, Refused, WellKept, Disjoint, Resting, Wired, Provided, Blank, Names, CapIds;
    var registry := new Registry(Some({}), None);
    var table := new HandlerTable();
    NothingActive();
    manager := new PluginManager(registry, table, None);
    var first, second := Sample("read", 1, {}), Sample("send", 1, {"net"});
    var p := SamplePackage(1, [first, second]);
    SampleWellFormed(first);
    SampleWellFormed(second);
    SampleIsValid(p);
    SampleAcceptable(map[], p, None);
    SampleNames(p, first, second);
    SampleTaken(registry, first);
    assert !registry.Admissible(second) by { assert "net" in second.permissions; }
    SampleRefused(registry, map[], second);
    RefusalOfSecond(registry, map[], first, second);
    ghost var done;
    err, done := manager.Install(p, Handlers(map["read" := 0, "send" := 1]));
    assert p.capabilities[..done] == [first];
    RegisteredAllActive(map[], [first]);
    SampleNames(p.(capabilities := [first]), first, first);
  }

  lemma SampleTaken(registry: Registry, m: Manifest)
    requires registry.Admissible(m)
    ensures Refused(registry, map[], m).None?
  {}

  lemma SampleRefused(registry: Registry, records: Records, m: Manifest)
    requires !registry.Admissible(m)
    ensures Refused(registry, records, m) == Some(ManifestRejected)
  {}

  lemma NothingActive()
    ensures ActiveIds(map[]) == {}
  {}

  /** Wiring one capability and unwiring it leaves nothing in service. */
  lemma NothingLeft(p: Package, m: Manifest, byName: map<string, Handler>)
    requires p.capabilities == [m] && m.id.name in byName && IdSet([m]) == {m.id}
    ensures ActiveIds(RegisteredAll(Retired(RegisteredAll(map[], [m]), CapIds(p)), [])) == {}
    ensures map[] + Wired([m], byName) - CapIds(p) == map[]
  {
    hide Wired, Retired;
    RegisteredAllActive(map[], [m]);
    RetiredActive(RegisteredAll(map[], [m]), CapIds(p));
    WiredKeys([m], byName);
  }

  lemma NotInServiceThen(plugins: Plugins, n: string, m: Manifest)
    requires n in plugins && plugins[n].status == INSTALLED && plugins[n].package.capabilities == [m]
    ensures forall records :: ActiveIds(records) == {} ==> !Serving(plugins, records, map[])
  {
    assert m in plugins[n].package.capabilities;
    assert m.id in CapIds(plugins[n].package);
    assert m.id in Wanted(plugins);
  }

  /** A manager whose registry knows no permissions, with one plugin of one capability installed. */
  method SampleManager(was: Manifest) returns (manager: PluginManager)
    requires was == Sample("read", 1, {})
    ensures fresh(manager.registry) && fresh(manager.table) && fresh(manager)
    ensures manager.Valid() && manager.allowed == None
    ensures manager.registry.allowedPermissions == Some({}) && manager.registry.knownTypes == None
    ensures manager.plugins.Keys == {"notes"} && manager.plugins["notes"].status == INSTALLED
    ensures manager.plugins["notes"].package == SamplePackage(1, [was])
    ensures manager.registry.records == RegisteredAll(map[], [was])
    ensures manager.table.handlers == map[] + Wired([was], map["read" := 0])
  {
    hide ActiveIds, RegisteredAll, Renewed, Admitted, Acceptable, ValidPackage, WellFormed, Accounted, Refusal, Wired;
    hide CapIds, Names, TakenUpTo, Serving, Foreign, Refused, WellKept, Disjoint;
    var registry := new Registry(Some({}), None);
    var table := new HandlerTable();
    NothingActive();
    manager := new PluginManager(registry, table, None);
    var p := SamplePackage(1, [was]);
    SampleWellFormed(was);
    SampleIsValid(p);
    SampleNames(p, was, was);
    SampleAcceptable(map[], p, None);
    SampleTaken(registry, was);
    RefusalOfOne(registry, map[], was);
    var err, done := manager.Install(p, Handlers(map["read" := 0]));
    OneTaken(registry, map[], was, done);
    assert p.capabilities[..done] == [was];
  }

  /** The same registry meets an update that needs the permission: the old version's capability and
      handler are gone while its record says installed. */
  method RefusedUpdate() returns (manager: PluginManager, err: Option<PluginError>)
    ensures err == Some(WiringFailed(ManifestRejected))
    ensures "notes" in manager.plugins && manager.plugins["notes"].status == INSTALLED
    ensures ActiveIds(manager.registry.records) == {} && manager.table.handlers == map[] && !manager.InService()
  {
    hide ActiveIds, RegisteredAll, Renewed, Retired, Admitted, Acceptable, ValidPackage, WellFormed, Accounted;
    hide Wired, CapIds, Names, Refusal, TakenUpTo, Serving, Foreign, Refused, WellKept, Disjoint;
    var was, now := Sample("read", 1, {}), Sample("read", 2, {"net"});
    manager := SampleManager(was);
    var q := SamplePackage(2, [now]);
    SampleWellFormed(now);
    SampleIsValid(q);
    SampleNames(q, now, now);
    SampleAcceptable(manager.plugins, q, Some("notes"));
    ghost var p := manager.plugins["notes"].package;
    ghost var left := Retired(manager.registry.records, CapIds(p));
    assert !manager.registry.Admissible(now) by { assert "net" in now.permissions; }
    SampleRefused(manager.registry, left, now);
    RefusalOfOne(manager.registry, left, now);
    ghost var done;
    err, done := manager.Update(q, Handlers(map["read" := 0]));
    OneTaken(manager.registry, left, now, done);
    assert q.capabilities[..done] == [];
    SampleNames(p, was, was);
    NothingLeft(p, was, map["read" := 0]);
    NotInServiceThen(manager.plugins, "notes", was);
  }

  lemma OneTaken(registry: Registry, records: Records, m: Manifest, done: nat)
    requires TakenUpTo(registry, records, [m], done)
    ensures done == if Refused(registry, records, m).Some? then 0 else 1
  {
    hide Refused;
    assert [m][0] == m;
  }

  lemma ActiveIsRefused(registry: Registry, records: Records, m: Manifest)
    requires m.id in ActiveIds(records)
    ensures Refused(registry, records, m).Some?
  {}

  lemma RetiredIsFree(records: Records, ids: set<CapabilityId>, registry: Registry, m: Manifest)
    requires m.id in ids && registry.Admissible(m)
    ensures Refused(registry, Retired(records, ids), m).None?
  {
    hide Registry.Admissible;
  }

  /** What remains active when one capability was retired and registered again. */
  lemma OneLeft(m: Manifest, ids: set<CapabilityId>, records: Records)
    requires ActiveIds(records) == {}
    ensures ActiveIds(RegisteredAll(Retired(records, ids), [m])) == {m.id}
  {
    RetiredActive(records, ids);
    RegisteredAllActive(Retired(records, ids), [m]);
    assert m in [m];
    assert IdSet([m]) == {m.id};
    hide ActiveIds, Retired, RegisteredAll, IdSet;
  }

  method SampleDisabled(was: Manifest) returns (manager: PluginManager)
    requires was == Sample("read", 1, {})
    ensures fresh(manager.registry) && fresh(manager.table) && fresh(manager)
    ensures manager.Valid() && manager.allowed == None
    ensures manager.registry.allowedPermissions == Some({}) && manager.registry.knownTypes == None
    ensures manager.plugins.Keys == {"notes"} && manager.plugins["notes"].status == DISABLED
    ensures manager.plugins["notes"].package == SamplePackage(1, [was])
    ensures ActiveIds(manager.registry.records) == {}
  {
    hide ActiveIds, RegisteredAll, Renewed, Retired, Admitted, Acceptable, ValidPackage, WellFormed, Accounted;
    hide Wired, CapIds, Names, Refusal, TakenUpTo, Serving, Foreign, Refused, WellKept, Disjoint, Resting;
    manager := SampleManager(was);
    ghost var p := manager.plugins["notes"].package;
    SampleNames(p, was, was);
    OnlyActive(was);
    RetiredActive(manager.registry.records, CapIds(p));
    var err := manager.Disable("notes");
  }

  /** The plugin is disabled first, and the update keeps its capability and adds one that needs the
      permission: the old capability is active again while the record says disabled. */
  method RefusedUpdateOfDisabled() returns (manager: PluginManager, err: Option<PluginError>)
    ensures err == Some(WiringFailed(ManifestRejected))
    ensures manager.Valid() && fresh(manager) && fresh(manager.registry) && fresh(manager.table)
    ensures "notes" in manager.plugins && manager.plugins["notes"].status == DISABLED
    ensures manager.plugins["notes"].package == SamplePackage(1, [Sample("read", 1, {})])
    ensures ActiveIds(manager.registry.records) == {CapabilityId("read", Version(1, 0, 0, ""))} && !manager.AtRest()
  {
    hide ActiveIds, RegisteredAll, Renewed, Retired, Admitted, Acceptable, ValidPackage, WellFormed, Accounted;
    hide Wired, CapIds, Names, Refusal, TakenUpTo, Serving, Foreign, Refused, WellKept, Disjoint, Resting, Shelved;
    hide Wanted, Revives, NewRecord, Provided, DistinctNames;
    var first, second := Sample("read", 1, {}), Sample("send", 1, {"net"});
    manager := SampleDisabled(first);
    ghost var p := manager.plugins["notes"].package;
    SampleNames(p, first, first);
    ghost var records := manager.registry.records;
    var q := SamplePackage(2, [first, second]);
    SampleWellFormed(first);
    SampleWellFormed(second);
    SampleIsValid(q);
    SampleNames(q, first, second);
    SampleAcceptable(manager.plugins, q, Some("notes"));
    ghost var left := Retired(records, CapIds(p));
    assert !manager.registry.Admissible(second) by { assert "net" in second.permissions; }
    RetiredIsFree(records, CapIds(p), manager.registry, first);
    SampleRefused(manager.registry, left, second);
    RefusalOfSecond(manager.registry, left, first, second);
    ghost var done;
    err, done := manager.Update(q, Handlers(map["read" := 0, "send" := 1]));
    assert q.capabilities[..done] == [first];
    OneLeft(first, CapIds(p), records);
    RestingFrees(manager.plugins, manager.registry.records, manager.table.handlers, "notes");
    assert first.id in CapIds(p) && first.id in ActiveIds(manager.registry.records);
  }

  /** That plugin can never be enabled, and removing it leaves the capability active. */
  method RevivedForGood()
    returns (manager: PluginManager, enabled: Option<PluginError>, removed: Option<PluginError>)
    ensures enabled == Some(WiringFailed(AlreadyRegistered)) && removed == None
    ensures "notes" in manager.plugins && manager.plugins["notes"].status == REMOVED
    ensures ActiveIds(manager.registry.records) == {CapabilityId("read", Version(1, 0, 0, ""))}
  {
    hide ActiveIds, RegisteredAll, Renewed, Retired, Admitted, Acceptable, ValidPackage, WellFormed, Accounted;
    hide Wired, CapIds, Names, Refusal, TakenUpTo, Serving, Foreign, Refused, WellKept, Disjoint, Resting, Shelved;
    var was := Sample("read", 1, {});
    var err;
    manager, err := RefusedUpdateOfDisabled();
    ghost var p, stuck := manager.plugins["notes"].package, manager.registry.records;
    SampleNames(p, was, was);
    assert was.id in CapIds(p) && was.id in ActiveIds(stuck);
    ActiveIsRefused(manager.registry, stuck, was);
    ghost var done;
    enabled, done := manager.Enable("notes", Handlers(map["read" := 0]));
    OneTaken(manager.registry, stuck, was, done);
    RegisteredNone(stuck, map[], p.capabilities);
    removed := manager.Remove("notes");
  }

  lemma OnlyActive(m: Manifest)
    ensures ActiveIds(RegisteredAll(map[], [m])) == {m.id}
  {
    RegisteredAllActive(map[], [m]);
    assert m in [m];
    assert IdSet([m]) == {m.id};
  }
}
