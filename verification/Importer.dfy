/**
 Importer.Sync: reconcile the default-tenant groups under the driver's prefix
 with the driver's mappings. It opens no transaction, handles one group name at a
 time in no particular order, and carries on after a failure.
 */
module Importer {
  import opened Collections
  import opened Schema
  import opened Storage
  import opened OpenFga
  import opened Authorizer
  import opened TwoStores
  import opened Reconciliation
  import opened SyncProgress

  datatype Mapping = Mapping(user: string, group: string)

  function GroupName(prefix: string, m: Mapping): string {
    prefix + ":" + m.group
  }

  /** The users the driver lists for a prefixed group name. */
  function WantedUsers(prefix: string, mappings: seq<Mapping>, name: string): set<string> {
    set m | m in mappings && GroupName(prefix, m) == name :: m.user
  }

  function WantedNames(prefix: string, mappings: seq<Mapping>): set<string> {
    set m | m in mappings :: GroupName(prefix, m)
  }

  function PlanFor(prefix: string, mappings: seq<Mapping>): Plan {
    map n | n in WantedNames(prefix, mappings) :: WantedUsers(prefix, mappings, n)
  }

  lemma PlanIsPrefixed(prefix: string, mappings: seq<Mapping>)
    ensures Prefixed(prefix + ":", PlanFor(prefix, mappings))
  {
    forall n | n in PlanFor(prefix, mappings) ensures prefix + ":" <= n {
      var m :| m in mappings && GroupName(prefix, m) == n;
    }
  }

  /**
   The plan, read off the mappings: the users of "prefix:group" are those mapped to that group, and
   there are no other names.
   */
  lemma PlanExactly(prefix: string, mappings: seq<Mapping>)
    ensures forall u, g ::
              Mapping(u, g) in mappings <==>
              prefix + ":" + g in PlanFor(prefix, mappings) && u in PlanFor(prefix, mappings)[prefix + ":" + g]
    ensures forall n | n in PlanFor(prefix, mappings) :: exists m | m in mappings :: n == prefix + ":" + m.group
  {
    var plan := PlanFor(prefix, mappings);
    forall u, g
      ensures Mapping(u, g) in mappings <==> prefix + ":" + g in plan && u in plan[prefix + ":" + g]
    {
      if prefix + ":" + g in plan && u in plan[prefix + ":" + g] {
        var m :| m in mappings && GroupName(prefix, m) == prefix + ":" + g && m.user == u;
        PrefixCancels(prefix + ":", m.group, g);
        assert m == Mapping(u, g);
      }
      if Mapping(u, g) in mappings {
        assert GroupName(prefix, Mapping(u, g)) == prefix + ":" + g;
      }
    }
  }

  /** u is in a default-tenant group of that name. */
  ghost predicate Enrolled(db: Db, name: string, u: string) {
    exists k | k in db.groups :: k.tenant == "default" && db.groups[k].name == name && MemberKey(k.id, u) in db.members
  }

  /** After a successful synchronisation the tables say of "prefix:group" what the driver said of the group. */
  lemma MirrorsDriver(db: Db, db': Db, prefix: string, mappings: seq<Mapping>, u: string, g: string)
    requires Achieved(db, db', prefix + ":", PlanFor(prefix, mappings))
    ensures Enrolled(db', prefix + ":" + g, u) <==> Mapping(u, g) in mappings
  {
    var plan, name := PlanFor(prefix, mappings), prefix + ":" + g;
    PlanIsPrefixed(prefix, mappings);
    PlanExactly(prefix, mappings);
    Convergence(db, db', prefix + ":", plan);
    assert prefix + ":" <= name;
    if Enrolled(db', name, u) {
      var k :| k in db'.groups && k.tenant == "default" && db'.groups[k].name == name
          && MemberKey(k.id, u) in db'.members;
      assert Managed(db', k, prefix + ":") && u in MembersOf(db', k.id);
    }
    if Mapping(u, g) in mappings {
      assert HasManaged(db', prefix + ":", name);
      var k :| Managed(db', k, prefix + ":") && db'.groups[k].name == name;
      assert u in MembersOf(db', k.id);
    }
  }

  /** And it has no other groups under the prefix. */
  lemma MirrorsNothingElse(db: Db, db': Db, prefix: string, mappings: seq<Mapping>, k: GroupKey)
    requires Achieved(db, db', prefix + ":", PlanFor(prefix, mappings))
    requires k in db'.groups && k.tenant == "default" && prefix + ":" <= db'.groups[k].name
    ensures exists m | m in mappings :: db'.groups[k].name == prefix + ":" + m.group
  {
    PlanExactly(prefix, mappings);
    PlanIsPrefixed(prefix, mappings);
    Convergence(db, db', prefix + ":", PlanFor(prefix, mappings));
    assert Managed(db', k, prefix + ":");
  }

  /** driverGroups: users per prefixed name, never empty. */
  ghost predicate Collected(driverGroups: map<string, seq<string>>, prefix: string, mappings: seq<Mapping>) {
    && driverGroups.Keys == WantedNames(prefix, mappings)
    && forall n | n in driverGroups ::
         driverGroups[n] != [] && Elements(driverGroups[n]) == WantedUsers(prefix, mappings, n)
  }

  /** The map entry after one more mapping. */
  function Appended(driverGroups: map<string, seq<string>>, name: string, user: string): map<string, seq<string>> {
    driverGroups[name := (if name in driverGroups then driverGroups[name] else []) + [user]]
  }

  lemma AppendCollects(driverGroups: map<string, seq<string>>, prefix: string, mappings: seq<Mapping>, m: Mapping)
    requires Collected(driverGroups, prefix, mappings)
    ensures Collected(Appended(driverGroups, GroupName(prefix, m), m.user), prefix, mappings + [m])
  {
    var name := GroupName(prefix, m);
    var next := Appended(driverGroups, name, m.user);
    assert WantedNames(prefix, mappings + [m]) == WantedNames(prefix, mappings) + {name};
    forall n | n in next ensures next[n] != [] && Elements(next[n]) == WantedUsers(prefix, mappings + [m], n) {
      var users := if n in driverGroups then driverGroups[n] else [];
      assert WantedUsers(prefix, mappings, n) == Elements(users);
      if n == name {
        assert Elements(users + [m.user]) == Elements(users) + {m.user};
        assert WantedUsers(prefix, mappings + [m], n) == WantedUsers(prefix, mappings, n) + {m.user};
      } else {
        assert WantedUsers(prefix, mappings + [m], n) == WantedUsers(prefix, mappings, n);
      }
    }
  }

  method BuildDriverGroups(prefix: string, mappings: seq<Mapping>) returns (driverGroups: map<string, seq<string>>)
    ensures Collected(driverGroups, prefix, mappings)
  {
    driverGroups := map[];
    for i := 0 to |mappings|
      invariant Collected(driverGroups, prefix, mappings[..i])
    {
      AppendCollects(driverGroups, prefix, mappings[..i], mappings[i]);
      assert mappings[..i + 1] == mappings[..i] + [mappings[i]];
      driverGroups := Appended(driverGroups, GroupName(prefix, mappings[i]), mappings[i].user);
    }
    assert mappings[..|mappings|] == mappings;
  }

  /** existingByName: the last row of each name; names are unique, so no row is lost. */
  method IndexByName(found: seq<Found>) returns (byName: map<string, GroupId>)
    ensures forall f | f in found :: f.name in byName
    ensures forall name | name in byName :: Found(byName[name], name) in found
  {
    byName := map[];
    for i := 0 to |found|
      invariant forall f | f in found[..i] :: f.name in byName
      invariant forall name | name in byName :: Found(byName[name], name) in found
    {
      byName := byName[found[i].name := found[i].id];
    }
  }

  lemma IndexLists(db: Db, prefix: string, found: seq<Found>, byName: map<string, GroupId>)
    requires Valid(db) && Elements(found) == WithPrefix(db, prefix, DEFAULT_TENANT)
    requires forall f | f in found :: f.name in byName
    requires forall name | name in byName :: Found(byName[name], name) in found
    ensures ListsPrefix(db, prefix, DEFAULT_TENANT, byName)
  {
    forall name | name in byName
      ensures prefix <= name
      ensures var k := GroupKey(byName[name], DEFAULT_TENANT); k in db.groups && db.groups[k].name == name
    {
      assert Found(byName[name], name) in Elements(found);
    }
    forall k | k in db.groups && k.tenant == DEFAULT_TENANT && prefix <= db.groups[k].name
      ensures db.groups[k].name in byName && byName[db.groups[k].name] == k.id
    {
      assert Found(k.id, db.groups[k].name) in Elements(found);
    }
  }

  /** A uuid that was never used before. */
  method NewUuid(used: set<GroupId>) returns (id: GroupId)
    ensures id !in used
  {
    id := "0";
    var rest := used;
    while rest != {}
      invariant rest <= used
      invariant forall x | x in used && x !in rest :: |x| < |id|
    {
      var x :| x in rest;
      if |x| >= |id| {
        id := x + "0";
      }
      rest := rest - {x};
    }
  }

  // ---- one name at a time -----------------------------------------------------------------------

  lemma ExistingHandled(j: Job, db: Db, l: Ledger, n: string, g: GroupId, db': Db, ok: bool)
    requires JobOk(j) && Progress(j, db, l) && n in l.todo && n in j.existing && g == j.existing[n] && n in j.plan
    requires Valid(db') && OnlyTouches(db, db', g)
    requires var s, s' := SliceOf(db, g), SliceOf(db', g);
             if ok then SyncedTo(s, s', g, j.plan[n]) else s' == s || PrunedTo(s, s', g, j.plan[n])
    ensures Handles(j, db, l, n, g, db', ok)
  {
    ExistingRow(j, n);
    var key := GroupKey(g, DEFAULT_TENANT);
    forall k | k in db'.groups && k.id == g ensures k == key && db'.groups[k].name == n {
      RowInSlice(db', k);
      RowInSlice(j.start, k);
    }
    RowInSlice(db', key);
  }

  /** A name the database already has: done, untouched, or stopped between the statements. */
  lemma SyncKeepsProgress(j: Job, db: Db, l: Ledger, n: string, g: GroupId, now: int, db': Db, ok: bool)
    requires JobOk(j) && Progress(j, db, l) && n in l.todo && n in j.existing && g == j.existing[n] && n in j.plan
    requires Valid(db')
    requires if ok then db' == Synced(db, g, j.plan[n], now) else db' == db || db' == PruneGroup(db, g, j.plan[n])
    ensures Progress(j, db', Recorded(l, n, g, ok))
  {
    PruneEffect(db, g, j.plan[n]);
    SyncedEffect(db, g, j.plan[n], now);
    ExistingHandled(j, db, l, n, g, db', ok);
    HandlingKeepsProgress(j, db, l, n, g, db', ok);
  }

  /** A listed group that was not handled yet still has its row. */
  lemma StillThere(j: Job, db: Db, l: Ledger, n: string)
    requires JobOk(j) && Progress(j, db, l) && n in l.todo && n in j.existing
    ensures GroupKey(j.existing[n], DEFAULT_TENANT) in db.groups
  {
    ExistingRow(j, n);
    RowInSlice(db, GroupKey(j.existing[n], DEFAULT_TENANT));
  }

  lemma CreatedHandled(j: Job, db: Db, l: Ledger, n: string, g: GroupId, db': Db, ok: bool)
    requires JobOk(j) && Progress(j, db, l) && n in l.todo && n !in j.existing && n in j.plan
    requires g !in db.used && g in db'.used
    requires Valid(db') && OnlyTouches(db, db', g)
    requires if ok then CreatedAs(SliceOf(db', g), g, n, j.plan[n]) else CreatedAs(SliceOf(db', g), g, n, {})
    ensures Handles(j, db, l, n, g, db', ok)
  {
    var key := GroupKey(g, DEFAULT_TENANT);
    assert g in l.touched ==> Handled(j, db, l, g);
    forall k | k in db'.groups && k.id == g ensures k == key && db'.groups[k].name == n {
      RowInSlice(db', k);
    }
    RowInSlice(db', key);
    assert !InScope(SliceOf(j.start, g), g, j.prefix) by {
      RowInSlice(j.start, key);
    }
  }

  /** A new name: the group exists afterwards, with or without its users. */
  lemma CreateKeepsProgress(j: Job, db: Db, l: Ledger, n: string, g: GroupId, now: int, later: int, db': Db, ok: bool)
    requires JobOk(j) && Progress(j, db, l) && n in l.todo && n !in j.existing && n in j.plan && g !in db.used
    requires Valid(db')
    requires db' == if ok then PutMembers(WithGroup(db, g, n, now), GroupKeys(g, j.plan[n]), later)
            else WithGroup(db, g, n, now)
    ensures Progress(j, db', Recorded(l, n, g, ok))
  {
    var mid := WithGroup(db, g, n, now);
    CreateEffect(db, g, n, now);
    if ok {
      FillEffect(mid, g, n, j.plan[n], later);
      forall h: GroupId | h != g ensures SliceOf(db', h) == SliceOf(db, h) {
        assert SliceOf(mid, h) == SliceOf(db, h);
      }
    }
    CreatedHandled(j, db, l, n, g, db', ok);
    HandlingKeepsProgress(j, db, l, n, g, db', ok);
  }

  /** A stale group: gone, or untouched when the delete failed. */
  lemma DeleteKeepsProgress(j: Job, db: Db, l: Ledger, n: string, g: GroupId, db': Db, ok: bool)
    requires JobOk(j) && Progress(j, db, l) && n in l.todo && n in j.existing && g == j.existing[n] && n !in j.plan
    requires Valid(db') && db' == Schema.DeleteGroup(db, g)
    ensures Progress(j, db', Recorded(l, n, g, ok))
  {
    DeleteEffect(db, g);
    ExistingRow(j, n);
    forall k | k in db'.groups ensures k.id != g {
      RowInSlice(db', k);
    }
    HandlingKeepsProgress(j, db, l, n, g, db', ok);
  }

  /** A stale group whose delete failed stays as it was. */
  lemma KeepingKeepsProgress(j: Job, db: Db, l: Ledger, n: string, g: GroupId)
    requires JobOk(j) && Progress(j, db, l) && n in l.todo && n in j.existing && g == j.existing[n] && n !in j.plan
    ensures Progress(j, db, Recorded(l, n, g, false))
  {
    ExistingRow(j, n);
    forall k | k in db.groups && k.id == g ensures k == GroupKey(g, DEFAULT_TENANT) && db.groups[k].name == n {
      RowInSlice(db, k);
      RowInSlice(j.start, k);
    }
    HandlingKeepsProgress(j, db, l, n, g, db, false);
  }

  lemma GroupIsThere(db: Db, g: GroupId, users: set<string>)
    requires GroupKey(g, DEFAULT_TENANT) in db.groups
    ensures HaveGroups(PruneGroup(db, g, users), GroupKeys(g, users))
  {}

  class Importer {
    const store: Store
    const authz: TupleStore

    constructor (store: Store, authz: TupleStore)
      ensures this.store == store && this.authz == authz
    {
      this.store := store;
      this.authz := authz;
    }

    /** SyncGroupMembers on a group that exists fails only through an outage. */
    method SyncRows(g: GroupId, users: seq<string>, now: int) returns (ok: bool)
      requires Valid(store.db) && GroupKey(g, DEFAULT_TENANT) in store.db.groups && users != []
      modifies store
      ensures Valid(store.db) && old(store.calls) <= store.calls
      ensures ok <==> !Failed(store.outage, old(store.calls), store.calls)
      ensures if ok then store.db == Synced(old(store.db), g, Elements(users), now)
              else store.db == old(store.db) || store.db == PruneGroup(old(store.db), g, Elements(users))
    {
      GroupIsThere(store.db, g, Elements(users));
      var err := store.SyncGroupMembers(g, users, now);
      ok := err.None?;
      OneOfTwo(store.outage, old(store.calls));
    }

    /** The branch for a name the database already has. */
    method SyncExisting(ghost j: Job, ghost l: Ledger, name: string, g: GroupId, users: seq<string>, now: int)
      returns (ok: bool)
      requires JobOk(j) && Progress(j, store.db, l) && name in l.todo
      requires name in j.existing && g == j.existing[name] && name in j.plan && Elements(users) == j.plan[name]
              && users != []
      modifies store
      ensures Progress(j, store.db, Recorded(l, name, g, ok))
      ensures old(store.calls) <= store.calls && (ok <==> !Failed(store.outage, old(store.calls), store.calls))
    {
      ghost var db := store.db;
      StillThere(j, db, l, name);
      ok := SyncRows(g, users, now);
      SyncKeepsProgress(j, db, l, name, g, now, store.db, ok);
    }

    /** CreateGroup under a free name, then AddUsersToGroup: only an outage stops either. */
    method CreateRows(name: string, users: seq<string>)
      returns (made: Option<GroupId>, ok: bool, ghost now: int, ghost later: int)
      requires Valid(store.db) && !NameTaken(store.db, DEFAULT_TENANT, name) && users != []
      modifies store
      ensures Valid(store.db) && old(store.calls) <= store.calls
      ensures ok <==> !Failed(store.outage, old(store.calls), store.calls)
      ensures made.None? ==> !ok && store.db == old(store.db)
      ensures made.Some? ==>
                && made.value !in old(store.db).used
                && var mid := WithGroup(old(store.db), made.value, name, now);
                   store.db == if ok then PutMembers(mid, GroupKeys(made.value, Elements(users)), later) else mid
    {
      var id := NewUuid(store.db.used);
      var at: int := *;
      now, later := at, at;
      var err := store.CreateGroup(id, name, DEFAULT_TENANT, "", 0, at);
      if err.Some? {
        OneOfTwo(store.outage, old(store.calls));
        return None, false, now, later;
      }
      var at': int := *;
      later := at';
      assert store.db == WithGroup(old(store.db), id, name, now);
      ok := FillNew(id, users, at');
      made := Some(id);
      OneOfTwo(store.outage, old(store.calls));
    }

    /** AddUsersToGroup on a group that exists fails only through an outage. */
    method FillNew(g: GroupId, users: seq<string>, now: int) returns (ok: bool)
      requires Valid(store.db) && GroupKey(g, DEFAULT_TENANT) in store.db.groups && users != []
      modifies store
      ensures Valid(store.db) && store.calls == old(store.calls) + 1 && ok == !store.outage(old(store.calls))
      ensures store.db == if ok then PutMembers(old(store.db), GroupKeys(g, Elements(users)), now) else old(store.db)
    {
      var err := store.AddUsersToGroup(g, users, now);
      ok := err.None?;
    }

    /** The branch for a name the database does not have yet. */
    method CreateNew(ghost j: Job, ghost l: Ledger, name: string, users: seq<string>)
      returns (ok: bool, ghost l': Ledger)
      requires JobOk(j) && Progress(j, store.db, l) && name in l.todo
      requires name !in j.existing && name in j.plan && Elements(users) == j.plan[name] && users != []
      modifies store
      ensures Progress(j, store.db, l') && l'.todo == l.todo - {name} && l'.clean == (l.clean && ok)
      ensures old(store.calls) <= store.calls && (ok <==> !Failed(store.outage, old(store.calls), store.calls))
    {
      ghost var db := store.db;
      NameIsFree(j, db, l, name);
      var made: Option<GroupId>;
      ghost var now, later;
      made, ok, now, later := CreateRows(name, users);
      if made.None? {
        SkippingKeepsProgress(j, db, l, name);
        l' := Ledger(l.todo - {name}, l.touched, false);
      } else {
        CreateKeepsProgress(j, db, l, name, made.value, now, later, store.db, ok);
        l' := Recorded(l, name, made.value, ok);
      }
    }

    /** Delete the rows, then the tuples; the tuples are not touched unless the rows are gone. */
    method DeleteRows(g: GroupId) returns (deleted: bool, ok: bool)
      requires Valid(store.db) && authz.Valid()
      modifies store, authz`rows, authz`calls
      ensures Valid(store.db) && authz.Valid()
      ensures store.db == if deleted then Schema.DeleteGroup(old(store.db), g) else old(store.db)
      ensures !deleted ==> !ok && authz.rows == old(authz.rows)
      ensures Takes(old(authz.rows.Keys), authz.rows.Keys, ScopeOf(Delete(g)))
      ensures ok ==> forall app :: Grant(g, app) !in authz.rows
      ensures old(store.calls) <= store.calls && old(authz.calls) <= authz.calls
      ensures ok <==>
                !Failed(store.outage, old(store.calls), store.calls)
                && !Failed(authz.outage, old(authz.calls), authz.calls)
    {
      var err := store.DeleteGroup(g);
      deleted, ok := err.None?, false;
      if deleted {
        ok := authz.RemoveAllAllowedAppsFromGroup(g);
      } else {
        assert store.outage(store.calls - 1);
      }
    }

    /** A stale group. */
    method DeleteStale(ghost j: Job, ghost l: Ledger, name: string, g: GroupId) returns (ok: bool)
      requires JobOk(j) && Progress(j, store.db, l) && authz.Valid() && name in l.todo
      requires name in j.existing && g == j.existing[name] && name !in j.plan
      modifies store, authz`rows, authz`calls
      ensures Progress(j, store.db, Recorded(l, name, g, ok)) && authz.Valid()
      ensures OnlyTouches(old(store.db), store.db, g)
      ensures Takes(old(authz.rows.Keys), authz.rows.Keys, ScopeOf(Delete(g)))
      ensures SliceOf(store.db, g) == NOTHING
              || (authz.rows == old(authz.rows) && SliceOf(store.db, g) == SliceOf(old(store.db), g))
      ensures ok ==> forall app :: Grant(g, app) !in authz.rows
      ensures old(store.calls) <= store.calls && old(authz.calls) <= authz.calls
      ensures ok <==>
                !Failed(store.outage, old(store.calls), store.calls)
                && !Failed(authz.outage, old(authz.calls), authz.calls)
    {
      ghost var db := store.db;
      var deleted: bool;
      deleted, ok := DeleteRows(g);
      if deleted {
        DeleteEffect(db, g);
        DeleteKeepsProgress(j, db, l, name, g, store.db, ok);
      } else {
        KeepingKeepsProgress(j, db, l, name, g);
      }
    }

    /** One turn of the first loop. */
    method HandleName(ghost j: Job, ghost l: Ledger, name: string, users: seq<string>, existing: map<string, GroupId>)
      returns (ok: bool, ghost l': Ledger)
      requires JobOk(j) && Progress(j, store.db, l) && name in l.todo && existing == j.existing
      requires name in j.plan && Elements(users) == j.plan[name] && users != []
      modifies store
      ensures Progress(j, store.db, l') && l'.todo == l.todo - {name} && l'.clean == (l.clean && ok)
      ensures old(store.calls) <= store.calls && (ok <==> !Failed(store.outage, old(store.calls), store.calls))
    {
      if name in existing {
        var now: int := *;
        ok := SyncExisting(j, l, name, existing[name], users, now);
        l' := Recorded(l, name, existing[name], ok);
      } else {
        ok, l' := CreateNew(j, l, name, users);
      }
    }

    /** The first loop of Sync: every name of the driver, in any order. */
    method ReconcileDriverGroups(ghost j: Job, driverGroups: map<string, seq<string>>, existing: map<string, GroupId>)
      returns (failures: nat, ghost l: Ledger)
      requires JobOk(j) && existing == j.existing && Realizes(driverGroups, j.plan)
      requires store.db == j.start
      modifies store
      ensures Progress(j, store.db, l) && l.todo == existing.Keys - driverGroups.Keys && (l.clean <==> failures == 0)
      ensures old(store.calls) <= store.calls
      ensures failures == 0 <==> !Failed(store.outage, old(store.calls), store.calls)
    {
      failures := 0;
      l := Ledger(j.plan.Keys + existing.Keys, {}, true);
      SyncProgress.Begin(j);
      DriverFirst(driverGroups.Keys, existing.Keys);
      var rest := driverGroups.Keys;
      while rest != {}
        invariant rest <= driverGroups.Keys
        invariant Progress(j, store.db, l)
        invariant l.todo == rest + (existing.Keys - driverGroups.Keys) && (l.clean <==> failures == 0)
        invariant old(store.calls) <= store.calls && (l.clean <==> !Failed(store.outage, old(store.calls), store.calls))
      {
        var name :| name in rest;
        ghost var before := store.calls;
        var ok: bool;
        Shrinks(rest, existing.Keys - driverGroups.Keys, name);
        rest := rest - {name};
        ok, l := HandleName(j, l, name, driverGroups[name], existing);
        FailedSplit(store.outage, old(store.calls), before, store.calls);
        failures := failures + if ok then 0 else 1;
      }
    }

    /** One turn of the second loop; dead are the groups that lost tuples so far. */
    method HandleStale(ghost j: Job, ghost l: Ledger, ghost dead: set<GroupId>, ghost rows: set<Tuple>,
                       name: string, g: GroupId)
      returns (ok: bool, ghost l': Ledger, ghost dead': set<GroupId>)
      requires JobOk(j) && Progress(j, store.db, l) && authz.Valid() && name in l.todo
      requires name in j.existing && g == j.existing[name] && name !in j.plan
      requires AreGone(j.start, dead, store.db) && TakesFrom(dead, rows, authz.rows.Keys)
      modifies store, authz`rows, authz`calls
      ensures Progress(j, store.db, l') && authz.Valid()
      ensures l'.todo == l.todo - {name} && l'.clean == (l.clean && ok)
      ensures AreGone(j.start, dead', store.db) && TakesFrom(dead', rows, authz.rows.Keys)
              && authz.rows.Keys <= old(authz.rows.Keys)
      ensures ok ==> NoTuples(g, authz.rows.Keys)
      ensures old(store.calls) <= store.calls && old(authz.calls) <= authz.calls
      ensures ok <==>
                !Failed(store.outage, old(store.calls), store.calls)
                && !Failed(authz.outage, old(authz.calls), authz.calls)
    {
      ExistingRow(j, name);
      ok := DeleteStale(j, l, name, g);
      l' := Recorded(l, name, g, ok);
      dead' := MoreGone(j.start, dead, old(store.db), store.db, g, rows, old(authz.rows.Keys), authz.rows.Keys);
    }

    /** The second loop of Sync: every listed name the driver no longer has. */
    method DeleteStaleGroups(ghost j: Job, ghost l0: Ledger, driverGroups: map<string, seq<string>>,
                             existing: map<string, GroupId>)
      returns (failures: nat, ghost l: Ledger)
      requires JobOk(j) && existing == j.existing && Realizes(driverGroups, j.plan) && authz.Valid()
      requires Progress(j, store.db, l0) && l0.todo == existing.Keys - driverGroups.Keys
      modifies store, authz`rows, authz`calls
      ensures Progress(j, store.db, l) && l.todo == {} && (l.clean <==> l0.clean && failures == 0) && authz.Valid()
      ensures old(store.calls) <= store.calls && old(authz.calls) <= authz.calls
      ensures failures == 0 <==>
                !Failed(store.outage, old(store.calls), store.calls)
                && !Failed(authz.outage, old(authz.calls), authz.calls)
      ensures TakesDeleted(j.start, old(authz.rows.Keys), authz.rows.Keys, store.db)
      ensures failures == 0 ==> Emptied(existing, existing.Keys - driverGroups.Keys, authz.rows.Keys)
    {
      failures := 0;
      l := l0;
      ghost var dead: set<GroupId> := {};
      var rest := existing.Keys - driverGroups.Keys;
      while rest != {}
        invariant rest <= existing.Keys - driverGroups.Keys
        invariant Progress(j, store.db, l) && l.todo == rest && authz.Valid()
        invariant l.clean <==> l0.clean && failures == 0
        invariant old(store.calls) <= store.calls && old(authz.calls) <= authz.calls
        invariant failures == 0 <==>
                    !Failed(store.outage, old(store.calls), store.calls)
                    && !Failed(authz.outage, old(authz.calls), authz.calls)
        invariant AreGone(j.start, dead, store.db) && TakesFrom(dead, old(authz.rows.Keys), authz.rows.Keys)
        invariant failures == 0 ==> Emptied(existing, (existing.Keys - driverGroups.Keys) - rest, authz.rows.Keys)
      {
        var name :| name in rest;
        ghost var storeCalls, authzCalls, rows := store.calls, authz.calls, authz.rows.Keys;
        var ok: bool;
        ok, l, dead := HandleStale(j, l, dead, old(authz.rows.Keys), name, existing[name]);
        FailedSplit(store.outage, old(store.calls), storeCalls, store.calls);
        FailedSplit(authz.outage, old(authz.calls), authzCalls, authz.calls);
        failures := failures + if ok then 0 else 1;
        if failures == 0 {
          OneMoreEmptied(existing, existing.Keys - driverGroups.Keys, rest, name, rows, authz.rows.Keys);
        }
        rest := rest - {name};
      }
      AccountedFor(j.start, dead, store.db, old(authz.rows.Keys), authz.rows.Keys);
    }

    /**
     Sync. fetched is the driver's answer, None if it failed. Whatever fails, this is
     a Sync step of the two stores: every id meets its fate and tuples are only taken
     from deleted groups; the result is an error exactly when some call failed; and
     without an error the goal is met, u is in "prefix:g" exactly when the driver mapped
     u to g, and no tuple of a deleted group is left.
     */
    method Sync(prefix: string, fetched: Option<seq<Mapping>>) returns (err: bool)
      requires Valid(store.db) && authz.Valid()
      modifies store, authz`rows, authz`calls
      ensures Valid(store.db) && authz.Valid()
      ensures fetched.None? ==> err && store.db == old(store.db) && authz.rows == old(authz.rows)
      ensures fetched.Some? ==>
                SyncStep(World(old(store.db), old(authz.rows.Keys)), prefix + ":", PlanFor(prefix, fetched.value),
                         World(store.db, authz.rows.Keys))
      ensures !err ==> Achieved(old(store.db), store.db, prefix + ":", PlanFor(prefix, fetched.value))
      ensures !err ==> forall u, g :: Mapping(u, g) in fetched.value <==> Enrolled(store.db, prefix + ":" + g, u)
      ensures fetched.Some? ==>
                (err <==>
                 Failed(store.outage, old(store.calls), store.calls)
                 || Failed(authz.outage, old(authz.calls), authz.calls))
      ensures TakesDeleted(old(store.db), old(authz.rows.Keys), authz.rows.Keys, store.db)
      ensures !err ==> forall k, app | Managed(old(store.db), k, prefix + ":") && k !in store.db.groups ::
              Grant(k.id, app) !in authz.rows
    {
      if fetched.None? {
        return true;
      }
      var driverGroups := BuildDriverGroups(prefix, fetched.value);
      var listed := store.ListGroupsByPrefix(prefix + ":", DEFAULT_TENANT);
      if listed.Err? {
        OneOfTwo(store.outage, old(store.calls));
        Unchanged(store.db, prefix + ":", PlanFor(prefix, fetched.value));
        return true;
      }
      var existing := IndexByName(listed.value);
      IndexLists(store.db, prefix + ":", listed.value, existing);
      err := Reconcile(prefix, fetched.value, driverGroups, existing);
      if !err {
        forall u, g ensures Mapping(u, g) in fetched.value <==> Enrolled(store.db, prefix + ":" + g, u) {
          MirrorsDriver(old(store.db), store.db, prefix, fetched.value, u, g);
        }
      }
      FailedSplit(store.outage, old(store.calls), old(store.calls) + 1, store.calls);
      OneOfTwo(store.outage, old(store.calls));
    }

    /** The two loops, given the lookup maps. */
    method Reconcile(prefix: string, mappings: seq<Mapping>, driverGroups: map<string, seq<string>>,
                     existing: map<string, GroupId>)
      returns (err: bool)
      requires Valid(store.db) && authz.Valid() && Collected(driverGroups, prefix, mappings)
      requires ListsPrefix(store.db, prefix + ":", DEFAULT_TENANT, existing)
      modifies store, authz`rows, authz`calls
      ensures Valid(store.db) && authz.Valid() && old(store.calls) <= store.calls && old(authz.calls) <= authz.calls
      ensures Tried(old(store.db), store.db, prefix + ":", PlanFor(prefix, mappings))
      ensures !err ==> Achieved(old(store.db), store.db, prefix + ":", PlanFor(prefix, mappings))
      ensures err <==>
                Failed(store.outage, old(store.calls), store.calls)
                || Failed(authz.outage, old(authz.calls), authz.calls)
      ensures TakesDeleted(old(store.db), old(authz.rows.Keys), authz.rows.Keys, store.db)
      ensures !err ==> forall k, app | Managed(old(store.db), k, prefix + ":") && k !in store.db.groups ::
              Grant(k.id, app) !in authz.rows
    {
      ghost var j := Job(store.db, prefix + ":", PlanFor(prefix, mappings), existing);
      PlanIsPrefixed(prefix, mappings);
      ghost var l, l';
      var failed: nat, more: nat;
      failed, l := ReconcileDriverGroups(j, driverGroups, existing);
      ghost var between := store.calls;
      more, l' := DeleteStaleGroups(j, l, driverGroups, existing);
      SyncProgress.Finish(j, store.db, l');
      err := failed + more > 0;
      FailedSplit(store.outage, old(store.calls), between, store.calls);
      if !err {
        DeletedWasStale(j, store.db, driverGroups);
      }
    }
  }

  /** driverGroups holds the plan, with non-empty user lists. */
  ghost predicate Realizes(driverGroups: map<string, seq<string>>, plan: Plan) {
    && driverGroups.Keys == plan.Keys
    && forall n | n in driverGroups :: driverGroups[n] != [] && Elements(driverGroups[n]) == plan[n]
  }

  ghost predicate AreGone(start: Db, dead: set<GroupId>, db: Db) {
    forall h | h in dead :: h in start.used && SliceOf(db, h) == NOTHING
  }

  /** Deleting one more group keeps the deleted ones deleted, and accounts for the tuples it took. */
  lemma MoreGone(start: Db, dead: set<GroupId>, db: Db, db': Db, g: GroupId, rows: set<Tuple>, before: set<Tuple>,
                 after: set<Tuple>)
    returns (dead': set<GroupId>)
    requires AreGone(start, dead, db) && TakesFrom(dead, rows, before) && g in start.used
    requires OnlyTouches(db, db', g) && Takes(before, after, ScopeOf(Delete(g)))
    requires SliceOf(db', g) == NOTHING || (after == before && SliceOf(db', g) == SliceOf(db, g))
    ensures AreGone(start, dead', db') && TakesFrom(dead', rows, after)
  {
    dead' := if SliceOf(db', g) == NOTHING then dead + {g} else dead;
  }

  ghost predicate Emptied(existing: map<string, GroupId>, names: set<string>, rows: set<Tuple>) {
    forall n | n in names && n in existing :: NoTuples(existing[n], rows)
  }

  lemma OneMoreEmptied(existing: map<string, GroupId>, stale: set<string>, rest: set<string>, n: string,
                       before: set<Tuple>, after: set<Tuple>)
    requires Emptied(existing, stale - rest, before) && after <= before && n in existing && NoTuples(existing[n], after)
    ensures Emptied(existing, stale - (rest - {n}), after)
  {}

  lemma AccountedFor(start: Db, dead: set<GroupId>, db: Db, before: set<Tuple>, after: set<Tuple>)
    requires AreGone(start, dead, db) && TakesFrom(dead, before, after)
    ensures TakesDeleted(start, before, after, db)
  {}

  lemma Shrinks(rest: set<string>, others: set<string>, name: string)
    requires name in rest && name !in others
    ensures (rest + others) - {name} == (rest - {name}) + others
  {}

  lemma DriverFirst(names: set<string>, listed: set<string>)
    ensures names + listed == names + (listed - names) && {} + (listed - names) == listed - names
  {}

  ghost predicate NoTuples(g: GroupId, rows: set<Tuple>) {
    forall app :: Grant(g, app) !in rows
  }

  ghost predicate TakesFrom(dead: set<GroupId>, before: set<Tuple>, after: set<Tuple>) {
    after <= before && forall a: GrantKey | TupleOf(a) in before && TupleOf(a) !in after :: a.group in dead
  }

  lemma Unchanged(db: Db, prefix: string, plan: Plan)
    requires Valid(db)
    ensures Tried(db, db, prefix, plan)
  {}

  /** After a complete run the only managed groups that disappeared are the stale ones. */
  lemma DeletedWasStale(j: Job, db: Db, driverGroups: map<string, seq<string>>)
    requires JobOk(j) && Achieved(j.start, db, j.prefix, j.plan) && Realizes(driverGroups, j.plan)
    ensures forall k | Managed(j.start, k, j.prefix) && k !in db.groups ::
              var n := j.start.groups[k].name; n in j.existing && n !in driverGroups && j.existing[n] == k.id
  {
    forall k | Managed(j.start, k, j.prefix) && k !in db.groups
      ensures var n := j.start.groups[k].name; n in j.existing && n !in driverGroups && j.existing[n] == k.id
    {
      ManagedIsInScope(j.start, k, j.prefix);
      RowInSlice(db, k);
      assert GoalOf(j.start, db, k.id, j.prefix, j.plan);
    }
  }
}
