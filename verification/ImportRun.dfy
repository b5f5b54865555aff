/**
 Importer.Run: the one-off import. It only ever adds, and it reports no storage
 failure to its caller.
 */
module ImportRun {
  import opened Collections
  import opened Schema
  import opened Storage
  import opened Authorizer
  import opened Reconciliation
  import opened Importer

  /** The row is one the driver asked for: a default-tenant group with a planned name and one of its users. */
  ghost predicate Planned(db: Db, plan: Plan, m: MemberKey) {
    var k := GroupKey(m.group, DEFAULT_TENANT);
    k in db.groups && db.groups[k].name in plan && m.user in plan[db.groups[k].name]
  }

  /** A membership row of db in db': the same, or a planned one with a new updated_at. */
  ghost predicate Retained(db: Db, db': Db, plan: Plan, m: MemberKey)
    requires m in db.members
  {
    && m in db'.members
    && (db'.members[m] == db.members[m]
        || (Planned(db', plan, m) && db'.members[m] == db.members[m].(updatedAt := db'.members[m].updatedAt)))
  }

  /** Nothing is lost or overwritten, and nothing appears that was not asked for. */
  ghost predicate Grown(db: Db, db': Db, plan: Plan) {
    && db.used <= db'.used && db'.grants == db.grants
    && (forall k | k in db.groups :: k in db'.groups && db'.groups[k] == db.groups[k])
    && (forall k | k in db'.groups && k !in db.groups ::
          && k.id !in db.used && k.tenant == "default"
          && db'.groups[k].name in plan && db'.groups[k].description == "" && db'.groups[k].kind == 0)
    && (forall m | m in db.members :: Retained(db, db', plan, m))
    && (forall m | m in db'.members && m !in db.members ::
          Planned(db', plan, m) && db'.members[m].tenant == "default" && db'.members[m].role == 0)
  }

  /** The group exists and has all of these users. */
  ghost predicate Present(db: Db, n: string, users: set<string>) {
    exists k | k in db.groups :: k.tenant == DEFAULT_TENANT && db.groups[k].name == n
        && GroupKeys(k.id, users) <= db.members.Keys
  }

  lemma PlannedStays(db: Db, db': Db, plan: Plan, m: MemberKey)
    requires Grown(db, db', plan) && Planned(db, plan, m)
    ensures Planned(db', plan, m)
  {}

  lemma GrownTransitive(a: Db, b: Db, c: Db, plan: Plan)
    requires Valid(a) && Grown(a, b, plan) && Grown(b, c, plan)
    ensures Grown(a, c, plan)
  {
    forall m | m in a.members ensures Retained(a, c, plan, m) {
      assert Retained(a, b, plan, m) && Retained(b, c, plan, m);
    }
    forall m | m in c.members && m !in a.members
      ensures Planned(c, plan, m) && c.members[m].tenant == "default" && c.members[m].role == 0
    {
      if m in b.members {
        PlannedStays(b, c, plan, m);
        assert Retained(b, c, plan, m);
      }
    }
  }

  lemma PresentStays(db: Db, db': Db, plan: Plan, n: string, users: set<string>)
    requires Grown(db, db', plan) && Present(db, n, users)
    ensures Present(db', n, users)
  {
    var k :| k in db.groups && k.tenant == DEFAULT_TENANT && db.groups[k].name == n
        && GroupKeys(k.id, users) <= db.members.Keys;
    forall m | m in GroupKeys(k.id, users) ensures m in db'.members {
      assert Retained(db, db', plan, m);
    }
  }

  lemma CreatingGrows(db: Db, id: GroupId, n: string, now: int, plan: Plan)
    requires Valid(db) && id !in db.used && n in plan
    ensures Grown(db, WithGroup(db, id, n, now), plan)
  {}

  lemma AddingGrows(db: Db, g: GroupId, n: string, now: int, plan: Plan)
    requires Valid(db) && n in plan && GroupKey(g, DEFAULT_TENANT) in db.groups
            && db.groups[GroupKey(g, DEFAULT_TENANT)].name == n
    ensures var db' := PutMembers(db, GroupKeys(g, plan[n]), now); Grown(db, db', plan) && Present(db', n, plan[n])
  {
    var db' := PutMembers(db, GroupKeys(g, plan[n]), now);
    forall m | m in db.members ensures Retained(db, db', plan, m) {}
    var k := GroupKey(g, DEFAULT_TENANT);
    assert k in db'.groups && GroupKeys(k.id, plan[n]) <= db'.members.Keys;
  }

  /** Every planned name outside rest has been imported. */
  ghost predicate AllPresent(db: Db, plan: Plan, rest: set<string>) {
    forall n | n in plan && n !in rest :: Present(db, n, plan[n])
  }

  lemma TurnKeeps(start: Db, db: Db, db': Db, plan: Plan, rest: set<string>, name: string)
    requires Valid(start) && Grown(start, db, plan) && Grown(db, db', plan)
    ensures Grown(start, db', plan)
    ensures AllPresent(db, plan, rest) && name in plan && Present(db', name, plan[name]) ==>
            AllPresent(db', plan, rest - {name})
  {
    GrownTransitive(start, db, db', plan);
    forall n | n in plan && Present(db, n, plan[n]) ensures Present(db', n, plan[n]) {
      PresentStays(db, db', plan, n, plan[n]);
    }
  }

  lemma ImportedIsEnrolled(db: Db, prefix: string, mappings: seq<Mapping>, u: string, g: string)
    requires AllPresent(db, PlanFor(prefix, mappings), {}) && Mapping(u, g) in mappings
    ensures Enrolled(db, prefix + ":" + g, u)
  {
    PlanExactly(prefix, mappings);
    var name, plan := prefix + ":" + g, PlanFor(prefix, mappings);
    assert Present(db, name, plan[name]);
    var k :| k in db.groups && k.tenant == DEFAULT_TENANT && db.groups[k].name == name
             && GroupKeys(k.id, plan[name]) <= db.members.Keys;
    assert MemberKey(k.id, u) in GroupKeys(k.id, plan[name]);
  }

  /** Whoever appears in a group after Run was mapped to it by the driver, and joins as a plain member. */
  lemma ImportsOnlyMappings(db: Db, db': Db, prefix: string, mappings: seq<Mapping>, m: MemberKey)
    requires Grown(db, db', PlanFor(prefix, mappings)) && m in db'.members && m !in db.members
    ensures db'.members[m].tenant == "default" && db'.members[m].role == 0
    ensures exists g ::
              && Mapping(m.user, g) in mappings && GroupKey(m.group, "default") in db'.groups
              && db'.groups[GroupKey(m.group, "default")].name == prefix + ":" + g
  {
    PlanExactly(prefix, mappings);
    var name := db'.groups[GroupKey(m.group, "default")].name;
    var x :| x in mappings && name == prefix + ":" + x.group;
    assert Mapping(m.user, x.group) in mappings;
  }

  lemma PlanOf(driverGroups: map<string, seq<string>>, prefix: string, mappings: seq<Mapping>)
    requires Collected(driverGroups, prefix, mappings)
    ensures Realizes(driverGroups, PlanFor(prefix, mappings))
  {}

  lemma NothingYet(db: Db, plan: Plan)
    ensures Grown(db, db, plan) && AllPresent(db, plan, plan.Keys)
  {}

  class Import {
    const store: Store

    constructor (store: Store)
      ensures this.store == store
    {
      this.store := store;
    }

    /** The existing group, or a new one when the lookup finds none or fails. */
    method FindOrCreate(ghost plan: Plan, name: string) returns (g: Option<GroupId>)
      requires Valid(store.db) && name in plan
      modifies store
      ensures Valid(store.db) && Grown(old(store.db), store.db, plan) && old(store.calls) <= store.calls
      ensures g.Some? ==>
                var k := GroupKey(g.value, DEFAULT_TENANT); k in store.db.groups && store.db.groups[k].name == name
      ensures g.None? ==> Failed(store.outage, old(store.calls), store.calls)
    {
      OneOfTwo(store.outage, store.calls);
      NothingYet(store.db, plan);
      var found := store.GetGroupByName(name, DEFAULT_TENANT);
      if found.Ok? {
        return Some(found.value);
      }
      var id := NewUuid(store.db.used);
      var now: int := *;
      CreatingGrows(store.db, id, name, now, plan);
      var err := store.CreateGroup(id, name, DEFAULT_TENANT, "", 0, now);
      assert store.db == old(store.db) || store.db == WithGroup(old(store.db), id, name, now);
      g := if err.None? then Some(id) else None;
    }

    /** One turn of the loop. */
    method ImportName(ghost plan: Plan, name: string, users: seq<string>)
      requires Valid(store.db) && name in plan && Elements(users) == plan[name] && users != []
      modifies store
      ensures Valid(store.db) && Grown(old(store.db), store.db, plan) && old(store.calls) <= store.calls
      ensures !Failed(store.outage, old(store.calls), store.calls) ==> Present(store.db, name, plan[name])
    {
      var g := FindOrCreate(plan, name);
      if g.None? {
        return;
      }
      ghost var mid, c := store.db, store.calls;
      AddUsers(plan, name, g.value, users);
      GrownTransitive(old(store.db), mid, store.db, plan);
      FailedSplit(store.outage, old(store.calls), c, store.calls);
    }

    method AddUsers(ghost plan: Plan, name: string, g: GroupId, users: seq<string>)
      requires Valid(store.db) && name in plan && Elements(users) == plan[name] && users != []
      requires var k := GroupKey(g, DEFAULT_TENANT); k in store.db.groups && store.db.groups[k].name == name
      modifies store
      ensures Valid(store.db) && Grown(old(store.db), store.db, plan) && old(store.calls) <= store.calls
      ensures !Failed(store.outage, old(store.calls), store.calls) ==> Present(store.db, name, plan[name])
    {
      var now: int := *;
      OneOfTwo(store.outage, store.calls);
      NothingYet(store.db, plan);
      AddingGrows(store.db, g, name, now, plan);
      var err := store.AddUsersToGroup(g, users, now);
    }

    /**
     Run. Whatever fails, it only adds what the driver asked for; when nothing fails,
     every planned group exists with all of its users; and the caller hears of a
     failure only when the driver itself failed.
     */
    method Run(prefix: string, fetched: Option<seq<Mapping>>) returns (err: bool)
      requires Valid(store.db)
      modifies store
      ensures Valid(store.db) && old(store.calls) <= store.calls && (err <==> fetched.None?)
      ensures err ==> store.db == old(store.db)
      ensures !err ==> Grown(old(store.db), store.db, PlanFor(prefix, fetched.value))
      ensures !err && !Failed(store.outage, old(store.calls), store.calls) ==>
                forall u, g | Mapping(u, g) in fetched.value :: Enrolled(store.db, prefix + ":" + g, u)
      ensures !err && !Failed(store.outage, old(store.calls), store.calls) ==>
                var plan := PlanFor(prefix, fetched.value); forall n | n in plan :: Present(store.db, n, plan[n])
    {
      if fetched.None? {
        return true;
      }
      ghost var plan := PlanFor(prefix, fetched.value);
      var groupUsers := BuildDriverGroups(prefix, fetched.value);
      PlanOf(groupUsers, prefix, fetched.value);
      NothingYet(store.db, plan);
      var rest := groupUsers.Keys;
      while rest != {}
        invariant rest <= groupUsers.Keys && Valid(store.db) && Grown(old(store.db), store.db, plan)
        invariant old(store.calls) <= store.calls
        invariant !Failed(store.outage, old(store.calls), store.calls) ==> AllPresent(store.db, plan, rest)
      {
        var name :| name in rest;
        ghost var mid, c := store.db, store.calls;
        ImportName(plan, name, groupUsers[name]);
        FailedSplit(store.outage, old(store.calls), c, store.calls);
        TurnKeeps(old(store.db), mid, store.db, plan, rest, name);
        rest := rest - {name};
      }
      if !Failed(store.outage, old(store.calls), store.calls) {
        forall u, g | Mapping(u, g) in fetched.value ensures Enrolled(store.db, prefix + ":" + g, u) {
          ImportedIsEnrolled(store.db, prefix, fetched.value, u, g);
        }
      }
      return false;
    }
  }
}
