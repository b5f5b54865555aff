/**
 What a synchronisation may and must do to the tables, one group id at a time.
 The rows that belong to an id are its slice of the tables; ids do not interact.
 */
module Reconciliation {
  import opened Schema
  import opened Storage
  import opened RowByRow

  /** All rows of one group id. */
  datatype Slice = Slice(
    groups: map<GroupKey, GroupRow>,
    members: map<MemberKey, MemberRow>,
    grants: map<GrantKey, GrantRow>
  )

  const NOTHING := Slice(map[], map[], map[])

  function SliceOf(db: Db, g: GroupId): Slice {
    Slice(map k | k in db.groups && k.id == g :: db.groups[k],
          map m | m in db.members && m.group == g :: db.members[m],
          map a | a in db.grants && a.group == g :: db.grants[a])
  }

  /** Group name to the users it should have. */
  type Plan = map<string, set<string>>

  /** The id names a default-tenant group under the driver's prefix. */
  predicate InScope(s: Slice, g: GroupId, prefix: string) {
    var k := GroupKey(g, DEFAULT_TENANT);
    k in s.groups && prefix <= s.groups[k].name
  }

  function NameOf(s: Slice, g: GroupId): string
    requires GroupKey(g, DEFAULT_TENANT) in s.groups
  {
    s.groups[GroupKey(g, DEFAULT_TENANT)].name
  }

  /** A row the upsert left behind: unchanged but for updated_at, or a new plain member. */
  predicate Kept(before: map<MemberKey, MemberRow>, m: MemberKey, row: MemberRow) {
    if m in before then row == before[m].(updatedAt := row.updatedAt)
    else row == MemberRow(DEFAULT_TENANT, ROLE_MEMBER, row.updatedAt, row.updatedAt)
  }

  /** Exactly these users; survivors keep role and created_at; group and grants as before. */
  ghost predicate SyncedTo(s: Slice, s': Slice, g: GroupId, users: set<string>) {
    && s'.groups == s.groups && s'.grants == s.grants
    && s'.members.Keys == GroupKeys(g, users)
    && forall m | m in s'.members :: Kept(s.members, m, s'.members[m])
  }

  /** The old members that are still wanted, with their rows untouched. */
  ghost predicate PrunedTo(s: Slice, s': Slice, g: GroupId, users: set<string>) {
    && s'.groups == s.groups && s'.grants == s.grants
    && s'.members == map m | m in s.members && m.user in users :: s.members[m]
  }

  /** A group created under this name, with no grants. */
  ghost predicate CreatedAs(s: Slice, g: GroupId, name: string, users: set<string>) {
    && s.groups.Keys == {GroupKey(g, DEFAULT_TENANT)}
    && (var row := s.groups[GroupKey(g, DEFAULT_TENANT)]; row == GroupRow(name, "", 0, row.createdAt, row.createdAt))
    && s.members.Keys == GroupKeys(g, users) && s.grants == map[]
    && forall m | m in s.members :: Kept(map[], m, s.members[m])
  }

  /** What may have become of an id, whatever failed. */
  ghost predicate Fate(s: Slice, s': Slice, g: GroupId, known: bool, prefix: string, plan: Plan) {
    if InScope(s, g, prefix) then
      var n := NameOf(s, g);
      if n in plan then s' == s || SyncedTo(s, s', g, plan[n]) || PrunedTo(s, s', g, plan[n])
      else s' == s || s' == NOTHING
    else
      s' == s || (!known && GroupKey(g, DEFAULT_TENANT) in s'.groups && NameOf(s', g) in plan
                  && (CreatedAs(s', g, NameOf(s', g), {}) || CreatedAs(s', g, NameOf(s', g), plan[NameOf(s', g)])))
  }

  /** What must have become of an id when nothing failed. */
  ghost predicate Goal(s: Slice, s': Slice, g: GroupId, known: bool, prefix: string, plan: Plan) {
    if InScope(s, g, prefix) then
      var n := NameOf(s, g);
      if n in plan then SyncedTo(s, s', g, plan[n]) else s' == NOTHING
    else
      s' == s || (!known && GroupKey(g, DEFAULT_TENANT) in s'.groups && NameOf(s', g) in plan
                  && CreatedAs(s', g, NameOf(s', g), plan[NameOf(s', g)]))
  }

  ghost predicate FateOf(db: Db, db': Db, g: GroupId, prefix: string, plan: Plan) {
    Fate(SliceOf(db, g), SliceOf(db', g), g, g in db.used, prefix, plan)
  }

  ghost predicate GoalOf(db: Db, db': Db, g: GroupId, prefix: string, plan: Plan) {
    Goal(SliceOf(db, g), SliceOf(db', g), g, g in db.used, prefix, plan)
  }

  /** Grants are never added, and an id that is already in use keeps group and grants or loses everything. */
  lemma FateOfGrants(s: Slice, s': Slice, g: GroupId, known: bool, prefix: string, plan: Plan)
    requires Fate(s, s', g, known, prefix, plan)
    ensures s'.grants == s.grants || s'.grants == map[]
    ensures known ==> (s'.groups == s.groups && s'.grants == s.grants) || s' == NOTHING
  {}

  // ---- the statements, one id at a time -------------------------------------------------------

  /** db' differs from db in the rows of g only. */
  ghost predicate OnlyTouches(db: Db, db': Db, g: GroupId) {
    db.used <= db'.used && forall h: GroupId | h != g :: SliceOf(db', h) == SliceOf(db, h)
  }

  lemma PruneEffect(db: Db, g: GroupId, users: set<string>)
    ensures var db' := PruneGroup(db, g, users);
            OnlyTouches(db, db', g) && PrunedTo(SliceOf(db, g), SliceOf(db', g), g, users)
  {
    var db' := PruneGroup(db, g, users);
    forall h: GroupId | h != g ensures SliceOf(db', h) == SliceOf(db, h) {
      assert SliceOf(db', h).members == SliceOf(db, h).members;
    }
  }

  lemma PutEffect(db: Db, g: GroupId, users: set<string>, now: int)
    ensures var db' := PutMembers(db, GroupKeys(g, users), now);
            && OnlyTouches(db, db', g)
            && SliceOf(db', g).groups == SliceOf(db, g).groups && SliceOf(db', g).grants == SliceOf(db, g).grants
            && SliceOf(db', g).members.Keys == SliceOf(db, g).members.Keys + GroupKeys(g, users)
            && forall m | m in GroupKeys(g, users) :: SliceOf(db', g).members[m] == Upserted(db, m, now)
  {
    var db' := PutMembers(db, GroupKeys(g, users), now);
    forall h: GroupId | h != g ensures SliceOf(db', h) == SliceOf(db, h) {
      assert SliceOf(db', h).members == SliceOf(db, h).members;
    }
  }

  lemma SyncedEffect(db: Db, g: GroupId, users: set<string>, now: int)
    ensures var db' := Synced(db, g, users, now);
            OnlyTouches(db, db', g) && SyncedTo(SliceOf(db, g), SliceOf(db', g), g, users)
  {
    var mid := PruneGroup(db, g, users);
    var db' := Synced(db, g, users, now);
    PruneEffect(db, g, users);
    PutEffect(mid, g, users, now);
    forall h: GroupId | h != g ensures SliceOf(db', h) == SliceOf(db, h) {
      assert SliceOf(mid, h) == SliceOf(db, h);
    }
    assert SliceOf(mid, g).members.Keys <= GroupKeys(g, users);
  }

  /** The tables after CreateGroup in the default tenant. */
  function WithGroup(db: Db, id: GroupId, name: string, now: int): Db {
    db.(groups := db.groups[GroupKey(id, DEFAULT_TENANT) := GroupRow(name, "", 0, now, now)], used := db.used + {id})
  }

  lemma UnusedIsEmpty(db: Db, id: GroupId)
    requires Valid(db) && id !in db.used
    ensures SliceOf(db, id) == NOTHING
  {
    assert SliceOf(db, id).groups == map[] && SliceOf(db, id).members == map[] && SliceOf(db, id).grants == map[];
  }

  lemma CreateSparesOthers(db: Db, id: GroupId, name: string, now: int, h: GroupId)
    requires h != id
    ensures SliceOf(WithGroup(db, id, name, now), h) == SliceOf(db, h)
  {
    assert SliceOf(WithGroup(db, id, name, now), h).groups == SliceOf(db, h).groups;
  }

  lemma CreateMakesGroup(db: Db, id: GroupId, name: string, now: int)
    requires SliceOf(db, id) == NOTHING
    ensures CreatedAs(SliceOf(WithGroup(db, id, name, now), id), id, name, {})
  {
    var s, s' := SliceOf(db, id), SliceOf(WithGroup(db, id, name, now), id);
    var key := GroupKey(id, DEFAULT_TENANT);
    assert s'.members == s.members && s'.grants == s.grants;
    assert s'.groups.Keys == s.groups.Keys + {key} && s'.groups[key].name == name;
  }

  lemma CreateEffect(db: Db, id: GroupId, name: string, now: int)
    requires Valid(db) && id !in db.used
    ensures var db' := WithGroup(db, id, name, now);
            OnlyTouches(db, db', id) && CreatedAs(SliceOf(db', id), id, name, {})
    ensures SliceOf(db, id) == NOTHING
  {
    UnusedIsEmpty(db, id);
    CreateMakesGroup(db, id, name, now);
    forall h: GroupId | h != id ensures SliceOf(WithGroup(db, id, name, now), h) == SliceOf(db, h) {
      CreateSparesOthers(db, id, name, now, h);
    }
  }

  /** Adding users to a group that has none. */
  lemma FillEffect(db: Db, g: GroupId, name: string, users: set<string>, now: int)
    requires CreatedAs(SliceOf(db, g), g, name, {})
    ensures var db' := PutMembers(db, GroupKeys(g, users), now);
            OnlyTouches(db, db', g) && CreatedAs(SliceOf(db', g), g, name, users)
  {
    PutEffect(db, g, users, now);
    forall m | m in GroupKeys(g, users) ensures m !in db.members {
      assert m !in SliceOf(db, g).members;
    }
  }

  lemma DeleteSparesOthers(db: Db, g: GroupId, h: GroupId)
    requires h != g
    ensures SliceOf(DeleteGroup(db, g), h) == SliceOf(db, h)
  {
    var db' := DeleteGroup(db, g);
    assert SliceOf(db', h).groups == SliceOf(db, h).groups;
    assert SliceOf(db', h).members == SliceOf(db, h).members;
    assert SliceOf(db', h).grants == SliceOf(db, h).grants;
  }

  lemma DeleteEffect(db: Db, g: GroupId)
    requires Valid(db)
    ensures var db' := DeleteGroup(db, g);
            OnlyTouches(db, db', g) && SliceOf(db', g) == NOTHING
  {
    var db' := DeleteGroup(db, g);
    DeleteGroupKeepsValid(db, g);
    assert SliceOf(db', g).groups == map[] && SliceOf(db', g).members == map[] && SliceOf(db', g).grants == map[];
    forall h: GroupId | h != g ensures SliceOf(db', h) == SliceOf(db, h) {
      DeleteSparesOthers(db, g, h);
    }
  }

  // ---- whole synchronisations ---------------------------------------------------------------

  /** Every id meets its fate: what any synchronisation, failing or not, leaves behind. */
  ghost predicate Tried(db: Db, db': Db, prefix: string, plan: Plan) {
    && Valid(db) && Valid(db') && db.used <= db'.used
    && forall g: GroupId :: FateOf(db, db', g, prefix, plan)
  }

  /** Every id meets its goal and every planned name exists. */
  ghost predicate Achieved(db: Db, db': Db, prefix: string, plan: Plan) {
    && Valid(db) && Valid(db') && db.used <= db'.used
    && (forall g: GroupId :: GoalOf(db, db', g, prefix, plan))
    && (forall n | n in plan :: NameTaken(db', DEFAULT_TENANT, n))
  }

  /** All planned names carry the driver's prefix. */
  ghost predicate Prefixed(prefix: string, plan: Plan) {
    forall n | n in plan :: prefix <= n
  }

  /** The users of the group with this key. */
  function MembersOf(db: Db, g: GroupId): set<string> {
    set m | m in db.members && m.group == g :: m.user
  }

  lemma SliceMembers(db: Db, g: GroupId, users: set<string>)
    requires SliceOf(db, g).members.Keys == GroupKeys(g, users)
    ensures MembersOf(db, g) == users
  {
    forall u | u in users ensures MemberKey(g, u) in db.members {
      assert MemberKey(g, u) in SliceOf(db, g).members;
    }
    forall u | u in MembersOf(db, g) ensures u in users {
      assert MemberKey(g, u) in SliceOf(db, g).members;
    }
  }

  /** Is k a default-tenant group under the prefix, in these tables? */
  predicate Managed(db: Db, k: GroupKey, prefix: string) {
    k in db.groups && k.tenant == DEFAULT_TENANT && prefix <= db.groups[k].name
  }

  ghost predicate HasManaged(db: Db, prefix: string, name: string) {
    exists k | Managed(db, k, prefix) :: db.groups[k].name == name
  }

  lemma ManagedIsInScope(db: Db, k: GroupKey, prefix: string)
    ensures Managed(db, k, prefix) ==>
              InScope(SliceOf(db, k.id), k.id, prefix) && NameOf(SliceOf(db, k.id), k.id) == db.groups[k].name
    ensures k in db.groups ==> k in SliceOf(db, k.id).groups && SliceOf(db, k.id).groups[k] == db.groups[k]
    ensures k in SliceOf(db, k.id).groups ==> k in db.groups
  {}

  /**
   Convergence: after a successful synchronisation the managed groups are exactly
   the planned names, each with exactly the planned users.
   */
  lemma Convergence(db: Db, db': Db, prefix: string, plan: Plan)
    requires Achieved(db, db', prefix, plan) && Prefixed(prefix, plan)
    ensures forall n :: n in plan <==> HasManaged(db', prefix, n)
    ensures forall k | Managed(db', k, prefix) ::
            db'.groups[k].name in plan && MembersOf(db', k.id) == plan[db'.groups[k].name]
  {
    forall k | Managed(db', k, prefix)
      ensures db'.groups[k].name in plan && MembersOf(db', k.id) == plan[db'.groups[k].name]
    {
      ManagedIsPlanned(db, db', prefix, plan, k);
    }
    forall n | n in plan ensures HasManaged(db', prefix, n) {
      assert NameTaken(db', DEFAULT_TENANT, n);
      var k :| k in db'.groups && k.tenant == DEFAULT_TENANT && db'.groups[k].name == n;
      assert Managed(db', k, prefix);
    }
  }

  lemma ManagedIsPlanned(db: Db, db': Db, prefix: string, plan: Plan, k: GroupKey)
    requires Achieved(db, db', prefix, plan) && Managed(db', k, prefix)
    ensures db'.groups[k].name in plan && MembersOf(db', k.id) == plan[db'.groups[k].name]
  {
    var g := k.id;
    ManagedIsInScope(db', k, prefix);
    assert GoalOf(db, db', g, prefix, plan);
    var s, s' := SliceOf(db, g), SliceOf(db', g);
    assert s'.members.Keys == GroupKeys(g, plan[db'.groups[k].name]);
    SliceMembers(db', g, plan[db'.groups[k].name]);
  }

  /** Whatever fails, groups outside the prefix keep every row. */
  lemma OthersUntouched(db: Db, db': Db, prefix: string, plan: Plan, k: GroupKey)
    requires Tried(db, db', prefix, plan)
    requires k in db.groups && !(k.tenant == "default" && prefix <= db.groups[k].name)
    ensures SliceOf(db', k.id) == SliceOf(db, k.id)
    ensures SameRows(db, db', k.id)
  {
    ManagedIsInScope(db, k, prefix);
    assert FateOf(db, db', k.id, prefix, plan);
    assert k.id in db.used;
    SlicesAreRows(db, db', k.id);
  }

  /** Every row of the id is the same, in all three tables. */
  ghost predicate SameRows(db: Db, db': Db, g: GroupId) {
    && (forall k: GroupKey | k.id == g ::
          (k in db'.groups <==> k in db.groups) && (k in db.groups ==> db'.groups[k] == db.groups[k]))
    && (forall m: MemberKey | m.group == g :: SameMember(db, db', m))
    && (forall a: GrantKey | a.group == g ::
          (a in db'.grants <==> a in db.grants) && (a in db.grants ==> db'.grants[a] == db.grants[a]))
  }

  lemma SlicesAreRows(db: Db, db': Db, g: GroupId)
    ensures SliceOf(db', g) == SliceOf(db, g) <==> SameRows(db, db', g)
  {
    var s, s' := SliceOf(db, g), SliceOf(db', g);
    forall k: GroupKey | k.id == g
      ensures (k in s.groups <==> k in db.groups) && (k in s'.groups <==> k in db'.groups)
      ensures (k in db.groups ==> s.groups[k] == db.groups[k]) && (k in db'.groups ==> s'.groups[k] == db'.groups[k])
    {}
    forall m: MemberKey | m.group == g
      ensures (m in s.members <==> m in db.members) && (m in s'.members <==> m in db'.members)
      ensures m in db.members ==> s.members[m] == db.members[m]
      ensures m in db'.members ==> s'.members[m] == db'.members[m]
    {}
    forall a: GrantKey | a.group == g
      ensures (a in s.grants <==> a in db.grants) && (a in s'.grants <==> a in db'.grants)
      ensures (a in db.grants ==> s.grants[a] == db.grants[a]) && (a in db'.grants ==> s'.grants[a] == db'.grants[a])
    {}
    if SameRows(db, db', g) {
      assert s'.groups == s.groups && s'.members == s.members && s'.grants == s.grants;
    }
  }

  /**
   Whatever fails, what is new is plain: groups of the default tenant under fresh ids
   with a planned name and nothing else set, and ordinary members; grants are never new.
   */
  lemma NewRowsArePlain(db: Db, db': Db, prefix: string, plan: Plan)
    requires Tried(db, db', prefix, plan)
    ensures forall k | k in db'.groups && k !in db.groups ::
              && k.tenant == "default" && k.id !in db.used && db'.groups[k].name in plan
              && db'.groups[k].description == "" && db'.groups[k].kind == 0
    ensures forall m | m in db'.members && m !in db.members ::
            db'.members[m].tenant == "default" && db'.members[m].role == 0
    ensures forall a | a in db'.grants :: a in db.grants && db'.grants[a] == db.grants[a]
  {
    forall g: GroupId ensures NewInSlice(SliceOf(db, g), SliceOf(db', g), g in db.used, plan) {
      assert FateOf(db, db', g, prefix, plan);
      FateOfNewRows(SliceOf(db, g), SliceOf(db', g), g, g in db.used, prefix, plan);
    }
    forall k | k in db'.groups && k !in db.groups
      ensures && k.tenant == "default" && k.id !in db.used && db'.groups[k].name in plan
              && db'.groups[k].description == "" && db'.groups[k].kind == 0
    {
      ManagedIsInScope(db, k, prefix);
      ManagedIsInScope(db', k, prefix);
      assert NewInSlice(SliceOf(db, k.id), SliceOf(db', k.id), k.id in db.used, plan);
    }
    forall m | m in db'.members && m !in db.members
      ensures db'.members[m].tenant == "default" && db'.members[m].role == 0
    {
      var s, s' := SliceOf(db, m.group), SliceOf(db', m.group);
      assert m in s'.members && m !in s.members && s'.members[m] == db'.members[m];
      assert NewInSlice(s, s', m.group in db.used, plan);
    }
    forall a | a in db'.grants ensures a in db.grants && db'.grants[a] == db.grants[a] {
      var s, s' := SliceOf(db, a.group), SliceOf(db', a.group);
      assert a in s'.grants && s'.grants[a] == db'.grants[a];
      assert NewInSlice(s, s', a.group in db.used, plan);
    }
  }

  ghost predicate NewInSlice(s: Slice, s': Slice, known: bool, plan: Plan) {
    && (forall k | k in s'.groups && k !in s.groups ::
          && k.tenant == "default" && !known && s'.groups[k].name in plan
          && s'.groups[k].description == "" && s'.groups[k].kind == 0)
    && (forall m | m in s'.members && m !in s.members :: s'.members[m].tenant == "default" && s'.members[m].role == 0)
    && (forall a | a in s'.grants :: a in s.grants && s'.grants[a] == s.grants[a])
  }

  lemma FateOfNewRows(s: Slice, s': Slice, g: GroupId, known: bool, prefix: string, plan: Plan)
    requires Fate(s, s', g, known, prefix, plan)
    ensures NewInSlice(s, s', known, plan)
  {}

  function UsersIn(members: map<MemberKey, MemberRow>): set<string> {
    set m | m in members :: m.user
  }

  lemma MembersInSlice(db: Db, g: GroupId)
    ensures MembersOf(db, g) == UsersIn(SliceOf(db, g).members)
  {
    forall u | u in MembersOf(db, g) ensures MemberKey(g, u) in SliceOf(db, g).members {}
  }

  /**
   Whatever fails, a managed group that the driver still has keeps its row and its
   grants, and ends with its old members, the wanted ones, or those it had that are wanted.
   */
  lemma MembersUnderFailure(db: Db, db': Db, prefix: string, plan: Plan, k: GroupKey)
    requires Tried(db, db', prefix, plan) && Managed(db, k, prefix) && db.groups[k].name in plan
    ensures k in db'.groups && db'.groups[k] == db.groups[k]
    ensures SliceOf(db', k.id).grants == SliceOf(db, k.id).grants
    ensures var had, wanted, has := MembersOf(db, k.id), plan[db.groups[k].name], MembersOf(db', k.id);
            has == had || has == wanted || has == had * wanted
  {
    var g := k.id;
    var s, s', wanted := SliceOf(db, g), SliceOf(db', g), plan[db.groups[k].name];
    ManagedIsInScope(db, k, prefix);
    ManagedIsInScope(db', k, prefix);
    assert FateOf(db, db', g, prefix, plan);
    MembersInSlice(db, g);
    MembersInSlice(db', g);
    if SyncedTo(s, s', g, wanted) {
      SliceMembers(db', g, wanted);
    } else if PrunedTo(s, s', g, wanted) {
      PrunedMembers(s, s', g, wanted);
    }
  }

  lemma PrunedMembers(s: Slice, s': Slice, g: GroupId, wanted: set<string>)
    requires PrunedTo(s, s', g, wanted)
    ensures UsersIn(s'.members) == UsersIn(s.members) * wanted
  {
    forall u | u in UsersIn(s.members) && u in wanted ensures u in UsersIn(s'.members) {
      var m :| m in s.members && m.user == u;
      assert m in s'.members;
    }
  }

  /** Whatever fails, a membership that is there before and after keeps role, tenant and created_at. */
  lemma SurvivorsKeepHistory(db: Db, db': Db, prefix: string, plan: Plan, m: MemberKey)
    requires Tried(db, db', prefix, plan) && m in db.members && m in db'.members
    ensures db'.members[m] == db.members[m].(updatedAt := db'.members[m].updatedAt)
  {
    assert FateOf(db, db', m.group, prefix, plan);
    assert m in SliceOf(db, m.group).members && SliceOf(db, m.group).members[m] == db.members[m];
    assert m in SliceOf(db', m.group).members && SliceOf(db', m.group).members[m] == db'.members[m];
  }

  /** Success is one of the things that may happen. */
  lemma AchievedIsTried(db: Db, db': Db, prefix: string, plan: Plan)
    requires Achieved(db, db', prefix, plan)
    ensures Tried(db, db', prefix, plan)
  {
    forall g: GroupId ensures FateOf(db, db', g, prefix, plan) {
      assert GoalOf(db, db', g, prefix, plan);
    }
  }

  /**
   A second successful synchronisation with the same data creates and deletes
   nothing: all groups and grants stay, and so do the members with role and
   created_at.
   */
  lemma SecondSyncIsIdle(db: Db, one: Db, two: Db, prefix: string, plan: Plan)
    requires Achieved(db, one, prefix, plan) && Achieved(one, two, prefix, plan) && Prefixed(prefix, plan)
    ensures two.groups == one.groups && two.grants == one.grants && two.members.Keys == one.members.Keys
    ensures forall m | m in one.members :: two.members[m] == one.members[m].(updatedAt := two.members[m].updatedAt)
  {
    forall g: GroupId ensures Idle(one, two, g) {
      SecondSyncKeepsSlice(db, one, two, prefix, plan, g);
    }
    IdleEverywhere(one, two);
  }

  ghost predicate Idle(one: Db, two: Db, g: GroupId) {
    var s, s' := SliceOf(one, g), SliceOf(two, g);
    && s'.groups == s.groups && s'.grants == s.grants && s'.members.Keys == s.members.Keys
    && forall m | m in s.members :: s'.members[m] == s.members[m].(updatedAt := s'.members[m].updatedAt)
  }

  lemma IdleEverywhere(one: Db, two: Db)
    requires forall g: GroupId :: Idle(one, two, g)
    ensures two.groups == one.groups && two.grants == one.grants && two.members.Keys == one.members.Keys
    ensures forall m | m in one.members :: two.members[m] == one.members[m].(updatedAt := two.members[m].updatedAt)
  {
    forall k ensures (k in one.groups <==> k in two.groups) && (k in one.groups ==> one.groups[k] == two.groups[k]) {
      assert Idle(one, two, k.id);
      assert k in one.groups <==> k in SliceOf(one, k.id).groups;
      assert k in two.groups <==> k in SliceOf(two, k.id).groups;
    }
    forall a ensures (a in one.grants <==> a in two.grants) && (a in one.grants ==> one.grants[a] == two.grants[a]) {
      assert Idle(one, two, a.group);
      assert a in one.grants <==> a in SliceOf(one, a.group).grants;
      assert a in two.grants <==> a in SliceOf(two, a.group).grants;
    }
    forall m ensures (m in one.members <==> m in two.members)
                     && (m in one.members ==>
                        two.members[m] == one.members[m].(updatedAt := two.members[m].updatedAt)) {
      assert Idle(one, two, m.group);
      assert m in one.members <==> m in SliceOf(one, m.group).members;
      assert m in two.members <==> m in SliceOf(two, m.group).members;
    }
  }

  lemma SecondSyncKeepsSlice(db: Db, one: Db, two: Db, prefix: string, plan: Plan, g: GroupId)
    requires Achieved(db, one, prefix, plan) && Achieved(one, two, prefix, plan) && Prefixed(prefix, plan)
    ensures Idle(one, two, g)
  {
    if InScope(SliceOf(one, g), g, prefix) {
      assert GoalOf(db, one, g, prefix, plan) && GoalOf(one, two, g, prefix, plan);
      SyncedTwice(SliceOf(db, g), SliceOf(one, g), SliceOf(two, g), g, g in db.used, g in one.used, prefix, plan);
    } else {
      NothingLeftToCreate(db, one, two, prefix, plan, g);
    }
  }

  /** A group that already has its users keeps its rows. */
  lemma SyncedTwice(s0: Slice, s: Slice, s': Slice, g: GroupId, known: bool, known': bool, prefix: string, plan: Plan)
    requires Goal(s0, s, g, known, prefix, plan) && Goal(s, s', g, known', prefix, plan)
    requires InScope(s, g, prefix) && Prefixed(prefix, plan)
    ensures s'.groups == s.groups && s'.grants == s.grants && s'.members.Keys == s.members.Keys
    ensures forall m | m in s.members :: s'.members[m] == s.members[m].(updatedAt := s'.members[m].updatedAt)
  {}

  /** A planned name that already exists is not created again. */
  lemma NothingLeftToCreate(db: Db, one: Db, two: Db, prefix: string, plan: Plan, g: GroupId)
    requires Achieved(db, one, prefix, plan) && Achieved(one, two, prefix, plan) && Prefixed(prefix, plan)
    requires !InScope(SliceOf(one, g), g, prefix)
    ensures SliceOf(two, g) == SliceOf(one, g)
  {
    var s' := SliceOf(two, g);
    assert GoalOf(one, two, g, prefix, plan);
    if s' != SliceOf(one, g) {
      var k := GroupKey(g, DEFAULT_TENANT);
      var n := NameOf(s', g);
      assert k in two.groups && two.groups[k].name == n;
      var l := PlannedSurvives(db, one, two, prefix, plan, n);
    }
  }

  /** The group that carries a planned name after one synchronisation carries it after the next. */
  lemma PlannedSurvives(db: Db, one: Db, two: Db, prefix: string, plan: Plan, n: string) returns (l: GroupKey)
    requires Achieved(db, one, prefix, plan) && Achieved(one, two, prefix, plan) && Prefixed(prefix, plan) && n in plan
    ensures Managed(one, l, prefix) && one.groups[l].name == n && l in two.groups && two.groups[l] == one.groups[l]
  {
    assert NameTaken(one, DEFAULT_TENANT, n);
    l :| l in one.groups && l.tenant == DEFAULT_TENANT && one.groups[l].name == n;
    ManagedIsInScope(one, l, prefix);
    assert GoalOf(one, two, l.id, prefix, plan);
    assert l in SliceOf(two, l.id).groups && SliceOf(two, l.id).groups[l] == one.groups[l];
  }

  /** Same managed names with the same users, and the same rows for everything else. */
  ghost predicate SameView(db: Db, a: Db, b: Db, prefix: string) {
    && (forall n :: HasManaged(a, prefix, n) <==> HasManaged(b, prefix, n))
    && (forall k, l | Managed(a, k, prefix) && Managed(b, l, prefix) && a.groups[k].name == b.groups[l].name ::
          MembersOf(a, k.id) == MembersOf(b, l.id))
    && (forall k | k in db.groups && !Managed(db, k, prefix) ::
          SliceOf(a, k.id) == SliceOf(b, k.id) == SliceOf(db, k.id))
  }

  /** dbs are the tables between synchronisations with these plans, each of which may have failed in any way. */
  ghost predicate Attempts(dbs: seq<Db>, prefix: string, plans: seq<Plan>) {
    |dbs| == |plans| + 1 && forall i | 0 <= i < |plans| :: Tried(dbs[i], dbs[i + 1], prefix, plans[i])
  }

  /** However often it is tried and with whatever plans, other groups keep every row. */
  lemma {:induction false} OthersStayUntouched(dbs: seq<Db>, prefix: string, plans: seq<Plan>, i: nat, k: GroupKey)
    requires Attempts(dbs, prefix, plans) && i < |dbs| && k in dbs[0].groups && !Managed(dbs[0], k, prefix)
    ensures SliceOf(dbs[i], k.id) == SliceOf(dbs[0], k.id) && SameRows(dbs[0], dbs[i], k.id)
    ensures k in dbs[i].groups && !Managed(dbs[i], k, prefix)
  {
    if i > 0 {
      OthersStayUntouched(dbs, prefix, plans, i - 1, k);
      OthersUntouched(dbs[i - 1], dbs[i], prefix, plans[i - 1], k);
      ManagedIsInScope(dbs[i - 1], k, prefix);
      ManagedIsInScope(dbs[i], k, prefix);
    }
    SlicesAreRows(dbs[0], dbs[i], k.id);
  }

  /**
   Recovery: any number of synchronisations that failed in any way, even with other
   driver data, followed by one that succeeds, end in the same names and memberships
   as succeeding at once.
   */
  lemma FailureIsForgotten(dbs: seq<Db>, plans: seq<Plan>, late: Db, prompt: Db, prefix: string, plan: Plan)
    requires Attempts(dbs, prefix, plans) && Achieved(dbs[|plans|], late, prefix, plan)
    requires Achieved(dbs[0], prompt, prefix, plan) && Prefixed(prefix, plan)
    ensures SameView(dbs[0], late, prompt, prefix)
  {
    var db, failed := dbs[0], dbs[|plans|];
    Convergence(failed, late, prefix, plan);
    Convergence(db, prompt, prefix, plan);
    AchievedIsTried(failed, late, prefix, plan);
    AchievedIsTried(db, prompt, prefix, plan);
    forall k | k in db.groups && !Managed(db, k, prefix)
      ensures SliceOf(late, k.id) == SliceOf(prompt, k.id) == SliceOf(db, k.id)
    {
      OthersStayUntouched(dbs, prefix, plans, |plans|, k);
      OthersUntouched(failed, late, prefix, plan, k);
      OthersUntouched(db, prompt, prefix, plan, k);
    }
  }
}
