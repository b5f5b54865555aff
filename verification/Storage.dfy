/**
 The storage layer: methods that run one or two SQL statements, remove duplicates
 from their input first, and map database errors. Statements are numbered; outage
 says which of them fail for a reason outside the model (Internal), so a contract
 that holds for every outage holds for every failure pattern.
 */
module Storage {
  import opened Collections
  import opened Schema
  import opened LikePattern
  import opened Ordering
  import opened RowByRow

  /** The rows of the insert, one per user. */
  method RowsOfGroup(g: GroupId, users: seq<string>) returns (rows: seq<MemberKey>)
    requires Distinct(users)
    ensures Distinct(rows) && Elements(rows) == GroupKeys(g, Elements(users))
  {
    rows := [];
    for i := 0 to |users|
      invariant |rows| == i && forall j | 0 <= j < i :: rows[j] == MemberKey(g, users[j])
    {
      rows := rows + [MemberKey(g, users[i])];
    }
    assert forall j | 0 <= j < |users| :: rows[j] in rows;
  }

  /** The rows of the insert, one per group. */
  method RowsOfUser(u: string, groups: seq<GroupId>) returns (rows: seq<MemberKey>)
    requires Distinct(groups)
    ensures Distinct(rows) && Elements(rows) == UserKeys(u, Elements(groups))
  {
    rows := [];
    for i := 0 to |groups|
      invariant |rows| == i && forall j | 0 <= j < i :: rows[j] == MemberKey(groups[j], u)
    {
      rows := rows + [MemberKey(groups[i], u)];
    }
    assert forall j | 0 <= j < |groups| :: rows[j] in rows;
  }

  lemma PutNothing(db: Db, now: int)
    ensures forall rows: set<MemberKey> | rows == {} :: PutMembers(db, rows, now) == db
  {
    assert PutMembers(db, {}, now) == db;
  }

  /** What SyncGroupMembers makes of the tables when both statements succeed. */
  function Synced(db: Db, g: GroupId, users: set<string>, now: int): Db {
    PutMembers(PruneGroup(db, g, users), GroupKeys(g, users), now)
  }

  /** The rows of a group_members insert all have somewhere to point to. */
  predicate HaveGroups(db: Db, rows: set<MemberKey>) {
    forall m | m in rows :: m in db.members || GroupKey(m.group, DEFAULT_TENANT) in db.groups
  }

  /** The error of the insert on group_members, if the server runs it. */
  function UpsertError(db: Db, rows: set<MemberKey>, down: bool): Option<Error> {
    if down then Some(Internal) else if HaveGroups(db, rows) then None else Some(ForeignKeyViolation)
  }

  /** Tables and error after UpdateGroupsForUser, given which of its two statements are hit by an outage. */
  ghost predicate GroupsSet(db: Db, db': Db, u: string, groups: set<GroupId>, now: int, first: bool, second: bool,
                            err: Option<Error>) {
    var pruned := PruneUser(db, u, groups);
    if first then err == Some(Internal) && db' == db
    else if groups == {} then err == None && db' == pruned
    else
      && err == UpsertError(pruned, UserKeys(u, groups), second)
      && db' == if err.None? then PutMembers(pruned, UserKeys(u, groups), now) else pruned
  }

  /** Tables and error after SyncGroupMembers, given which of its two statements are hit by an outage. */
  ghost predicate MembersSet(db: Db, db': Db, g: GroupId, users: set<string>, now: int, first: bool, second: bool,
                             err: Option<Error>)
  {
    var pruned := PruneGroup(db, g, users);
    if first then err == Some(Internal) && db' == db
    else if users == {} then err == None && db' == pruned
    else
      && (err == None || err == Some(Internal))
      && (err.None? <==> UpsertError(pruned, GroupKeys(g, users), second).None?)
      && db' == if err.None? then Synced(db, g, users, now) else pruned
  }

  /** MembersSet, row by row. */
  lemma MembersSetRows(db: Db, db': Db, g: GroupId, userIds: seq<string>, now: int, first: bool, second: bool,
                       err: Option<Error>)
    requires MembersSet(db, db', g, Elements(userIds), now, first, second, err)
    ensures SameButMembers(db, db') && forall m: MemberKey | m.group != g :: SameMember(db, db', m)
    ensures err.None? ==> forall m: MemberKey | m.group == g :: m in db'.members <==> m.user in userIds
    ensures err.Some? && !first ==>
              forall m: MemberKey | m.group == g :: m in db'.members <==> m in db.members && m.user in userIds
  {
    GroupRowsReplaced(db, g, Elements(userIds), now);
    PruneGroupRows(db, g, Elements(userIds));
    if Elements(userIds) == {} {
      assert userIds == [];
    }
  }

  /**
   GroupsSet, row by row: other users' rows stay; u ends in exactly these groups, or keeps those of
   the old ones that are wanted.
   */
  lemma GroupsSetRows(db: Db, db': Db, u: string, groupIds: seq<GroupId>, now: int, first: bool, second: bool,
                      err: Option<Error>)
    requires GroupsSet(db, db', u, Elements(groupIds), now, first, second, err)
    ensures SameButMembers(db, db') && forall m: MemberKey | m.user != u :: SameMember(db, db', m)
    ensures first ==> err == Some(Internal) && db' == db
    ensures err.None? ==>
              && (forall m: MemberKey | m.user == u :: m in db'.members <==> m.group in groupIds)
              && (forall m | m in db'.members && m.user == u && m !in db.members ::
                    db'.members[m] == MemberRow("default", 0, now, now))
    ensures err.Some? && !first ==>
              forall m: MemberKey | m.user == u :: m in db'.members <==> m in db.members && m.group in groupIds
    ensures forall m | m in db'.members && m in db.members ::
              db'.members[m] == db.members[m].(updatedAt := db'.members[m].updatedAt)
  {
    UserRowsReplaced(db, u, Elements(groupIds), now);
    PruneUserRows(db, u, Elements(groupIds));
    if Elements(groupIds) == {} {
      assert groupIds == [];
    }
  }

  /** The upsert as a statement, for rows without duplicates. */
  lemma UpsertAfter(db: Db, rows: seq<MemberKey>, now: int)
    requires Distinct(rows)
    ensures After(db, SUpsertMembers(rows, now))
            == if HaveGroups(db, Elements(rows)) then PutMembers(db, Elements(rows), now) else db
  {
    assert forall i | 0 <= i < |rows| :: rows[i] in Elements(rows);
  }

  lemma SentGroups(db: Db, db': Db, stmts: seq<Statement>, u: string, groups: set<GroupId>, now: int,
                   outage: nat -> bool, from: nat, err: Option<Error>)
    requires SetsGroups(stmts, u, groups, now)
    requires GroupsSet(db, db', u, groups, now, outage(from), outage(from + 1), err)
    ensures db' == Auto(db, Sent(stmts[..if groups == {} || outage(from) then 1 else 2], outage, from))
  {
    SentByTwo(db, stmts, outage, from);
    if groups != {} {
      UpsertAfter(PruneUser(db, u, groups), stmts[1].rows, now);
    }
  }

  class Store {
    var db: Db
    var calls: nat
    const outage: nat -> bool
    /** Which statements run but return rows that cannot be read. */
    const unreadable: nat -> bool
    const collation: Collation

    constructor (outage: nat -> bool, unreadable: nat -> bool, collation: Collation)
      ensures db == EMPTY && calls == 0
      ensures this.outage == outage && this.unreadable == unreadable && this.collation == collation
    {
      db, calls := EMPTY, 0;
      this.outage, this.unreadable, this.collation := outage, unreadable, collation;
    }

    /** CreateGroup: id is the fresh uuid of the call. */
    method CreateGroup(id: GroupId, name: string, tenant: string, description: string, kind: int, now: int)
      returns (err: Option<Error>)
      requires Valid(db) && id !in db.used
      modifies this
      ensures Valid(db) && calls == old(calls) + 1
      ensures err == if outage(old(calls)) then Some(Internal)
                     else if NameTaken(old(db), tenant, name) then Some(DuplicateKey) else None
      ensures db == if err.Some? then old(db)
                    else
                      var row := GroupRow(name, description, kind, now, now);
                      old(db).(groups := old(db).groups[GroupKey(id, tenant) := row], used := old(db).used + {id})
    {
      var row := GroupRow(name, description, kind, now, now);
      InsertGroupKeepsValid(db, id, tenant, row);
      var r := InsertGroup(db, id, tenant, row);
      if outage(calls) {
        err := Some(Internal);
      } else if r.Err? {
        err := Some(r.error);
      } else {
        db := r.value;
        err := None;
      }
      calls := calls + 1;
    }

    /** GetGroupByName: the one group of the tenant with this name. */
    method GetGroupByName(name: string, tenantId: string) returns (r: Result<GroupId>)
      requires Valid(db)
      modifies this`calls
      ensures calls == old(calls) + 1
      ensures var tenant := if tenantId == "" then DEFAULT_TENANT else tenantId;
              if outage(old(calls)) then r == Err(Internal)
              else if !NameTaken(db, tenant, name) then r == Err(NotFound)
              else r.Ok? && GroupKey(r.value, tenant) in db.groups && db.groups[GroupKey(r.value, tenant)].name == name
    {
      var tenant := if tenantId == "" then DEFAULT_TENANT else tenantId;
      calls := calls + 1;
      if outage(calls - 1) {
        return Err(Internal);
      }
      if !NameTaken(db, tenant, name) {
        return Err(NotFound);
      }
      assert forall k, l | k in db.groups && l in db.groups && k.tenant == l.tenant
          && db.groups[k].name == db.groups[l].name :: k == l;
      var k :| k in db.groups && k.tenant == tenant && db.groups[k].name == name;
      return Ok(k.id);
    }

    method DeleteGroup(id: GroupId) returns (err: Option<Error>)
      requires Valid(db)
      modifies this
      ensures Valid(db) && calls == old(calls) + 1
      ensures err == if outage(old(calls)) then Some(Internal) else None
      ensures db == if err.None? then Schema.DeleteGroup(old(db), id) else old(db)
    {
      DeleteGroupKeepsValid(db, id);
      if outage(calls) {
        err := Some(Internal);
      } else {
        db := Schema.DeleteGroup(db, id);
        err := None;
      }
      calls := calls + 1;
    }

    /** One upsert statement; a duplicate-free row list never trips over itself. */
    method Upsert(rows: seq<MemberKey>, now: int) returns (err: Option<Error>)
      requires Valid(db) && Distinct(rows)
      modifies this
      ensures Valid(db) && calls == old(calls) + 1
      ensures err == UpsertError(old(db), Elements(rows), outage(old(calls)))
      ensures db == if err.None? then PutMembers(old(db), Elements(rows), now) else old(db)
    {
      UpsertMembersKeepsValid(db, rows, now);
      var r := UpsertMembers(db, rows, now);
      assert forall i | 0 <= i < |rows| :: rows[i] in Elements(rows);
      if outage(calls) {
        err := Some(Internal);
      } else if r.Err? {
        err := Some(r.error);
      } else {
        db := r.value;
        err := None;
      }
      calls := calls + 1;
    }

    /** One DELETE on group_members, given the rows it would leave behind. */
    method DeleteMembers(left: Db) returns (err: Option<Error>)
      requires Valid(db) && Valid(left)
      modifies this
      ensures Valid(db) && calls == old(calls) + 1
      ensures err == if outage(old(calls)) then Some(Internal) else None
      ensures db == if err.None? then left else old(db)
    {
      err := if outage(calls) then Some(Internal) else None;
      db := if outage(calls) then db else left;
      calls := calls + 1;
    }

    method AddUsersToGroup(g: GroupId, userIds: seq<string>, now: int) returns (err: Option<Error>)
      requires Valid(db)
      modifies this
      ensures Valid(db) && calls == old(calls) + if userIds == [] then 0 else 1
      ensures err == if userIds == [] then None
                     else UpsertError(old(db), GroupKeys(g, Elements(userIds)), outage(old(calls)))
      ensures db == if err.None? then PutMembers(old(db), GroupKeys(g, Elements(userIds)), now) else old(db)
      ensures err.None? ==>
                && SameButMembers(old(db), db)
                && (forall m: MemberKey | m.group != g || m.user !in userIds :: SameMember(old(db), db, m))
                && (forall m: MemberKey | m.group == g && m.user in userIds :: m in db.members)
    {
      GroupRowsAdded(db, g, Elements(userIds), now);
      if userIds == [] {
        PutNothing(db, now);
        return None;
      }
      var unique := Dedup(userIds);
      assert Elements(unique) == Elements(userIds);
      var rows := RowsOfGroup(g, unique);
      err := Upsert(rows, now);
    }

    /**
     SyncGroupMembers: delete the members that are not listed, then upsert the
     listed ones. Without a transaction it can stop between the two statements.
     */
    method SyncGroupMembers(g: GroupId, userIds: seq<string>, now: int) returns (err: Option<Error>)
      requires Valid(db)
      modifies this
      ensures Valid(db)
      ensures calls == old(calls) + if userIds == [] || outage(old(calls)) then 1 else 2
      ensures MembersSet(old(db), db, g, Elements(userIds), now, outage(old(calls)), outage(old(calls) + 1), err)
      ensures SameButMembers(old(db), db) && forall m: MemberKey | m.group != g :: SameMember(old(db), db, m)
      ensures err.None? ==> forall m: MemberKey | m.group == g :: m in db.members <==> m.user in userIds
      ensures err.Some? && !outage(old(calls)) ==>
                forall m: MemberKey | m.group == g :: m in db.members <==> m in old(db).members && m.user in userIds
    {
      ghost var before, from := db, calls;
      err := ReplaceMembers(g, Elements(userIds), now);
      MembersSetRows(before, db, g, userIds, now, outage(from), outage(from + 1), err);
    }

    /** Its body, on the set of user ids. */
    method ReplaceMembers(g: GroupId, users: set<string>, now: int) returns (err: Option<Error>)
      requires Valid(db)
      modifies this
      ensures Valid(db)
      ensures calls == old(calls) + if users == {} || outage(old(calls)) then 1 else 2
      ensures MembersSet(old(db), db, g, users, now, outage(old(calls)), outage(old(calls) + 1), err)
    {
      var unique := Collect(users);
      assert Elements(unique) == users;
      DeletesKeepValid(db, g, "", users, {}, {});
      err := DeleteMembers(PruneGroup(db, g, users));
      if err.None? && |unique| > 0 {
        var rows := RowsOfGroup(g, unique);
        err := Upsert(rows, now);
        if err.Some? {
          err := Some(Internal); // not classified, unlike in UpdateGroupsForUser
        }
      }
    }

    /** UpdateGroupsForUser: the same two statements, seen from the user's side; stmts are the ones it is made of. */
    method UpdateGroupsForUser(u: string, groupIds: seq<GroupId>, now: int)
      returns (err: Option<Error>, ghost stmts: seq<Statement>)
      requires Valid(db)
      modifies this
      ensures Valid(db) && SetsGroups(stmts, u, Elements(groupIds), now)
      ensures calls == old(calls) + if groupIds == [] || outage(old(calls)) then 1 else 2
      ensures GroupsSet(old(db), db, u, Elements(groupIds), now, outage(old(calls)), outage(old(calls) + 1), err)
      ensures db == Auto(old(db), Sent(stmts[..calls - old(calls)], outage, old(calls)))
      ensures SameButMembers(old(db), db) && forall m: MemberKey | m.user != u :: SameMember(old(db), db, m)
      ensures outage(old(calls)) ==> err == Some(Internal) && db == old(db)
      ensures err.None? ==>
                && (forall m: MemberKey | m.user == u :: m in db.members <==> m.group in groupIds)
                && (forall m | m in db.members && m.user == u && m !in old(db).members ::
                      db.members[m] == MemberRow("default", 0, now, now))
      ensures err.Some? && !outage(old(calls)) ==>
                forall m: MemberKey | m.user == u :: m in db.members <==> m in old(db).members && m.group in groupIds
      ensures forall m | m in db.members && m in old(db).members ::
                db.members[m] == old(db).members[m].(updatedAt := db.members[m].updatedAt)
    {
      ghost var before, from := db, calls;
      err, stmts := SendGroups(u, groupIds, now);
      GroupsSetRows(before, db, u, groupIds, now, outage(from), outage(from + 1), err);
    }

    /** The two statements, as the server takes them. */
    method SendGroups(u: string, groupIds: seq<GroupId>, now: int)
      returns (err: Option<Error>, ghost stmts: seq<Statement>)
      requires Valid(db)
      modifies this
      ensures Valid(db) && SetsGroups(stmts, u, Elements(groupIds), now)
      ensures calls == old(calls) + if groupIds == [] || outage(old(calls)) then 1 else 2
      ensures GroupsSet(old(db), db, u, Elements(groupIds), now, outage(old(calls)), outage(old(calls) + 1), err)
      ensures db == Auto(old(db), Sent(stmts[..calls - old(calls)], outage, old(calls)))
    {
      var groups := Elements(groupIds);
      ghost var before, from := db, calls;
      err, stmts := ReplaceGroups(u, groups, now);
      SentGroups(before, db, stmts, u, groups, now, outage, from, err);
    }

    /** Its body, on the set of group ids. */
    method ReplaceGroups(u: string, groups: set<GroupId>, now: int)
      returns (err: Option<Error>, ghost stmts: seq<Statement>)
      requires Valid(db)
      modifies this
      ensures Valid(db) && SetsGroups(stmts, u, groups, now)
      ensures calls == old(calls) + if groups == {} || outage(old(calls)) then 1 else 2
      ensures GroupsSet(old(db), db, u, groups, now, outage(old(calls)), outage(old(calls) + 1), err)
    {
      var unique := Collect(groups);
      assert Elements(unique) == groups;
      var rows := RowsOfUser(u, unique);
      stmts := [SPruneUser(u, groups)] + if |unique| == 0 then [] else [SUpsertMembers(rows, now)];
      DeletesKeepValid(db, "0", u, {}, groups, {});
      err := DeleteMembers(PruneUser(db, u, groups));
      if err.None? && |unique| > 0 {
        err := Upsert(rows, now);
      }
    }

    method AddAllowedApp(a: GrantKey, now: int) returns (err: Option<Error>)
      requires Valid(db)
      modifies this
      ensures Valid(db) && calls == old(calls) + 1
      ensures err == if outage(old(calls)) then Some(Internal)
                     else if a in old(db).grants then Some(DuplicateKey)
                     else if GroupKey(a.group, DEFAULT_TENANT) !in old(db).groups then Some(ForeignKeyViolation)
                     else None
      ensures if err.None? then InsertGrant(old(db), a, now) == Ok(db) else db == old(db)
      ensures err.None? ==> db == old(db).(grants := old(db).grants[a := GrantRow("default", now, now)])
    {
      InsertGrantKeepsValid(db, a, now);
      var r := InsertGrant(db, a, now);
      if outage(calls) {
        err := Some(Internal);
      } else if r.Err? {
        err := Some(r.error);
      } else {
        db := r.value;
        err := None;
      }
      calls := calls + 1;
    }

    /** RemoveAllowedApps and RemoveAllAllowedGroupsForApp: a DELETE whose RETURNING rows must be read afterwards. */
    method RemoveGrantsReturning(gone: set<GrantKey>) returns (err: Option<Error>)
      requires Valid(db)
      modifies this
      ensures Valid(db) && calls == old(calls) + 1
      ensures err == if outage(old(calls)) || unreadable(old(calls)) then Some(Internal) else None
      ensures db == if outage(old(calls)) then old(db) else DeleteGrants(old(db), gone)
    {
      var read := !unreadable(calls);
      err := RemoveGrants(gone);
      if err.None? && !read {
        err := Some(Internal);
      }
    }

    /** RemoveAllowedApp: one DELETE. */
    method RemoveGrants(gone: set<GrantKey>) returns (err: Option<Error>)
      requires Valid(db)
      modifies this
      ensures Valid(db) && calls == old(calls) + 1
      ensures err == if outage(old(calls)) then Some(Internal) else None
      ensures db == if err.None? then DeleteGrants(old(db), gone) else old(db)
    {
      DeletesKeepValid(db, "0", "", {}, {}, gone);
      err := if outage(calls) then Some(Internal) else None;
      db := if outage(calls) then db else DeleteGrants(db, gone);
      calls := calls + 1;
    }

    /** The groups of a tenant whose name starts with the prefix, in the order of their names. */
    method ListGroupsByPrefix(prefix: string, tenantId: string) returns (r: Result<seq<Found>>)
      requires Valid(db)
      modifies this`calls
      ensures calls == old(calls) + 1
      ensures r.Err? <==> outage(old(calls))
      ensures r.Ok? ==>
                var tenant := if tenantId == "" then DEFAULT_TENANT else tenantId;
                Answers(r.value, WithPrefix(db, prefix, tenant), FoundName(), collation)
      ensures r.Ok? ==>
                && (forall i, j | 0 <= i < j < |r.value| :: r.value[i] != r.value[j])
                && (forall i, j | 0 <= i <= j < |r.value| :: collation(r.value[i].name, r.value[j].name))
                && (forall f | f in r.value ::
                      exists k | k in db.groups ::
                        && k == GroupKey(f.id, if tenantId == "" then "default" else tenantId)
                        && db.groups[k].name == f.name && prefix <= f.name)
                && (forall k | k in db.groups && k.tenant == (if tenantId == "" then "default" else tenantId)
                               && prefix <= db.groups[k].name :: Found(k.id, db.groups[k].name) in r.value)
    {
      var tenant := if tenantId == "" then DEFAULT_TENANT else tenantId;
      calls := calls + 1;
      if outage(calls - 1) {
        return Err(Internal);
      }
      var keys := set k | k in db.groups && k.tenant == tenant && Like(db.groups[k].name, Escape(prefix) + "%");
      forall k | k in db.groups ensures Like(db.groups[k].name, Escape(prefix) + "%") <==> prefix <= db.groups[k].name {
        EscapeIsExact(prefix, db.groups[k].name);
      }
      var selected := set k | k in keys :: Found(k.id, db.groups[k].name);
      assert selected == WithPrefix(db, prefix, tenant);
      var rows := OrderBy(selected, FoundName(), collation);
      forall f | f in rows ensures f in selected {
        assert f in Elements(rows);
      }
      forall f | f in selected ensures f in rows {
        assert f in Elements(rows);
      }
      return Ok(rows);
    }
  }

  /** A row of ListGroupsByPrefix. */
  datatype Found = Found(id: GroupId, name: string)

  function FoundName(): Found -> string {
    (f: Found) => f.name
  }

  function WithPrefix(db: Db, prefix: string, tenant: string): set<Found> {
    set k | k in db.groups && k.tenant == tenant && prefix <= db.groups[k].name :: Found(k.id, db.groups[k].name)
  }

  /** byName holds exactly the tenant's groups with this prefix, each under its own name. */
  ghost predicate ListsPrefix(db: Db, prefix: string, tenant: string, byName: map<string, GroupId>) {
    && (forall k | k in db.groups && k.tenant == tenant && prefix <= db.groups[k].name ::
          db.groups[k].name in byName && byName[db.groups[k].name] == k.id)
    && (forall name | name in byName ::
          && prefix <= name
          && GroupKey(byName[name], tenant) in db.groups
          && db.groups[GroupKey(byName[name], tenant)].name == name)
  }
}
