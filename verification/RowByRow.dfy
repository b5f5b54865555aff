/**
 What the SQL statements do, row by row: which rows are there afterwards, with which
 columns, and which are left alone.
 */
module RowByRow {
  import opened Collections
  import opened Schema

  /** Groups, grants and handed-out ids are the same. */
  ghost predicate SameButMembers(db: Db, db': Db) {
    db'.groups == db.groups && db'.grants == db.grants && db'.used == db.used
  }

  /** The membership is absent from both, or present in both with the same row. */
  ghost predicate SameMember(db: Db, db': Db, m: MemberKey) {
    (m in db'.members <==> m in db.members) && (m in db.members ==> db'.members[m] == db.members[m])
  }

  /** INSERT INTO groups: refused exactly when the tenant has the id or the name already. */
  lemma InsertGroupRows(db: Db, id: GroupId, tenant: string, row: GroupRow)
    ensures var r := InsertGroup(db, id, tenant, row);
            && (r.Err? ==> r.error == DuplicateKey)
            && (r.Err? <==>
                exists k | k in db.groups :: k.tenant == tenant && (k.id == id || db.groups[k].name == row.name))
            && (r.Ok? ==>
                  r.value == db.(groups := db.groups[GroupKey(id, tenant) := row], used := db.used + {id}))
    ensures NameTaken(db, tenant, row.name) <==>
            exists k | k in db.groups :: k.tenant == tenant && db.groups[k].name == row.name
    ensures IsLive(db, id) <==> exists k | k in db.groups :: k.id == id
  {
    if GroupKey(id, tenant) in db.groups {
      assert GroupKey(id, tenant).tenant == tenant;
    }
    if k :| k in db.groups && k.tenant == tenant && k.id == id {
      assert k == GroupKey(id, tenant);
    }
  }

  /** DELETE ... WHERE group_id = g AND user_id NOT IN keep. */
  lemma PruneGroupRows(db: Db, g: GroupId, keep: set<string>)
    ensures var db' := PruneGroup(db, g, keep);
            && SameButMembers(db, db')
            && (forall m: MemberKey | m.group != g || m.user in keep :: SameMember(db, db', m))
            && (forall m: MemberKey | m.group == g && m.user !in keep :: m !in db'.members)
  {}

  /** DELETE ... WHERE user_id = u AND group_id NOT IN keep. */
  lemma PruneUserRows(db: Db, u: string, keep: set<GroupId>)
    ensures var db' := PruneUser(db, u, keep);
            && SameButMembers(db, db')
            && (forall m: MemberKey | m.user != u || m.group in keep :: SameMember(db, db', m))
            && (forall m: MemberKey | m.user == u && m.group !in keep :: m !in db'.members)
  {}

  /** DELETE ... WHERE group_id = g AND user_id IN users. */
  lemma RemoveUsersRows(db: Db, g: GroupId, users: set<string>)
    ensures var db' := RemoveUsers(db, g, users);
            && SameButMembers(db, db')
            && (forall m: MemberKey | m.group != g || m.user !in users :: SameMember(db, db', m))
            && (forall m: MemberKey | m.group == g && m.user in users :: m !in db'.members)
  {}

  /** INSERT ... ON CONFLICT (group_id, user_id) DO UPDATE SET updated_at. */
  lemma PutMembersRows(db: Db, rows: set<MemberKey>, now: int)
    ensures var db' := PutMembers(db, rows, now);
            && SameButMembers(db, db')
            && (forall m: MemberKey | m !in rows :: SameMember(db, db', m))
            && (forall m: MemberKey | m in rows :: m in db'.members)
            && (forall m: MemberKey | m in rows && m in db.members ::
                  db'.members[m] == db.members[m].(updatedAt := now))
            && (forall m: MemberKey | m in rows && m !in db.members ::
                  db'.members[m] == MemberRow("default", 0, now, now))
  {}

  /** The upsert as a whole: refused when a row is named twice, or when a new one has no group in the default tenant. */
  lemma UpsertMembersRows(db: Db, rows: seq<MemberKey>, now: int)
    ensures var r := UpsertMembers(db, rows, now);
            && (r.Ok? <==>
                && (forall i, j | 0 <= i < j < |rows| :: rows[i] != rows[j])
                && (forall m | m in rows :: m in db.members || GroupKey(m.group, "default") in db.groups))
            && (r.Ok? ==> r.value == PutMembers(db, Elements(rows), now))
            && (r == Err(ForeignKeyViolation) <==> r.Err? && forall i, j | 0 <= i < j < |rows| :: rows[i] != rows[j])
  {}

  /** INSERT INTO application_groups. */
  lemma InsertGrantRows(db: Db, a: GrantKey, now: int)
    ensures var r := InsertGrant(db, a, now);
            && (r == Err(DuplicateKey) <==> a in db.grants)
            && (r == Err(ForeignKeyViolation) <==> a !in db.grants && GroupKey(a.group, "default") !in db.groups)
            && (r.Ok? <==> a !in db.grants && GroupKey(a.group, "default") in db.groups)
            && (r.Ok? ==> r.value == db.(grants := db.grants[a := GrantRow("default", now, now)]))
  {}

  /** DELETE FROM application_groups. */
  lemma DeleteGrantsRows(db: Db, gone: set<GrantKey>)
    ensures var db' := DeleteGrants(db, gone);
            && db'.groups == db.groups && db'.members == db.members && db'.used == db.used
            && (forall a: GrantKey :: a in db'.grants <==> a in db.grants && a !in gone)
            && (forall a | a in db'.grants :: db'.grants[a] == db.grants[a])
  {}

  /** The rows the bulk removals select. */
  lemma SelectedGrants(db: Db, g: GroupId, app: string, a: GrantKey)
    ensures a in GrantsOfGroup(db, g) <==> a in db.grants && a.group == g
    ensures a in GrantsOfApp(db, app) <==> a in db.grants && a.app == app
  {}

  /** DELETE FROM groups WHERE id = ?, with its cascades, over consistent tables. */
  lemma DeleteGroupRows(db: Db, id: GroupId)
    requires Valid(db)
    ensures var db' := DeleteGroup(db, id);
            && db'.used == db.used
            && (forall k: GroupKey :: k in db'.groups <==> k in db.groups && k.id != id)
            && (forall m: MemberKey :: m in db'.members <==> m in db.members && m.group != id)
            && (forall a: GrantKey :: a in db'.grants <==> a in db.grants && a.group != id)
            && (forall k | k in db'.groups :: db'.groups[k] == db.groups[k])
            && (forall m | m in db'.members :: db'.members[m] == db.members[m])
            && (forall a | a in db'.grants :: db'.grants[a] == db.grants[a])
  {
    DeleteGroupKeepsValid(db, id);
  }

  /** UPDATE groups: not found without such a row, refused when the name is taken by another group of the tenant. */
  lemma UpdateGroupRows(db: Db, id: GroupId, name: string, description: string, kind: int, now: int)
    requires Valid(db)
    ensures var r := UpdateGroup(db, id, name, description, kind, now);
            && (r == Err(NotFound) <==> forall k | k in db.groups :: k.id != id)
            && (r.Ok? ==>
                  && r.value.members == db.members && r.value.grants == db.grants && r.value.used == db.used
                  && r.value.groups.Keys == db.groups.Keys
                  && (forall k | k in db.groups && k.id != id :: r.value.groups[k] == db.groups[k])
                  && (forall k | k in db.groups && k.id == id ::
                        r.value.groups[k] == GroupRow(name, description, kind, db.groups[k].createdAt, now)))
  {}

  /** The tenant-scoped selections; an empty tenant selects across tenants. */
  lemma ViewRows(db: Db, tenant: string, g: GroupId, user: string)
    ensures forall k: GroupKey ::
              k in GroupsForUser(db, tenant, user) <==>
              k in db.groups && MemberKey(k.id, user) in db.members && (tenant == "" || k.tenant == tenant)
    ensures user in UsersInGroup(db, tenant, g) <==>
            MemberKey(g, user) in db.members && (tenant == "" || db.members[MemberKey(g, user)].tenant == tenant)
  {
    forall k: GroupKey | k in db.groups && MemberKey(k.id, user) in db.members && (tenant == "" || k.tenant == tenant)
      ensures k in GroupsForUser(db, tenant, user)
    {
      var m := MemberKey(k.id, user);
      assert m in db.members && k.id == m.group && m.user == user;
    }
    if MemberKey(g, user) in db.members {
      var m := MemberKey(g, user);
      assert m in db.members && m.group == g;
    }
  }

  /** UpdateGroupsForUser when both statements succeed: only u's rows change, to exactly these groups. */
  lemma UserRowsReplaced(db: Db, u: string, groups: set<GroupId>, now: int)
    ensures var db' := PutMembers(PruneUser(db, u, groups), UserKeys(u, groups), now);
            && SameButMembers(db, db')
            && (forall m: MemberKey | m.user != u :: SameMember(db, db', m))
            && (forall m: MemberKey | m.user == u :: m in db'.members <==> m.group in groups)
            && (forall m | m in db'.members && m.user == u && m in db.members ::
                  db'.members[m] == db.members[m].(updatedAt := now))
            && (forall m | m in db'.members && m.user == u && m !in db.members ::
                  db'.members[m] == MemberRow("default", 0, now, now))
  {
    var pruned := PruneUser(db, u, groups);
    PruneUserRows(db, u, groups);
    PutMembersRows(pruned, UserKeys(u, groups), now);
    forall m: MemberKey ensures m in UserKeys(u, groups) <==> m.user == u && m.group in groups {
      assert m == MemberKey(m.group, m.user);
    }
  }

  /** SyncGroupMembers when both statements succeed: only g's rows change, to exactly these users. */
  lemma GroupRowsReplaced(db: Db, g: GroupId, users: set<string>, now: int)
    ensures var db' := PutMembers(PruneGroup(db, g, users), GroupKeys(g, users), now);
            && SameButMembers(db, db')
            && (forall m: MemberKey | m.group != g :: SameMember(db, db', m))
            && (forall m: MemberKey | m.group == g :: m in db'.members <==> m.user in users)
            && (forall m | m in db'.members && m.group == g && m in db.members ::
                  db'.members[m] == db.members[m].(updatedAt := now))
            && (forall m | m in db'.members && m.group == g && m !in db.members ::
                  db'.members[m] == MemberRow("default", 0, now, now))
  {
    var pruned := PruneGroup(db, g, users);
    PruneGroupRows(db, g, users);
    PutMembersRows(pruned, GroupKeys(g, users), now);
    forall m: MemberKey ensures m in GroupKeys(g, users) <==> m.group == g && m.user in users {
      assert m == MemberKey(m.group, m.user);
    }
  }

  /** AddUsersToGroup: the users join, everyone else stays. */
  lemma GroupRowsAdded(db: Db, g: GroupId, users: set<string>, now: int)
    ensures var db' := PutMembers(db, GroupKeys(g, users), now);
            && SameButMembers(db, db')
            && (forall m: MemberKey | m.group != g || m.user !in users :: SameMember(db, db', m))
            && (forall m: MemberKey | m.group == g && m.user in users ::
                  && m in db'.members
                  && db'.members[m] == if m in db.members then db.members[m].(updatedAt := now)
                                       else MemberRow("default", 0, now, now))
  {
    PutMembersRows(db, GroupKeys(g, users), now);
    forall m: MemberKey ensures m in GroupKeys(g, users) <==> m.group == g && m.user in users {
      assert m == MemberKey(m.group, m.user);
    }
  }
}
