/**
 The three tables of the initial migration, their constraints as an invariant,
 and the SQL statements of the storage layer as functions on table contents.
 */
module Schema {
  import opened Base64
  import opened Collections

  const DEFAULT_TENANT := "default"
  const ROLE_MEMBER := 0

  /** The text of a uuid: never empty, in canonical form. */
  type GroupId = g: GoString | g != "" witness "0"

  datatype GroupKey = GroupKey(id: GroupId, tenant: string)
  datatype GroupRow = GroupRow(name: string, description: string, kind: int, createdAt: int, updatedAt: int)

  datatype MemberKey = MemberKey(group: GroupId, user: string)
  datatype MemberRow = MemberRow(tenant: string, role: int, createdAt: int, updatedAt: int)

  datatype GrantKey = GrantKey(group: GroupId, app: string)
  datatype GrantRow = GrantRow(tenant: string, createdAt: int, updatedAt: int)

  /** Table contents; used remembers every group id ever generated. */
  datatype Db = Db(
    groups: map<GroupKey, GroupRow>,
    members: map<MemberKey, MemberRow>,
    grants: map<GrantKey, GrantRow>,
    used: set<GroupId>
  )

  datatype Error = NotFound | DuplicateKey | ForeignKeyViolation | InvalidArgument | Internal
  datatype Result<+T> = Ok(value: T) | Err(error: Error)

  // ---- constraints ----------------------------------------------------------------

  /** idx_groups_name: unique (tenant_id, name). */
  ghost predicate UniqueNames(db: Db) {
    forall k, l | k in db.groups && l in db.groups && k.tenant == l.tenant && db.groups[k].name == db.groups[l].name
      :: k == l
  }

  /** Ids come from uuid.NewV7, so no two groups share one, not even across tenants. */
  ghost predicate UniqueIds(db: Db) {
    && (forall k, l | k in db.groups && l in db.groups && k.id == l.id :: k == l)
    && (forall k | k in db.groups :: k.id in db.used)
  }

  ghost predicate ForeignKeys(db: Db) {
    && (forall m | m in db.members :: GroupKey(m.group, db.members[m].tenant) in db.groups)
    && (forall a | a in db.grants :: GroupKey(a.group, db.grants[a].tenant) in db.groups)
  }

  ghost predicate Valid(db: Db) {
    UniqueNames(db) && UniqueIds(db) && ForeignKeys(db)
  }

  predicate IsLive(db: Db, g: GroupId) {
    exists k | k in db.groups :: k.id == g
  }

  // ---- statements -------------------------------------------------------------------

  predicate NameTaken(db: Db, tenant: string, name: string) {
    exists k | k in db.groups :: k.tenant == tenant && db.groups[k].name == name
  }

  /** INSERT INTO groups: refused by the primary key or the unique index. */
  function InsertGroup(db: Db, id: GroupId, tenant: string, row: GroupRow): Result<Db> {
    if GroupKey(id, tenant) in db.groups || NameTaken(db, tenant, row.name) then Err(DuplicateKey)
    else Ok(db.(groups := db.groups[GroupKey(id, tenant) := row], used := db.used + {id}))
  }

  /** UPDATE groups ... WHERE id = ?: rewrites the mutable columns of every row with that id. */
  function UpdateGroup(db: Db, id: GroupId, name: string, description: string, kind: int, now: int): Result<Db> {
    if !IsLive(db, id) then Err(NotFound)
    else if exists k, l | k in db.groups && l in db.groups ::
           k.id == id && l.id != id && k.tenant == l.tenant && db.groups[l].name == name
    then Err(Internal)
    else Ok(db.(groups := map k | k in db.groups ::
                  if k.id == id
                  then db.groups[k].(name := name, description := description, kind := kind, updatedAt := now)
                  else db.groups[k]))
  }

  /** DELETE FROM groups WHERE id = ?, with the two ON DELETE CASCADE foreign keys. */
  function DeleteGroup(db: Db, id: GroupId): Db {
    db.(groups := map k | k in db.groups && k.id != id :: db.groups[k],
        members := map m | m in db.members && !(m.group == id && GroupKey(id, db.members[m].tenant) in db.groups)
                     :: db.members[m],
        grants := map a | a in db.grants && !(a.group == id && GroupKey(id, db.grants[a].tenant) in db.groups)
                     :: db.grants[a])
  }

  function Upserted(db: Db, m: MemberKey, now: int): MemberRow {
    if m in db.members then db.members[m].(updatedAt := now)
    else MemberRow(DEFAULT_TENANT, ROLE_MEMBER, now, now)
  }

  function PutMembers(db: Db, rows: set<MemberKey>, now: int): Db {
    db.(members := db.members + map m | m in rows :: Upserted(db, m, now))
  }

  /**
   INSERT INTO group_members ... ON CONFLICT (group_id, user_id) DO UPDATE SET
   updated_at. Fails as a whole when a row is named twice or when a new row
   refers to a group that does not exist in the default tenant.
   */
  function UpsertMembers(db: Db, rows: seq<MemberKey>, now: int): Result<Db> {
    if !Distinct(rows) then Err(Internal)
    else if exists i | 0 <= i < |rows| ::
              rows[i] !in db.members && GroupKey(rows[i].group, DEFAULT_TENANT) !in db.groups
    then Err(ForeignKeyViolation)
    else Ok(PutMembers(db, (set m | m in rows), now))
  }

  /** DELETE FROM group_members WHERE group_id = ? AND user_id NOT IN (...). */
  function PruneGroup(db: Db, g: GroupId, keep: set<string>): Db {
    db.(members := map m | m in db.members && (m.group != g || m.user in keep) :: db.members[m])
  }

  /** DELETE FROM group_members WHERE user_id = ? AND group_id NOT IN (...). */
  function PruneUser(db: Db, u: string, keep: set<GroupId>): Db {
    db.(members := map m | m in db.members && (m.user != u || m.group in keep) :: db.members[m])
  }

  /** DELETE FROM group_members WHERE group_id = ? AND user_id IN (...). */
  function RemoveUsers(db: Db, g: GroupId, users: set<string>): Db {
    db.(members := map m | m in db.members && !(m.group == g && m.user in users) :: db.members[m])
  }

  function InsertGrant(db: Db, a: GrantKey, now: int): Result<Db> {
    if a in db.grants then Err(DuplicateKey)
    else if GroupKey(a.group, DEFAULT_TENANT) !in db.groups then Err(ForeignKeyViolation)
    else Ok(db.(grants := db.grants[a := GrantRow(DEFAULT_TENANT, now, now)]))
  }

  /** DELETE FROM application_groups for the listed keys. */
  function DeleteGrants(db: Db, gone: set<GrantKey>): Db {
    db.(grants := map a | a in db.grants && a !in gone :: db.grants[a])
  }

  /** The keys selected by WHERE group_id = ? and by WHERE application_id = ?. */
  function GrantsOfGroup(db: Db, g: GroupId): set<GrantKey> {
    set a | a in db.grants && a.group == g
  }

  function GrantsOfApp(db: Db, app: string): set<GrantKey> {
    set a | a in db.grants && a.app == app
  }

  /** The group_members keys of one group, and of one user. */
  function GroupKeys(g: GroupId, users: set<string>): set<MemberKey> {
    set u | u in users :: MemberKey(g, u)
  }

  function UserKeys(u: string, groups: set<GroupId>): set<MemberKey> {
    set g | g in groups :: MemberKey(g, u)
  }

  // ---- statements as data -------------------------------------------------------------

  datatype Statement =
    | SInsertGroup(id: GroupId, tenant: string, row: GroupRow)
    | SUpdateGroup(id: GroupId, name: string, description: string, kind: int, now: int)
    | SDeleteGroup(id: GroupId)
    | SUpsertMembers(rows: seq<MemberKey>, now: int)
    | SPruneGroup(id: GroupId, users: set<string>)
    | SPruneUser(user: string, groups: set<GroupId>)
    | SRemoveUsers(id: GroupId, users: set<string>)
    | SInsertGrant(grant: GrantKey, now: int)
    | SDeleteGrants(grants: set<GrantKey>)
    | SRefused(stmt: Statement) // the server fails it for a reason outside the model

  function Exec(db: Db, s: Statement): Result<Db> {
    match s
    case SInsertGroup(id, tenant, row) => InsertGroup(db, id, tenant, row)
    case SUpdateGroup(id, name, description, kind, now) => UpdateGroup(db, id, name, description, kind, now)
    case SDeleteGroup(id) => Ok(DeleteGroup(db, id))
    case SUpsertMembers(rows, now) => UpsertMembers(db, rows, now)
    case SPruneGroup(id, users) => Ok(PruneGroup(db, id, users))
    case SPruneUser(user, groups) => Ok(PruneUser(db, user, groups))
    case SRemoveUsers(id, users) => Ok(RemoveUsers(db, id, users))
    case SInsertGrant(grant, now) => InsertGrant(db, grant, now)
    case SDeleteGrants(grants) => Ok(DeleteGrants(db, grants))
    case SRefused(_) => Err(Internal)
  }

  /** The statements as the server takes them: it refuses those whose number is hit by an outage. */
  function Sent(stmts: seq<Statement>, outage: nat -> bool, from: nat): (sent: seq<Statement>)
    ensures |sent| == |stmts|
  {
    seq(|stmts|, i requires 0 <= i < |stmts| => if outage(from + i) then SRefused(stmts[i]) else stmts[i])
  }

  // ---- every statement keeps the constraints ---------------------------------------------

  lemma InsertGroupKeepsValid(db: Db, id: GroupId, tenant: string, row: GroupRow)
    requires Valid(db) && id !in db.used
    ensures var r := InsertGroup(db, id, tenant, row);
            r.Ok? ==> Valid(r.value)
    ensures InsertGroup(db, id, tenant, row).Err? <==> NameTaken(db, tenant, row.name)
  {}

  lemma UpdateGroupKeepsValid(db: Db, id: GroupId, name: string, description: string, kind: int, now: int)
    requires Valid(db)
    ensures var r := UpdateGroup(db, id, name, description, kind, now);
            r.Ok? ==> Valid(r.value) && r.value.groups.Keys == db.groups.Keys
  {}

  lemma DeleteGroupKeepsValid(db: Db, id: GroupId)
    requires Valid(db)
    ensures Valid(DeleteGroup(db, id)) && !IsLive(DeleteGroup(db, id), id)
    ensures forall m | m in DeleteGroup(db, id).members :: m.group != id
    ensures forall a | a in DeleteGroup(db, id).grants :: a.group != id
  {}

  lemma UpsertMembersKeepsValid(db: Db, rows: seq<MemberKey>, now: int)
    requires Valid(db)
    ensures var r := UpsertMembers(db, rows, now);
            r.Ok? ==> Valid(r.value)
  {}

  /** Foreign keys survive the deletion of referencing rows. */
  lemma FewerRowsKeepValid(db: Db, members: map<MemberKey, MemberRow>, grants: map<GrantKey, GrantRow>)
    requires Valid(db)
    requires forall m | m in members :: m in db.members && members[m] == db.members[m]
    requires forall a | a in grants :: a in db.grants && grants[a] == db.grants[a]
    ensures Valid(db.(members := members, grants := grants))
  {}

  lemma DeletesKeepValid(db: Db, g: GroupId, u: string, users: set<string>, groups: set<GroupId>, gone: set<GrantKey>)
    requires Valid(db)
    ensures Valid(PruneGroup(db, g, users)) && Valid(PruneUser(db, u, groups))
    ensures Valid(RemoveUsers(db, g, users)) && Valid(DeleteGrants(db, gone))
  {
    FewerRowsKeepValid(db, PruneGroup(db, g, users).members, db.grants);
    FewerRowsKeepValid(db, PruneUser(db, u, groups).members, db.grants);
    FewerRowsKeepValid(db, RemoveUsers(db, g, users).members, db.grants);
    FewerRowsKeepValid(db, db.members, DeleteGrants(db, gone).grants);
  }

  lemma InsertGrantKeepsValid(db: Db, a: GrantKey, now: int)
    requires Valid(db)
    ensures var r := InsertGrant(db, a, now);
            r.Ok? ==> Valid(r.value)
  {}

  /** A failed statement changes nothing; the uuid of an inserted group is new. */
  function After(db: Db, s: Statement): Db {
    match Exec(db, s) case Ok(d) => d case Err(_) => db
  }

  /** Every statement on its own: a failed one changes nothing and stops nothing. */
  function Auto(db: Db, stmts: seq<Statement>): Db {
    if stmts == [] then db else After(Auto(db, stmts[..|stmts| - 1]), stmts[|stmts| - 1])
  }

  /** The statements of UpdateGroupsForUser: one DELETE, and one upsert unless no group is left. */
  ghost predicate SetsGroups(stmts: seq<Statement>, u: string, groups: set<GroupId>, now: int) {
    && |stmts| == (if groups == {} then 1 else 2) && stmts[0] == SPruneUser(u, groups)
    && (groups != {} ==>
          && stmts[1].SUpsertMembers? && stmts[1].now == now
          && Distinct(stmts[1].rows) && Elements(stmts[1].rows) == UserKeys(u, groups))
  }

  /** The last of several statements, sent one by one. */
  lemma SentLast(db: Db, stmts: seq<Statement>, outage: nat -> bool, from: nat)
    requires stmts != []
    ensures var n := |stmts| - 1;
            var before := Auto(db, Sent(stmts[..n], outage, from));
            Auto(db, Sent(stmts, outage, from)) == if outage(from + n) then before else After(before, stmts[n])
  {
    var n, sent := |stmts| - 1, Sent(stmts, outage, from);
    assert sent[..n] == Sent(stmts[..n], outage, from);
    assert sent[n] == if outage(from + n) then SRefused(stmts[n]) else stmts[n];
  }

  /** One or two statements, sent one by one. */
  lemma SentByTwo(db: Db, stmts: seq<Statement>, outage: nat -> bool, from: nat)
    requires 1 <= |stmts| <= 2
    ensures Auto(db, Sent(stmts[..1], outage, from)) == if outage(from) then db else After(db, stmts[0])
    ensures |stmts| == 2 && !outage(from) ==>
              Auto(db, Sent(stmts[..2], outage, from))
              == if outage(from + 1) then After(db, stmts[0]) else After(After(db, stmts[0]), stmts[1])
  {
    SentLast(db, stmts[..1], outage, from);
    assert Sent(stmts[..1][..0], outage, from) == [];
    if |stmts| == 2 {
      SentLast(db, stmts[..2], outage, from);
      assert stmts[..2][..1] == stmts[..1];
    }
  }

  ghost predicate FreshIds(db: Db, s: Statement) {
    s.SInsertGroup? ==> s.id !in db.used
  }

  lemma GroupStatementsKeepValid(db: Db, s: Statement)
    requires Valid(db) && FreshIds(db, s) && (s.SInsertGroup? || s.SUpdateGroup? || s.SDeleteGroup?)
    ensures Valid(After(db, s)) && db.used <= After(db, s).used
  {
    match s
    case SInsertGroup(id, tenant, row) => InsertGroupKeepsValid(db, id, tenant, row);
    case SUpdateGroup(id, name, description, kind, now) => UpdateGroupKeepsValid(db, id, name, description, kind, now);
    case SDeleteGroup(id) => DeleteGroupKeepsValid(db, id);
  }

  lemma RowStatementsKeepValid(db: Db, s: Statement)
    requires Valid(db) && !s.SInsertGroup? && !s.SUpdateGroup? && !s.SDeleteGroup?
    ensures Valid(After(db, s)) && db.used <= After(db, s).used
  {
    match s
    case SUpsertMembers(rows, now) => UpsertMembersKeepsValid(db, rows, now);
    case SPruneGroup(_, _) => FewerRowsKeepValid(db, After(db, s).members, db.grants);
    case SPruneUser(_, _) => FewerRowsKeepValid(db, After(db, s).members, db.grants);
    case SRemoveUsers(_, _) => FewerRowsKeepValid(db, After(db, s).members, db.grants);
    case SInsertGrant(grant, now) => InsertGrantKeepsValid(db, grant, now);
    case SDeleteGrants(_) => FewerRowsKeepValid(db, db.members, After(db, s).grants);
    case SRefused(_) =>
  }

  lemma ExecKeepsValid(db: Db, s: Statement)
    requires Valid(db) && FreshIds(db, s)
    ensures Valid(After(db, s)) && db.used <= After(db, s).used
  {
    if s.SInsertGroup? || s.SUpdateGroup? || s.SDeleteGroup? {
      GroupStatementsKeepValid(db, s);
    } else {
      RowStatementsKeepValid(db, s);
    }
  }

  const EMPTY := Db(map[], map[], map[], {})

  /** db is what some sequence of statements, failing or not, made of empty tables. */
  ghost predicate Produces(start: Db, stmts: seq<Statement>, db: Db)
    decreases |stmts|
  {
    if stmts == [] then db == start
    else FreshIds(start, stmts[0]) && Produces(After(start, stmts[0]), stmts[1..], db)
  }

  lemma {:induction false} StatementsKeepValid(start: Db, stmts: seq<Statement>, db: Db)
    requires Valid(start) && Produces(start, stmts, db)
    ensures Valid(db)
    decreases |stmts|
  {
    if stmts != [] {
      ExecKeepsValid(start, stmts[0]);
      StatementsKeepValid(After(start, stmts[0]), stmts[1..], db);
    }
  }

  // ---- tenant-scoped views -----------------------------------------------------------------

  /** The rows of groups joined with group_members ON g.id = gm.group_id, for one user. */
  function GroupsForUser(db: Db, tenant: string, user: string): set<GroupKey> {
    set k, m | k in db.groups && m in db.members && k.id == m.group && m.user == user
               && (tenant == "" || k.tenant == tenant) :: k
  }

  function UsersInGroup(db: Db, tenant: string, g: GroupId): set<string> {
    set m | m in db.members && m.group == g && (tenant == "" || db.members[m].tenant == tenant) :: m.user
  }

  /**
   The two streams are dual: u is streamed for (tenant, g) exactly when g is
   streamed for (tenant, u), although one filters on groups.tenant_id and the
   other on group_members.tenant_id.
   */
  lemma ViewsAreDual(stmts: seq<Statement>, db: Db, tenant: string, g: GroupId, u: string)
    requires Produces(EMPTY, stmts, db)
    ensures u in UsersInGroup(db, tenant, g) <==> exists k | k in GroupsForUser(db, tenant, u) :: k.id == g
  {
    StatementsKeepValid(EMPTY, stmts, db);
    if u in UsersInGroup(db, tenant, g) {
      var m := MemberKey(g, u);
      assert m in db.members;
      assert GroupKey(g, db.members[m].tenant) in GroupsForUser(db, tenant, u);
    }
    if k :| k in GroupsForUser(db, tenant, u) && k.id == g {
      assert MemberKey(g, u) in db.members;
    }
  }

  /** The join is on the id alone: the duality needs ids that are unique across tenants. */
  lemma DualityNeedsUniqueIds()
    ensures exists db: Db, tenant, g: GroupId, u ::
              UniqueNames(db) && ForeignKeys(db) && u !in UsersInGroup(db, tenant, g)
              && exists k | k in GroupsForUser(db, tenant, u) :: k.id == g
  {
    var row := GroupRow("g", "", 0, 0, 0);
    var db := Db(map[GroupKey("i", "a") := row, GroupKey("i", "b") := row],
                 map[MemberKey("i", "u") := MemberRow("a", 0, 0, 0)], map[], {"i"});
    assert MemberKey("i", "u") in db.members;
    assert GroupKey("i", "b") in GroupsForUser(db, "b", "u");
    assert "u" !in UsersInGroup(db, "b", "i");
  }
}
