/**
 Query results that reach a caller row by row: the queries behind the streams and
 the loop that scans rows and hands them to a callback.
 */
module Streams {
  import opened Collections
  import opened Ordering
  import opened Schema
  import opened RowByRow

  /** A row of groups joined with group_members on the id alone. */
  datatype JoinRow = JoinRow(group: GroupKey, member: MemberKey)

  /** The WHERE clause of StreamGroupsForUser; an empty tenant leaves out the tenant filter. */
  function UserRows(db: Db, tenant: string, user: string): set<JoinRow> {
    set k, m | k in db.groups && m in db.members && k.id == m.group && m.user == user
               && (tenant == "" || k.tenant == tenant) :: JoinRow(k, m)
  }

  /** The WHERE clause of GetGroupsForUser. */
  function AllUserRows(db: Db, user: string): set<JoinRow> {
    set k, m | k in db.groups && m in db.members && k.id == m.group && m.user == user :: JoinRow(k, m)
  }

  /** ORDER BY g.name and ORDER BY user_id. */
  function RowName(db: Db): JoinRow -> string {
    (r: JoinRow) => if r.group in db.groups then db.groups[r.group].name else ""
  }

  function UserId(): string -> string {
    (u: string) => u
  }

  // ---- the row loop -------------------------------------------------------------------------

  /** Rows that fail to scan, rows the callback refuses, and after how many rows the cursor breaks, if it does. */
  datatype Faults = Faults(scan: nat -> bool, refuse: nat -> bool, broken: Option<nat>)

  /** The rows that rows.Next reaches. */
  function Delivered(n: nat, f: Faults): nat {
    if f.broken.Some? && f.broken.value < n then f.broken.value else n
  }

  /**
   Hands out rows in order until one does not scan, one is refused or the cursor
   breaks, and fails exactly when one of these happens.
   */
  method Stream<T>(rows: seq<T>, f: Faults) returns (seen: seq<T>, err: bool)
    ensures seen <= rows && (f.broken.Some? ==> err && |seen| <= f.broken.value)
    ensures f.broken.None? ==> (err <==> exists i: nat | i < |rows| :: f.scan(i) || f.refuse(i))
    ensures err <==> f.broken.Some? || exists i: nat | i < Delivered(|rows|, f) :: f.scan(i) || f.refuse(i)
    ensures forall i: nat | i < |seen| :: !f.scan(i)
    ensures forall i: nat | i + 1 < |seen| :: !f.refuse(i)
    ensures if !err then seen == rows
            else |seen| == Delivered(|rows|, f) || f.scan(|seen|) || (|seen| > 0 && f.refuse(|seen| - 1))
  {
    seen := [];
    for i := 0 to Delivered(|rows|, f)
      invariant seen == rows[..i] && forall k: nat | k < i :: !f.scan(k) && !f.refuse(k)
    {
      if f.scan(i) {
        return seen, true;
      }
      seen := seen + [rows[i]];
      if f.refuse(i) {
        return seen, true;
      }
    }
    err := f.broken.Some?;
  }

  // ---- groups of a user ---------------------------------------------------------------------

  /** The primary key (group_id, user_id) keeps a group from being streamed twice. */
  lemma NoGroupTwice(db: Db, rows: seq<JoinRow>, tenant: string, user: string, leq: Collation)
    requires Answers(rows, UserRows(db, tenant, user), RowName(db), leq)
    ensures forall i, j | 0 <= i < j < |rows| :: rows[i].group != rows[j].group
    ensures (set r | r in rows :: r.group) == GroupsForUser(db, tenant, user)
    ensures forall k: GroupKey ::
              (exists r | r in rows :: r.group == k) <==>
              k in db.groups && MemberKey(k.id, user) in db.members && (tenant == "" || k.tenant == tenant)
    ensures forall i, j | 0 <= i <= j < |rows| ::
              && rows[i].group in db.groups && rows[j].group in db.groups
              && leq(db.groups[rows[i].group].name, db.groups[rows[j].group].name)
  {
    ViewRows(db, tenant, "0", user);
    forall k | k in GroupsForUser(db, tenant, user) ensures exists r | r in rows :: r.group == k {
      assert JoinRow(k, MemberKey(k.id, user)) in Elements(rows);
    }
    forall r | r in rows ensures r.group in GroupsForUser(db, tenant, user) {
      assert r in Elements(rows);
    }
    forall i, j | 0 <= i < j < |rows| ensures rows[i].group != rows[j].group {
      assert rows[i] in Elements(rows) && rows[j] in Elements(rows);
    }
    forall i, j | 0 <= i <= j < |rows|
      ensures && rows[i].group in db.groups && rows[j].group in db.groups
              && leq(db.groups[rows[i].group].name, db.groups[rows[j].group].name)
    {
      assert rows[i] in Elements(rows) && rows[j] in Elements(rows);
      assert leq(RowName(db)(rows[i]), RowName(db)(rows[j]));
    }
  }

  /**
   The unfiltered stream and GetGroupsForUser hand out the same groups, each once,
   and name by name in the same order; only groups of different tenants that share a
   name may trade places.
   */
  lemma UnfilteredStreamIsTheList(db: Db, user: string, streamed: seq<JoinRow>, listed: seq<JoinRow>, leq: Collation)
    requires Answers(streamed, UserRows(db, "", user), RowName(db), leq)
    requires Answers(listed, AllUserRows(db, user), RowName(db), leq)
    ensures Elements(streamed) == Elements(listed) && |streamed| == |listed|
    ensures forall i | 0 <= i < |streamed| :: RowName(db)(streamed[i]) == RowName(db)(listed[i])
  {
    assert UserRows(db, "", user) == AllUserRows(db, user);
    AnswersAgree(streamed, listed, AllUserRows(db, user), RowName(db), leq);
  }

  /** Within one tenant names are unique, so the stream is the same sequence of groups every time. */
  lemma TenantStreamIsDetermined(db: Db, tenant: string, user: string, a: seq<JoinRow>, b: seq<JoinRow>, leq: Collation)
    requires UniqueNames(db) && tenant != ""
    requires Answers(a, UserRows(db, tenant, user), RowName(db), leq)
    requires Answers(b, UserRows(db, tenant, user), RowName(db), leq)
    ensures a == b
  {
    AnswerIsUnique(a, b, UserRows(db, tenant, user), RowName(db), leq);
  }

  // ---- users of a group ---------------------------------------------------------------------

  /** The stream of users is determined by the tables and the collation. */
  lemma UserStreamIsDetermined(db: Db, tenant: string, g: GroupId, a: seq<string>, b: seq<string>, leq: Collation)
    requires Answers(a, UsersInGroup(db, tenant, g), UserId(), leq)
    requires Answers(b, UsersInGroup(db, tenant, g), UserId(), leq)
    ensures a == b
    ensures forall u :: u in a <==>
              MemberKey(g, u) in db.members && (tenant == "" || db.members[MemberKey(g, u)].tenant == tenant)
    ensures forall i, j | 0 <= i <= j < |a| :: leq(a[i], a[j])
  {
    AnswerIsUnique(a, b, UsersInGroup(db, tenant, g), UserId(), leq);
    forall u ensures u in a <==>
              MemberKey(g, u) in db.members && (tenant == "" || db.members[MemberKey(g, u)].tenant == tenant)
    {
      ViewRows(db, tenant, g, u);
      assert u in a <==> u in Elements(a);
    }
    forall i, j | 0 <= i <= j < |a| ensures leq(a[i], a[j]) {
      assert leq(UserId()(a[i]), UserId()(a[j]));
    }
  }

  /**
   The two streams are dual: over tables made by any statements, u is streamed for
   (tenant, g) exactly when g is streamed for (tenant, u).
   */
  lemma StreamsAreDual(stmts: seq<Statement>, db: Db, tenant: string, g: GroupId, u: string,
                       users: seq<string>, groups: seq<JoinRow>, leq: Collation)
    requires Produces(EMPTY, stmts, db)
    requires Answers(users, UsersInGroup(db, tenant, g), UserId(), leq)
    requires Answers(groups, UserRows(db, tenant, u), RowName(db), leq)
    ensures u in users <==> exists r | r in groups :: r.group.id == g
  {
    ViewsAreDual(stmts, db, tenant, g, u);
    NoGroupTwice(db, groups, tenant, u, leq);
    assert u in users <==> u in Elements(users);
    forall k | k in GroupsForUser(db, tenant, u) ensures exists r | r in groups :: r.group == k {
      assert k in set r | r in groups :: r.group;
    }
    forall r | r in groups ensures r.group in GroupsForUser(db, tenant, u) {
      assert r.group in set r | r in groups :: r.group;
    }
  }
}
