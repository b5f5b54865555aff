/** The groups client that reads the user's groups from the tables. */
module LocalClient {
  import opened Collections
  import opened Ordering
  import opened Schema
  import opened Streams
  import opened HookTypes
  import opened HookService
  import opened Decisions

  /** Nobody has no groups; anyone else has those of GetGroupsForUser, unless the query fails. */
  ghost predicate AnswersFrom(db: Db, u: User, f: Fetch) {
    if LookupId(u) == "" then f == Fetched([])
    else f.Fetched? ==> Ids(f.groups) == GroupIdsFor(db, LookupId(u))
  }

  /** FetchUserGroups over the rows that GetGroupsForUser received: any failure of the row loop loses them all. */
  method FetchUserGroups(db: Db, u: User, rows: seq<JoinRow>, faults: Faults, leq: Collation) returns (f: Fetch)
    requires Answers(rows, AllUserRows(db, LookupId(u)), RowName(db), leq)
    ensures AnswersFrom(db, u, f)
    ensures LookupId(u) != "" ==> (f.Fetched? <==> faults.broken.None? && forall i: nat | i < |rows| :: !faults.scan(i))
    ensures LookupId(u) != "" && f.Fetched? ==>
              |f.groups| == |rows| && forall i | 0 <= i < |rows| ::
                && rows[i].group in db.groups
                && f.groups[i] == Group(rows[i].group.id, db.groups[rows[i].group].name)
    ensures LookupId(u) != "" && f.Fetched? ==>
              forall k: GroupKey | k in db.groups && MemberKey(k.id, LookupId(u)) in db.members ::
                Group(k.id, db.groups[k].name) in f.groups
  {
    if LookupId(u) == "" {
      return Fetched([]);
    }
    var seen, err := Stream(rows, faults.(refuse := (_: nat) => false));
    if err {
      return FetchFailed;
    }
    var groups: seq<Group> := [];
    for i := 0 to |seen|
      invariant |groups| == i
      invariant forall k | 0 <= k < i :: groups[k] == Group(seen[k].group.id, RowName(db)(seen[k]))
    {
      groups := groups + [Group(seen[i].group.id, RowName(db)(seen[i]))];
    }
    IdsOfRows(db, LookupId(u), rows, groups, leq);
    GroupsOfRows(db, LookupId(u), rows, groups, leq);
    return Fetched(groups);
  }

  /** The fetched groups are those the user is a member of, under their names. */
  lemma GroupsOfRows(db: Db, user: string, rows: seq<JoinRow>, groups: seq<Group>, leq: Collation)
    requires Answers(rows, AllUserRows(db, user), RowName(db), leq) && |groups| == |rows|
    requires forall i | 0 <= i < |rows| :: groups[i] == Group(rows[i].group.id, RowName(db)(rows[i]))
    ensures forall i | 0 <= i < |rows| ::
              rows[i].group in db.groups && groups[i] == Group(rows[i].group.id, db.groups[rows[i].group].name)
    ensures forall k: GroupKey | k in db.groups && MemberKey(k.id, user) in db.members ::
              Group(k.id, db.groups[k].name) in groups
  {
    forall i | 0 <= i < |rows|
      ensures rows[i].group in db.groups && groups[i] == Group(rows[i].group.id, db.groups[rows[i].group].name)
    {
      assert rows[i] in Elements(rows);
    }
    forall k: GroupKey | k in db.groups && MemberKey(k.id, user) in db.members
      ensures Group(k.id, db.groups[k].name) in groups
    {
      assert JoinRow(k, MemberKey(k.id, user)) in Elements(rows);
      var i :| 0 <= i < |rows| && rows[i] == JoinRow(k, MemberKey(k.id, user));
      assert groups[i] in groups;
    }
  }

  lemma IdsOfRows(db: Db, user: string, rows: seq<JoinRow>, groups: seq<Group>, leq: Collation)
    requires Answers(rows, AllUserRows(db, user), RowName(db), leq) && |groups| == |rows|
    requires forall i | 0 <= i < |rows| :: groups[i].id == rows[i].group.id
    ensures Ids(groups) == GroupIdsFor(db, user)
  {
    assert UserRows(db, "", user) == AllUserRows(db, user);
    NoGroupTwice(db, rows, "", user, leq);
    forall id | id in GroupIdsFor(db, user) ensures id in Ids(groups) {
      var k :| k in GroupsForUser(db, "", user) && k.id == id;
      assert k in set r | r in rows :: r.group;
      var i :| 0 <= i < |rows| && rows[i].group == k;
      assert groups[i] in groups;
    }
    forall g | g in groups ensures g.id in GroupIdsFor(db, user) {
      var i :| 0 <= i < |groups| && groups[i] == g;
      assert rows[i].group in set r | r in rows :: r.group;
    }
  }
}
