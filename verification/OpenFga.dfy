/**
 Object names, relationship tuples, and the meaning the authorization model
 gives to a check over a set of tuples.
 */
module OpenFga {
  import opened Base64

  const CAN_ACCESS := "can_access"
  const MEMBER := "member"

  datatype Tuple = Tuple(user: string, relation: string, resource: string)

  // ---- names -------------------------------------------------------------------------

  function UserTuple(userId: string): string {
    "user:" + userId
  }

  function ClientTuple(clientId: string): string {
    "client:" + clientId
  }

  function GroupTuple(groupId: GoString): string {
    "group:" + Encode(Bytes(groupId))
  }

  /** The userset of the members of a resource. */
  function Userset(resource: string): string {
    resource + "#" + MEMBER
  }

  function GroupMemberTuple(groupId: GoString): string {
    Userset(GroupTuple(groupId))
  }

  /** The tuple that lets the members of a group use an application. */
  function Grant(g: GoString, app: string): Tuple {
    Tuple(GroupMemberTuple(g), CAN_ACCESS, ClientTuple(app))
  }

  lemma PrefixCancels(p: string, a: string, b: string)
    requires p + a == p + b
    ensures a == b
  {
    assert a == (p + a)[|p|..];
    assert b == (p + b)[|p|..];
  }

  lemma UsersetInjective(a: string, b: string)
    requires Userset(a) == Userset(b)
    ensures a == b
  {
    assert |a| == |b|;
    assert a == Userset(a)[..|a|];
    assert b == Userset(b)[..|b|];
  }

  /** Group names are unambiguous, as objects and as usersets. */
  lemma GroupNamesInjective(g: GoString, h: GoString)
    requires GroupTuple(g) == GroupTuple(h) || GroupMemberTuple(g) == GroupMemberTuple(h)
    ensures g == h
  {
    if GroupMemberTuple(g) == GroupMemberTuple(h) {
      UsersetInjective(GroupTuple(g), GroupTuple(h));
    }
    PrefixCancels("group:", Encode(Bytes(g)), Encode(Bytes(h)));
    Injective(Bytes(g), Bytes(h));
    BytesInjective(g, h);
  }

  /** The id part of a group name contains none of OpenFGA's separators. */
  lemma GroupNamesAreClean(g: GoString, c: char)
    requires c in GroupTuple(g)[|"group:"|..]
    ensures c != '#' && c != ':' && c != ' '
  {
    Alphabet(Bytes(g));
    assert GroupTuple(g)[|"group:"|..] == Encode(Bytes(g));
  }

  lemma GrantInjective(g: GoString, a: string, h: GoString, b: string)
    requires Grant(g, a) == Grant(h, b)
    ensures g == h && a == b
  {
    GroupNamesInjective(g, h);
    PrefixCancels("client:", a, b);
  }

  /** What goes over the wire: group:<base64>#member can_access client:<id>, and user:<id> member group:<base64>. */
  lemma NamesOnTheWire(g: GoString, app: string, user: string, groups: set<GoString>)
    ensures Grant(g, app) == Tuple("group:" + Encode(Bytes(g)) + "#member", "can_access", "client:" + app)
    ensures UserTuple(user) == "user:" + user && ClientTuple(app) == "client:" + app
    ensures forall t :: t in Contextual(user, groups) <==>
              exists h | h in groups :: t == Tuple("user:" + user, "member", "group:" + Encode(Bytes(h)))
  {
    assert GroupMemberTuple(g) == "group:" + Encode(Bytes(g)) + "#member";
  }

  // ---- the authorization model -----------------------------------------------------------

  /** member: [user, group#member], followed through at most depth nested groups. */
  ghost predicate MemberAt(ts: set<Tuple>, subject: string, group: string, depth: nat)
    decreases depth
  {
    || Tuple(subject, MEMBER, group) in ts
    || (depth > 0 && exists inner: string ::
          Tuple(Userset(inner), MEMBER, group) in ts && MemberAt(ts, subject, inner, depth - 1))
  }

  ghost predicate IsMember(ts: set<Tuple>, subject: string, group: string) {
    exists depth: nat :: MemberAt(ts, subject, group, depth)
  }

  /** define member: [user, group#member] - directly, or through a group that is itself a member. */
  lemma MemberFollowsModel(ts: set<Tuple>, subject: string, group: string)
    ensures IsMember(ts, subject, group) <==>
            || Tuple(subject, "member", group) in ts
            || exists inner: string :: Tuple(inner + "#member", "member", group) in ts && IsMember(ts, subject, inner)
  {
    if Tuple(subject, "member", group) in ts {
      assert MemberAt(ts, subject, group, 0);
    }
    if inner: string :| Tuple(inner + "#member", "member", group) in ts && IsMember(ts, subject, inner) {
      var depth: nat :| MemberAt(ts, subject, inner, depth);
      assert Userset(inner) == inner + "#member";
      assert MemberAt(ts, subject, group, depth + 1);
    }
    if IsMember(ts, subject, group) && Tuple(subject, "member", group) !in ts {
      var depth: nat :| MemberAt(ts, subject, group, depth);
      var inner: string :| Tuple(Userset(inner), MEMBER, group) in ts && MemberAt(ts, subject, inner, depth - 1);
      assert Userset(inner) == inner + "#member" && IsMember(ts, subject, inner);
    }
  }

  /** can_access: [user, group#member] or admin from privileged. */
  ghost predicate Check(ts: set<Tuple>, subject: string, client: string) {
    || Tuple(subject, CAN_ACCESS, client) in ts
    || (exists group: string :: Tuple(Userset(group), CAN_ACCESS, client) in ts && IsMember(ts, subject, group))
    || (exists p: string :: Tuple(p, "privileged", client) in ts && Tuple(subject, "admin", p) in ts)
  }

  /** define can_access: [user, group#member] or admin from privileged. */
  lemma CheckFollowsModel(ts: set<Tuple>, subject: string, client: string)
    ensures Check(ts, subject, client) <==>
            || Tuple(subject, "can_access", client) in ts
            || (exists group: string ::
                  Tuple(group + "#member", "can_access", client) in ts && IsMember(ts, subject, group))
            || (exists p: string :: Tuple(p, "privileged", client) in ts && Tuple(subject, "admin", p) in ts)
  {
    if group: string :| Tuple(group + "#member", "can_access", client) in ts && IsMember(ts, subject, group) {
      assert Userset(group) == group + "#member";
    }
    if group: string :| Tuple(Userset(group), CAN_ACCESS, client) in ts && IsMember(ts, subject, group) {
      assert Userset(group) == group + "#member";
    }
  }

  // ---- the check made by the hook -----------------------------------------------------------

  /** Only this service writes tuples, and it only writes grants. */
  ghost predicate OnlyGrants(ts: set<Tuple>) {
    forall t | t in ts :: IsGrant(t)
  }

  ghost predicate IsGrant(t: Tuple) {
    exists g: GoString, app: string :: t == Grant(g, app)
  }

  /** The contextual tuples: the user is a member of each of these groups. */
  function Contextual(userId: string, groups: set<GoString>): set<Tuple> {
    set g | g in groups :: Tuple(UserTuple(userId), MEMBER, GroupTuple(g))
  }

  /** Membership under contextual tuples is exactly what those tuples say. */
  lemma ContextualMembership(store: set<Tuple>, userId: string, groups: set<GoString>, resource: string, depth: nat)
    requires OnlyGrants(store)
    requires MemberAt(store + Contextual(userId, groups), UserTuple(userId), resource, depth)
    ensures exists g | g in groups :: resource == GroupTuple(g)
  {
    var ts := store + Contextual(userId, groups);
    if Tuple(UserTuple(userId), MEMBER, resource) in ts {
      RelationSeparates(store, userId, groups, Tuple(UserTuple(userId), MEMBER, resource));
    } else {
      var inner: string :| Tuple(Userset(inner), MEMBER, resource) in ts
          && MemberAt(ts, UserTuple(userId), inner, depth - 1);
      RelationSeparates(store, userId, groups, Tuple(Userset(inner), MEMBER, resource));
    }
  }

  /** Grants and contextual tuples use different relations, so they never mix. */
  lemma RelationSeparates(store: set<Tuple>, userId: string, groups: set<GoString>, t: Tuple)
    requires OnlyGrants(store) && t in store + Contextual(userId, groups)
    ensures t.relation == CAN_ACCESS || t.relation == MEMBER
    ensures t.relation == CAN_ACCESS ==> t in store && IsGrant(t)
    ensures t.relation == MEMBER ==>
              t.user == UserTuple(userId) && exists g | g in groups :: t.resource == GroupTuple(g)
  {
    if t in store {
      assert IsGrant(t);
      assert CAN_ACCESS[0] != MEMBER[0];
    } else {
      assert CAN_ACCESS[0] != MEMBER[0];
      var g :| g in groups && t == Tuple(UserTuple(userId), MEMBER, GroupTuple(g));
    }
  }

  /**
   The hook's question has a relational answer: with contextual memberships the
   check allows (user, client) exactly when one of the user's groups was granted
   the client. Tuples of any other group, dead or alive, make no difference.
   */
  lemma CheckIsAJoin(store: set<Tuple>, userId: string, client: string, groups: set<GoString>)
    requires OnlyGrants(store)
    ensures Check(store + Contextual(userId, groups), UserTuple(userId), ClientTuple(client))
            <==> exists g | g in groups :: Grant(g, client) in store
  {
    var ts := store + Contextual(userId, groups);
    if Check(ts, UserTuple(userId), ClientTuple(client)) {
      CheckNeedsAGrant(store, userId, client, groups);
    }
    if g :| g in groups && Grant(g, client) in store {
      assert Tuple(UserTuple(userId), MEMBER, GroupTuple(g)) in ts;
      assert MemberAt(ts, UserTuple(userId), GroupTuple(g), 0);
      assert Tuple(Userset(GroupTuple(g)), CAN_ACCESS, ClientTuple(client)) in ts;
    }
  }

  lemma CheckNeedsAGrant(store: set<Tuple>, userId: string, client: string, groups: set<GoString>)
    requires OnlyGrants(store)
    requires Check(store + Contextual(userId, groups), UserTuple(userId), ClientTuple(client))
    ensures exists g | g in groups :: Grant(g, client) in store
  {
    var ts := store + Contextual(userId, groups);
    var direct := Tuple(UserTuple(userId), CAN_ACCESS, ClientTuple(client));
    assert direct.user[0] == 'u' && "privileged"[0] == 'p';
    if direct in ts {
      RelationSeparates(store, userId, groups, direct);
      assert false;
    } else if p: string :| Tuple(p, "privileged", ClientTuple(client)) in ts {
      RelationSeparates(store, userId, groups, Tuple(p, "privileged", ClientTuple(client)));
      assert false;
    } else {
      var group: string :| Tuple(Userset(group), CAN_ACCESS, ClientTuple(client)) in ts
          && IsMember(ts, UserTuple(userId), group);
      var t := Tuple(Userset(group), CAN_ACCESS, ClientTuple(client));
      RelationSeparates(store, userId, groups, t);
      var depth: nat :| MemberAt(ts, UserTuple(userId), group, depth);
      ContextualMembership(store, userId, groups, group, depth);
      var g :| g in groups && group == GroupTuple(g);
      assert t == Grant(g, client);
    }
  }
}
