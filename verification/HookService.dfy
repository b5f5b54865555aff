/**
 The two sequential parts of the token hook: collecting the user's groups from
 every client, and asking the authorizer.
 */
module HookService {
  import opened Collections
  import opened Base64
  import opened HookTypes
  import opened OpenFga
  import opened Authorizer

  const CLIENT_CREDENTIALS := "client_credentials"
  const JWT_BEARER := "urn:ietf:params:oauth:grant-type:jwt-bearer"

  /** What the login left in the session; no e-mail claim is None. */
  datatype Login = Login(subject: string, email: Option<string>)

  datatype HookRequest = HookRequest(client: string, grantTypes: seq<string>, audience: seq<string>,
                                     login: Option<Login>)

  datatype User = User(subject: string, client: string, email: string)

  /** Exactly one grant type, and one of the two for machines. */
  predicate IsServiceAccount(grantTypes: seq<string>) {
    grantTypes == [CLIENT_CREDENTIALS] || grantTypes == [JWT_BEARER]
  }

  function NewUser(req: HookRequest): User {
    if IsServiceAccount(req.grantTypes) then User("", req.client, "")
    else if req.login.None? then User("", "", "")
    else User(req.login.value.subject, "", if req.login.value.email.Some? then req.login.value.email.value else "")
  }

  /** The subject of the OpenFGA check. */
  function GetUserId(u: User): string {
    if u.subject != "" then u.subject else u.client
  }

  /** The id under which the local client looks up memberships; "" stands for nobody. */
  function LookupId(u: User): string {
    if u.client != "" then u.client else u.email
  }

  /**
   Who a request is about. A single machine grant type makes it the client; anyone else
   is looked up by the e-mail claim of the login, and checked under its subject.
   */
  lemma IdentityExactly(req: HookRequest)
    ensures req.grantTypes == ["client_credentials"]
            || req.grantTypes == ["urn:ietf:params:oauth:grant-type:jwt-bearer"] ==>
              LookupId(NewUser(req)) == req.client && GetUserId(NewUser(req)) == req.client
    ensures req.grantTypes != ["client_credentials"]
            && req.grantTypes != ["urn:ietf:params:oauth:grant-type:jwt-bearer"] ==>
              match req.login
              case None => LookupId(NewUser(req)) == "" && GetUserId(NewUser(req)) == ""
              case Some(Login(subject, email)) =>
                && LookupId(NewUser(req)) == (if email.Some? then email.value else "")
                && GetUserId(NewUser(req)) == subject
  {}

  // ---- groups --------------------------------------------------------------------------------

  type GroupsClient = User -> Fetch

  function Concat(clients: seq<GroupsClient>, u: User): (groups: seq<Group>)
    requires forall i | 0 <= i < |clients| :: clients[i](u).Fetched?
  {
    if clients == [] then []
    else Concat(clients[..|clients| - 1], u) + clients[|clients| - 1](u).groups
  }

  /** What FetchUserGroups makes of the clients' answers: all groups in order, or nothing if one of them fails. */
  ghost predicate FetchedBy(clients: seq<GroupsClient>, u: User, r: Fetch) {
    && (r.Fetched? <==> forall i | 0 <= i < |clients| :: clients[i](u).Fetched?)
    && (r.Fetched? ==> r.groups == Concat(clients, u))
  }

  method FetchUserGroups(clients: seq<GroupsClient>, u: User) returns (r: Fetch)
    ensures FetchedBy(clients, u, r)
  {
    var ret: seq<Group> := [];
    for i := 0 to |clients|
      invariant forall k | 0 <= k < i :: clients[k](u).Fetched?
      invariant ret == Concat(clients[..i], u)
    {
      var fetched := clients[i](u);
      if fetched.FetchFailed? {
        return FetchFailed;
      }
      assert clients[..i + 1][..i] == clients[..i];
      ret := ret + fetched.groups;
    }
    assert clients[..|clients|] == clients;
    return Fetched(ret);
  }

  /** The groups of a further client come after those of the others. */
  lemma ConcatInOrder(clients: seq<GroupsClient>, c: GroupsClient, u: User)
    requires (forall i | 0 <= i < |clients| :: clients[i](u).Fetched?) && c(u).Fetched?
    ensures Concat([], u) == [] && Concat(clients + [c], u) == Concat(clients, u) + c(u).groups
  {
    assert (clients + [c])[..|clients|] == clients;
  }

  /** A group is returned exactly when some client returned it. */
  lemma {:induction false} ConcatIsUnion(clients: seq<GroupsClient>, u: User, g: Group)
    requires forall i | 0 <= i < |clients| :: clients[i](u).Fetched?
    ensures g in Concat(clients, u) <==> exists i | 0 <= i < |clients| :: g in clients[i](u).groups
  {
    if clients != [] {
      var n := |clients| - 1;
      ConcatIsUnion(clients[..n], u, g);
      if i :| 0 <= i < |clients[..n]| && g in clients[..n][i](u).groups {
        assert g in clients[i](u).groups;
      }
      if i :| 0 <= i < |clients| && g in clients[i](u).groups && i < n {
        assert g in clients[..n][i](u).groups;
      }
    }
  }

  // ---- authorization ---------------------------------------------------------------------------

  function Ids(groups: seq<Group>): set<GoString> {
    set g | g in groups :: g.id
  }

  /**
   The decision in terms of stored grants. A denied batch comes back as an error, and
   a service account that asks for no audience is let through.
   */
  function Authorization(store: set<Tuple>, req: HookRequest, groups: set<GoString>, up: bool): Decision {
    if !IsServiceAccount(req.grantTypes) then
      if !up then CheckFailed else if Granted(store, groups, req.client) then Allowed else Denied
    else if req.audience == [] then Allowed
    else if up && GrantedAll(store, groups, req.audience) then Allowed else CheckFailed
  }

  function DecisionOf(r: Option<bool>): Decision {
    if r.None? then CheckFailed else if r.value then Allowed else Denied
  }

  /** AuthorizeRequest; up says whether the tuple store answers. */
  method AuthorizeRequest(authz: TupleStore, req: HookRequest, groups: seq<Group>, up: bool) returns (d: Decision)
    requires authz.Valid() && authz.Faithful()
    ensures d == Authorization(authz.rows.Keys, req, Ids(groups), up)
    ensures req.grantTypes != ["client_credentials"]
            && req.grantTypes != ["urn:ietf:params:oauth:grant-type:jwt-bearer"] ==>
              && (d == Allowed <==> up && exists g | g in groups :: Grant(g.id, req.client) in authz.rows)
              && (d == Denied <==> up && forall g | g in groups :: Grant(g.id, req.client) !in authz.rows)
    ensures req.grantTypes == ["client_credentials"]
            || req.grantTypes == ["urn:ietf:params:oauth:grant-type:jwt-bearer"] ==>
              && d != Denied
              && (d == Allowed <==>
                  || req.audience == []
                  || (up && forall app | app in req.audience ::
                        exists g | g in groups :: Grant(g.id, app) in authz.rows))
  {
    var groupIds: seq<GoString> := [];
    for i := 0 to |groups|
      invariant Elements(groupIds) == Ids(groups[..i])
    {
      assert Elements(groupIds + [groups[i].id]) == Elements(groupIds) + {groups[i].id};
      groupIds := groupIds + [groups[i].id];
      assert groups[..i + 1] == groups[..i] + [groups[i]];
    }
    assert groups[..|groups|] == groups;
    var user := GetUserId(NewUser(req));
    if !IsServiceAccount(req.grantTypes) {
      var r := authz.CanAccess(user, req.client, groupIds, up);
      d := DecisionOf(r);
    } else if |req.audience| > 0 {
      var r := authz.BatchCanAccess(user, req.audience, groupIds, up);
      d := DecisionOf(r);
    } else {
      d := Allowed;
    }
    AuthorizationExactly(authz.rows.Keys, req, groups, up);
  }

  /** The two cases of the decision, written out. */
  lemma AuthorizationExactly(store: set<Tuple>, req: HookRequest, groups: seq<Group>, up: bool)
    ensures var d := Authorization(store, req, Ids(groups), up);
            if req.grantTypes != ["client_credentials"]
                && req.grantTypes != ["urn:ietf:params:oauth:grant-type:jwt-bearer"] then
              && (d == Allowed <==> up && exists g | g in groups :: Grant(g.id, req.client) in store)
              && (d == Denied <==> up && forall g | g in groups :: Grant(g.id, req.client) !in store)
            else
              && d != Denied
              && (d == Allowed <==>
                  || req.audience == []
                  || (up && forall app | app in req.audience :: exists g | g in groups :: Grant(g.id, app) in store))
  {
    GrantedAllMeansEach(store, Ids(groups), req.audience);
    forall app ensures Granted(store, Ids(groups), app) <==> exists g | g in groups :: Grant(g.id, app) in store {
      if g :| g in groups && Grant(g.id, app) in store {
        assert g.id in Ids(groups);
      }
    }
  }
}
