/**
 The whole hook: every interleaving of the worker pool on top of every history of
 the two stores. A token is only issued for a grant that the database has, or has
 an explanation.
 */
module TokenIssue {
  import opened Base64
  import opened HookTypes
  import opened ForkJoin
  import opened ForkJoinTheorems
  import opened Schema
  import opened OpenFga
  import opened Authorizer
  import opened TwoStores
  import opened TwoStoreRuns
  import opened Decisions
  import opened HookService
  import opened LocalClient

  /**
   The environment of a hook request whose groups come from the local client: they are
   read in one state of the stores, and grants are checked in another.
   */
  ghost predicate Environment(input: Input, req: HookRequest, local: GroupsClient, atFetch: Db, atCheck: World,
                              up: bool) {
    && AnswersFrom(atFetch, NewUser(req), local(NewUser(req)))
    && FetchedBy([local], NewUser(req), input.fetch)
    && forall groups :: input.authorize(groups) == Authorization(atCheck.tuples, req, Ids(groups), up)
  }

  /** What the request asks access to. */
  predicate Wants(req: HookRequest, app: string) {
    if IsServiceAccount(req.grantTypes) then app in req.audience else app == req.client
  }

  /** The groups the check sees. */
  function HookGroups(db: Db, user: string): set<GoString> {
    if user == "" then {} else GroupIdsFor(db, user)
  }

  lemma FetchesLocalGroups(input: Input, req: HookRequest, local: GroupsClient, atFetch: Db, atCheck: World, up: bool)
    requires Environment(input, req, local, atFetch, atCheck, up) && input.fetch.Fetched?
    ensures Ids(input.fetch.groups) == HookGroups(atFetch, LookupId(NewUser(req)))
  {
    assert [local][0] == local && [local][..0] == [];
    assert Concat([local], NewUser(req)) == local(NewUser(req)).groups;
  }

  /** Every request has such an environment, whatever the stores hold. */
  lemma EnvironmentsExist(req: HookRequest, atFetch: Db, atCheck: World, up: bool, tenant: string, v: Validation,
                          groups: seq<Group>)
    requires Ids(groups) == HookGroups(atFetch, LookupId(NewUser(req))) && (LookupId(NewUser(req)) == "" ==>
            groups == [])
    ensures var local: GroupsClient := _ => Fetched(groups);
            var authorize := gs => Authorization(atCheck.tuples, req, Ids(gs), up);
            Environment(Input(tenant, Fetched(groups), authorize, v), req, local, atFetch, atCheck, up)
  {
    var local: GroupsClient := _ => Fetched(groups);
    assert [local][..0] == [] && Concat([local], NewUser(req)) == groups;
  }

  // ---- no token without a grant -------------------------------------------------------------

  /** The grant has its row at the time of the check, or the group was deleted since groups were read. */
  predicate HasGrant(atCheck: Db, g: GroupId, app: string) {
    GrantKey(g, app) in atCheck.grants || !IsLive(atCheck, g)
  }

  /** Some group the user was in when groups were read has the grant, or an event explains that it does not. */
  ghost predicate Entitled(atFetch: Db, ws: seq<World>, es: seq<Event>, j: nat, atCheck: World,
                           user: string, app: string)
    requires Sees(ws, es, j, atCheck)
  {
    exists g: GroupId ::
      && MemberKey(g, user) in atFetch.members
      && (HasGrant(atCheck.db, g, app) || Explained(ws, es, j, atCheck, GrantKey(g, app)))
  }

  lemma GrantedIsEntitled(ws: seq<World>, es: seq<Event>, i: nat, j: nat, atFetch: World, atCheck: World,
                          user: string, app: string)
    requires IsRun(ws, es) && Sees(ws, es, i, atFetch) && Sees(ws, es, j, atCheck)
    requires Granted(atCheck.tuples, HookGroups(atFetch.db, user), app)
    ensures Entitled(atFetch.db, ws, es, j, atCheck, user, app)
  {
    var g :| g in HookGroups(atFetch.db, user) && Grant(g, app) in atCheck.tuples;
    SeenIsValid(ws, es, i, atFetch);
    GroupIdsAreMemberships(atFetch.db, user, g);
    assert TupleOf(GrantKey(g, app)) in atCheck.tuples;
    if Stray(atCheck, GrantKey(g, app)) {
      SeenStrayIsExplained(ws, es, j, atCheck, GrantKey(g, app));
    }
  }

  /**
   Whatever the schedule, the shutdowns, the panics, the full queues, the failures of
   either store, of begins and of commits, and even if the hook falls into the middle
   of other requests: for every application a successful hook asks for, a group the
   user belonged to has it in application_groups, unless the group was deleted since,
   an earlier untidy event stranded its tuple, or the check fell into an addition of
   that very grant or a removal of it outside a transaction.
   */
  lemma EveryTokenIsExplained(workers: nat, steps: seq<Step>, s: State, r: nat, ws: seq<World>, es: seq<Event>,
                              i: nat, j: nat, atFetch: World, atCheck: World,
                              req: HookRequest, local: GroupsClient, up: bool, app: string)
    requires Run(Init(workers), steps, s) && r < |s.reqs| && s.reqs[r].pc.Returned? && s.reqs[r].pc.out.Success?
    requires IsRun(ws, es) && Sees(ws, es, i, atFetch) && Sees(ws, es, j, atCheck)
    requires Environment(s.reqs[r].input, req, local, atFetch.db, atCheck, up) && Wants(req, app)
    ensures Entitled(atFetch.db, ws, es, j, atCheck, LookupId(NewUser(req)), app)
  {
    SuccessExactly(workers, steps, s, r);
    var input := s.reqs[r].input;
    FetchesLocalGroups(input, req, local, atFetch.db, atCheck, up);
    AllowedMeansGranted(atCheck.tuples, req, Ids(input.fetch.groups), up);
    GrantedIsEntitled(ws, es, i, j, atFetch, atCheck, LookupId(NewUser(req)), app);
  }

  /** Some group the user was in has the grant, or the check fell into a request that shows it too early or too late. */
  ghost predicate Backed(atFetch: Db, ws: seq<World>, es: seq<Event>, j: nat, atCheck: World,
                         user: string, app: string)
    requires Sees(ws, es, j, atCheck)
  {
    exists g: GroupId ::
      && MemberKey(g, user) in atFetch.members
      && (HasGrant(atCheck.db, g, app) || (atCheck != ws[j] && InFlight(es[j], GrantKey(g, app))))
  }

  /**
   No token without a grant: as long as every earlier event was tidy, nobody is let in
   without a row, whenever groups are read and grants are checked; the only exceptions
   are checks in the middle of an addition of that very grant, or of its removal outside
   a transaction.
   */
  lemma NoTokenWithoutGrant(workers: nat, steps: seq<Step>, s: State, r: nat, ws: seq<World>, es: seq<Event>,
                            i: nat, j: nat, atFetch: World, atCheck: World,
                            req: HookRequest, local: GroupsClient, up: bool, app: string)
    requires Run(Init(workers), steps, s) && r < |s.reqs| && s.reqs[r].pc.Returned? && s.reqs[r].pc.out.Success?
    requires IsRun(ws, es) && Sees(ws, es, i, atFetch) && Sees(ws, es, j, atCheck)
    requires forall k | 0 <= k < j :: Tidy(es[k])
    requires Environment(s.reqs[r].input, req, local, atFetch.db, atCheck, up) && Wants(req, app)
    ensures Backed(atFetch.db, ws, es, j, atCheck, LookupId(NewUser(req)), app)
  {
    EveryTokenIsExplained(workers, steps, s, r, ws, es, i, j, atFetch, atCheck, req, local, up, app);
  }

  lemma AllowedMeansGranted(store: set<Tuple>, req: HookRequest, groups: set<GoString>, up: bool)
    ensures Authorization(store, req, groups, up).Allowed? ==>
            forall app | Wants(req, app) :: Granted(store, groups, app)
    ensures up ==>
              (Authorization(store, req, groups, up).Allowed? <==>
               forall app | Wants(req, app) :: Granted(store, groups, app))
  {
    GrantedAllMeansEach(store, groups, req.audience);
    if !IsServiceAccount(req.grantTypes) {
      assert Wants(req, req.client);
    }
    forall app | IsServiceAccount(req.grantTypes) && app in req.audience ensures Wants(req, app) {}
  }

  // ---- the converse -------------------------------------------------------------------------

  lemma GrantedIsPermitted(ws: seq<World>, es: seq<Event>, i: nat, user: string, app: string)
    requires IsRun(ws, es) && i < |ws| && Clean(es)
    ensures Granted(ws[i].tuples, HookGroups(ws[i].db, user), app) <==> user != "" && Permitted(ws[i].db, user, app)
  {
    if user != "" {
      RunsKeepBase(ws, es, i);
      CheckIsAJoin(ws[i].tuples, user, app, GroupIdsFor(ws[i].db, user));
      CleanDecision(ws, es, i, user, user, app);
    }
  }

  /**
   When neither the pool nor a store gets in the way: a request with a single machine
   grant type gets its token exactly when the client's own groups have every application
   of its audience, and any other request exactly when the login has an e-mail address
   whose groups have the client; and in both cases the tenant, if there is one, has the
   user as a member.
   */
  lemma TokenExactlyWhenPermitted(workers: nat, steps: seq<Step>, s: State, r: nat,
                                  ws: seq<World>, es: seq<Event>, i: nat, req: HookRequest, local: GroupsClient)
    requires Run(Init(workers), steps, s) && r < |s.reqs| && s.reqs[r].pc.Returned? && Undisturbed(s, s.reqs[r])
    requires IsRun(ws, es) && i < |ws| && Clean(es)
    requires Environment(s.reqs[r].input, req, local, ws[i].db, ws[i], true) && s.reqs[r].input.fetch.Fetched?
    ensures var tenantOk := s.reqs[r].input.tenant == "" || s.reqs[r].input.validate.Member?;
            s.reqs[r].pc.out.Success? <==>
              tenantOk &&
              if req.grantTypes == ["client_credentials"]
                  || req.grantTypes == ["urn:ietf:params:oauth:grant-type:jwt-bearer"] then
                forall app | app in req.audience :: req.client != "" && Permitted(ws[i].db, req.client, app)
              else
                && req.login.Some? && req.login.value.email.Some? && req.login.value.email.value != ""
                && Permitted(ws[i].db, req.login.value.email.value, req.client)
  {
    ScheduleIndependence(workers, steps, s, r);
    var input, user := s.reqs[r].input, LookupId(NewUser(req));
    var groups := HookGroups(ws[i].db, user);
    FetchesLocalGroups(input, req, local, ws[i].db, ws[i], true);
    forall app ensures Granted(ws[i].tuples, groups, app) <==> user != "" && Permitted(ws[i].db, user, app) {
      GrantedIsPermitted(ws, es, i, user, app);
    }
    AllowedMeansGranted(ws[i].tuples, req, groups, true);
    assert input.authorize(input.fetch.groups) == Authorization(ws[i].tuples, req, groups, true);
    IdentityExactly(req);
    WantsExactly(req);
    assert Wants(req, req.client) || IsServiceAccount(req.grantTypes);
  }

  /** A machine wants its audience, anyone else the client. */
  lemma WantsExactly(req: HookRequest)
    ensures forall app ::
              Wants(req, app) <==>
                if req.grantTypes == ["client_credentials"]
                    || req.grantTypes == ["urn:ietf:params:oauth:grant-type:jwt-bearer"]
                then app in req.audience else app == req.client
  {}
}
