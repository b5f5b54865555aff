/**
 The hook's decision in every state of every run, between requests and in the
 middle of them.
 */
module Decisions {
  import opened Base64
  import opened Schema
  import opened OpenFga
  import opened TwoStores
  import opened TwoStoreRuns

  /** The ids GetGroupsForUser hands to the authorizer. */
  function GroupIdsFor(db: Db, user: string): set<GoString> {
    set k | k in GroupsForUser(db, "", user) :: k.id
  }

  ghost predicate Decision(w: World, user: string, subject: string, client: string) {
    Check(w.tuples + Contextual(subject, GroupIdsFor(w.db, user)), UserTuple(subject), ClientTuple(client))
  }

  /** A row with its tuple in place, or a stray tuple. */
  ghost predicate Effective(w: World, a: GrantKey) {
    (a in w.db.grants && !Missing(w, a)) || Stray(w, a)
  }

  ghost predicate Joined(w: World, user: string, client: string) {
    exists g: GroupId :: MemberKey(g, user) in w.db.members && Effective(w, GrantKey(g, client))
  }

  lemma GroupIdsAreMemberships(db: Db, user: string, g: GroupId)
    requires Valid(db)
    ensures g in GroupIdsFor(db, user) <==> MemberKey(g, user) in db.members
    ensures g in GroupIdsFor(db, user) ==> IsLive(db, g)
  {
    if MemberKey(g, user) in db.members {
      var k := GroupKey(g, db.members[MemberKey(g, user)].tenant);
      assert k in GroupsForUser(db, "", user);
    }
    if g in GroupIdsFor(db, user) {
      var k :| k in GroupsForUser(db, "", user) && k.id == g;
    }
  }

  /** In the user's groups, which are live, a grant's tuple is there exactly when the grant is effective. */
  lemma TupleIsEffective(w: World, user: string, g: GroupId, client: string)
    requires Base(w) && MemberKey(g, user) in w.db.members
    ensures Grant(g, client) in w.tuples <==> Effective(w, GrantKey(g, client))
  {
    GroupIdsAreMemberships(w.db, user, g);
    assert TupleOf(GrantKey(g, client)) == Grant(g, client);
  }

  lemma JoinInState(w: World, user: string, subject: string, client: string)
    requires Base(w)
    ensures Decision(w, user, subject, client) <==> Joined(w, user, client)
  {
    CheckIsAJoin(w.tuples, subject, client, GroupIdsFor(w.db, user));
    if g :| g in GroupIdsFor(w.db, user) && Grant(g, client) in w.tuples {
      GroupIdsAreMemberships(w.db, user, g);
      TupleIsEffective(w, user, g, client);
    }
    if Joined(w, user, client) {
      var g: GroupId :| MemberKey(g, user) in w.db.members && Effective(w, GrantKey(g, client));
      GroupIdsAreMemberships(w.db, user, g);
      TupleIsEffective(w, user, g, client);
    }
  }

  /**
   Decision refinement, over every run and every failure: the OpenFGA check with
   contextual memberships is a join of group_members with application_groups, less
   the rows whose tuple was lost and plus the tuples that were stranded, each of
   which StrayHasACause and MissingHasACause trace to an event. Leftover tuples of
   deleted groups never matter. The subject of the check may be any string.
   */
  lemma DecisionIsAJoin(ws: seq<World>, es: seq<Event>, i: nat, user: string, subject: string, client: string)
    requires IsRun(ws, es) && i < |ws|
    ensures Decision(ws[i], user, subject, client) <==> Joined(ws[i], user, client)
  {
    RunsKeepBase(ws, es, i);
    JoinInState(ws[i], user, subject, client);
  }

  ghost predicate OfLiveGroup(db: Db, t: Tuple) {
    exists a: GrantKey :: t == TupleOf(a) && IsLive(db, a.group)
  }

  /** Tuples left over from deleted groups never change a decision. */
  lemma LeftoversNeverMatter(ws: seq<World>, es: seq<Event>, i: nat, user: string, subject: string, client: string)
    requires IsRun(ws, es) && i < |ws|
    ensures Decision(ws[i], user, subject, client) <==>
            Decision(ws[i].(tuples := set t | t in ws[i].tuples && OfLiveGroup(ws[i].db, t)), user, subject, client)
  {
    var w := ws[i];
    RunsKeepBase(ws, es, i);
    var live := set t | t in w.tuples && OfLiveGroup(w.db, t);
    var groups := GroupIdsFor(w.db, user);
    CheckIsAJoin(w.tuples, subject, client, groups);
    CheckIsAJoin(live, subject, client, groups);
    forall g: GroupId | g in groups && Grant(g, client) in w.tuples ensures Grant(g, client) in live {
      GroupIdsAreMemberships(w.db, user, g);
      assert Grant(g, client) == TupleOf(GrantKey(g, client));
    }
  }

  // ---- exactly when the check is the plain join ---------------------------------------------

  /** The plain reading of the rule: some group of the user has the application. */
  ghost predicate Permitted(db: Db, user: string, app: string) {
    exists g: GroupId :: MemberKey(g, user) in db.members && GrantKey(g, app) in db.grants
  }

  /** The same stores with other memberships. */
  function WithMembers(w: World, members: map<MemberKey, MemberRow>): World {
    w.(db := w.db.(members := members))
  }

  /** Whoever belongs to whichever groups, the check is the plain join. */
  ghost predicate Plain(w: World) {
    forall members: map<MemberKey, MemberRow>, user, subject, client | Valid(w.db.(members := members)) ::
      Decision(WithMembers(w, members), user, subject, client) <==> Permitted(w.db.(members := members), user, client)
  }

  lemma DriftKeptByMembers(w: World, members: map<MemberKey, MemberRow>, a: GrantKey)
    ensures Effective(WithMembers(w, members), a) <==> Effective(w, a)
  {}

  /** Without drift, rows are what counts. */
  lemma NoDriftIsPlain(w: World, members: map<MemberKey, MemberRow>, user: string, subject: string, client: string)
    requires Base(w) && Safe(w) && Complete(w) && Valid(w.db.(members := members))
    ensures Decision(WithMembers(w, members), user, subject, client) <==>
            Permitted(w.db.(members := members), user, client)
  {
    JoinInState(WithMembers(w, members), user, subject, client);
    forall g: GroupId
      ensures Effective(WithMembers(w, members), GrantKey(g, client)) <==> GrantKey(g, client) in w.db.grants
    {
      DriftKeptByMembers(w, members, GrantKey(g, client));
      assert !Stray(w, GrantKey(g, client)) && !Missing(w, GrantKey(g, client));
    }
  }

  /** A user whose only group has the drifting grant notices. */
  lemma DriftIsNotPlain(w: World, a: GrantKey)
    requires Base(w) && (Stray(w, a) || Missing(w, a))
    ensures !Plain(w)
  {
    var tenant := LiveTenant(w, a);
    var members := map[MemberKey(a.group, "u") := MemberRow(tenant, 0, 0, 0)];
    assert Valid(w.db.(members := members));
    JoinInState(WithMembers(w, members), "u", "u", a.app);
    DriftKeptByMembers(w, members, a);
    assert GrantKey(a.group, a.app) == a && MemberKey(a.group, "u") in members;
    forall g: GroupId | MemberKey(g, "u") in members ensures g == a.group {}
    assert Decision(WithMembers(w, members), "u", "u", a.app) != Permitted(w.db.(members := members), "u", a.app);
  }

  lemma LiveTenant(w: World, a: GrantKey) returns (tenant: string)
    requires Base(w) && (Stray(w, a) || Missing(w, a))
    ensures GroupKey(a.group, tenant) in w.db.groups
  {
    if Missing(w, a) {
      tenant := w.db.grants[a].tenant;
    } else {
      var k :| k in w.db.groups && k.id == a.group;
      tenant := k.tenant;
    }
  }

  /** The check is the plain join, whatever the memberships, if and only if the stores have not drifted apart. */
  lemma PlainExactly(w: World)
    requires Base(w)
    ensures Plain(w) <==> Safe(w) && Complete(w)
  {
    if Safe(w) && Complete(w) {
      forall members: map<MemberKey, MemberRow>, user, subject, client | Valid(w.db.(members := members))
        ensures Decision(WithMembers(w, members), user, subject, client) <==>
                Permitted(w.db.(members := members), user, client)
      {
        NoDriftIsPlain(w, members, user, subject, client);
      }
    } else {
      var a: GrantKey :| Stray(w, a) || Missing(w, a);
      DriftIsNotPlain(w, a);
    }
  }

  /** Over whole runs: the check is always the plain join if and only if no event strands or drops a tuple. */
  lemma PlainRunsExactly(ws: seq<World>, es: seq<Event>)
    requires IsRun(ws, es)
    ensures (forall i | 0 <= i < |ws| :: Plain(ws[i])) <==>
            (forall j | 0 <= j < |es| ::
               StrandsNone(ws[j], es[j], ws[j + 1]) && DropsNone(ws[j], es[j], ws[j + 1]))
  {
    SafeRunsExactly(ws, es);
    CompleteRunsExactly(ws, es);
    forall i: nat | i < |ws| ensures Plain(ws[i]) <==> Safe(ws[i]) && Complete(ws[i]) {
      RunsKeepBase(ws, es, i);
      PlainExactly(ws[i]);
    }
  }

  /** Every request of this run was tidy and thorough. */
  ghost predicate Clean(es: seq<Event>) {
    forall j | 0 <= j < |es| :: Tidy(es[j]) && Thorough(es[j])
  }

  lemma CleanStores(ws: seq<World>, es: seq<Event>, i: nat)
    requires IsRun(ws, es) && i < |ws| && Clean(es)
    ensures Base(ws[i]) && Safe(ws[i]) && Complete(ws[i])
  {
    RunsAreSafe(ws, es, i);
    if a: GrantKey :| Missing(ws[i], a) {
      var j := MissingHasACause(ws, es, i, a);
    }
  }

  /**
   When every request was tidy and thorough, which can be read off the events alone,
   the decision is the plain join. Failed statements, failed single grants and failed
   single removals inside a transaction are harmless.
   */
  lemma CleanDecision(ws: seq<World>, es: seq<Event>, i: nat, user: string, subject: string, client: string)
    requires IsRun(ws, es) && i < |ws| && Clean(es)
    ensures Decision(ws[i], user, subject, client) <==> Permitted(ws[i].db, user, client)
  {
    CleanStores(ws, es, i);
    var db := ws[i].db;
    assert db.(members := db.members) == db && WithMembers(ws[i], db.members) == ws[i];
    NoDriftIsPlain(ws[i], db.members, user, subject, client);
  }

  // ---- in the middle of a request -----------------------------------------------------------

  /** The tuple calls of a request, some of them made. */
  ghost predicate Partly(req: Request, before: set<Tuple>, now: set<Tuple>) {
    match req
    case Add(a, _) => now == before || now == before + {TupleOf(a)}
    case _ => Takes(before, now, ScopeOf(req))
  }

  /**
   What others see while a request is under way. Its statement shows before the end
   only when it runs outside a transaction; its tuple calls show at once.
   */
  ghost predicate Glimpse(w: World, e: Event, m: World) {
    match e.req
    case Sync(prefix, plan) => SyncStep(w, prefix, plan, m)
    case _ =>
      && Runs(w, e)
      && (m.db == w.db || (e.executed && !e.tx.begun && m.db == After(w.db, Write(w.db, e.req))))
      && (m.tuples == w.tuples || (e.executed && Partly(e.req, w.tuples, m.tuples)))
  }

  /** A state of the run, or one in the middle of its next event. */
  ghost predicate Sees(ws: seq<World>, es: seq<Event>, i: nat, m: World) {
    i < |ws| && (m == ws[i] || (i < |es| && Glimpse(ws[i], es[i], m)))
  }

  /**
   The awkward moments are among what others see: the tuple of an addition before its
   commit, and the tuple of a removal outside a transaction after its row is gone.
   */
  lemma GlimpseShows(w: World, a: GrantKey, now: int, ok: bool, tx: Tx)
    ensures InsertGrant(w.db, a, now).Ok? ==>
              Glimpse(w, Event(Add(a, now), true, ok, tx), World(w.db, w.tuples + {TupleOf(a)}))
    ensures !tx.begun ==>
              Glimpse(w, Event(Remove(a), true, ok, tx), World(DeleteGrants(w.db, {a}), w.tuples))
    ensures forall e: Event | !e.req.Sync? && Runs(w, e) :: Glimpse(w, e, w)
  {}

  lemma PartlyTouches(req: Request, before: set<Tuple>, now: set<Tuple>, a: GrantKey)
    requires Partly(req, before, now)
    ensures TupleOf(a) in now ==> TupleOf(a) in before || (req.Add? && Concerns(req, a))
  {
    if req.Add? && TupleOf(a) == TupleOf(req.grant) {
      TupleOfInjective(a, req.grant);
    }
  }

  lemma RowsInFlight(w: World, e: Event, m: World, a: GrantKey)
    requires Valid(w.db) && !e.req.Sync? && Glimpse(w, e, m)
    ensures !Concerns(e.req, a) ==> (a in m.db.grants <==> a in w.db.grants)
    ensures IsLive(m.db, a.group) ==> IsLive(w.db, a.group) || a.group !in w.db.used
  {
    if m.db != w.db {
      RowsChange(w, e.(ok := false), World(m.db, w.tuples), a);
    }
  }

  /** A request that shows its tuple before its row, or takes its row before its tuple. */
  predicate InFlight(e: Event, a: GrantKey) {
    Concerns(e.req, a) && e.executed &&
    (e.req.Add? || (!e.tx.begun && (e.req.Remove? || e.req.RemoveApps? || e.req.RemoveGroups?)))
  }

  lemma DeletedIsGone(w: World, e: Event, m: World, a: GrantKey)
    requires Valid(w.db) && e.req.Delete? && Glimpse(w, e, m) && Concerns(e.req, a) && IsLive(m.db, a.group)
    ensures m.db == w.db
  {
    DeleteGroupKeepsValid(w.db, e.req.group);
  }

  /** While a request is under way, only an addition or a removal outside a transaction puts its grants out of step. */
  lemma GlimpseStrays(w: World, e: Event, m: World, a: GrantKey)
    requires Base(w) && Glimpse(w, e, m) && Stray(m, a) && !Stray(w, a)
    ensures m != w && InFlight(e, a)
  {
    if e.req.Sync? {
      SyncKeepsStores(w, e.req.prefix, e.req.plan, m);
    } else {
      RowsInFlight(w, e, m, a);
      if m.tuples != w.tuples {
        PartlyTouches(e.req, w.tuples, m.tuples, a);
      }
      if e.req.Delete? && Concerns(e.req, a) {
        DeletedIsGone(w, e, m, a);
      }
    }
  }

  lemma GlimpseIsValid(w: World, e: Event, m: World)
    requires Base(w) && Glimpse(w, e, m)
    ensures Valid(m.db)
  {
    if !e.req.Sync? {
      WriteIsFresh(w, e);
      ExecKeepsValid(w.db, Write(w.db, e.req));
    }
  }

  /** An untidy event before i, or the one under way at i, is to blame for a tuple without its row. */
  ghost predicate Explained(ws: seq<World>, es: seq<Event>, i: nat, m: World, a: GrantKey)
    requires Sees(ws, es, i, m)
  {
    || (exists j | 0 <= j < i && j < |es| :: Strays(es[j], a))
    || (m != ws[i] && InFlight(es[i], a))
  }

  /** Whatever others see, a tuple of a live group has its row or an explanation. */
  lemma SeenStrayIsExplained(ws: seq<World>, es: seq<Event>, i: nat, m: World, a: GrantKey)
    requires IsRun(ws, es) && Sees(ws, es, i, m) && Stray(m, a)
    ensures Explained(ws, es, i, m, a)
  {
    RunsKeepBase(ws, es, i);
    if Stray(ws[i], a) {
      var j := StrayHasACause(ws, es, i, a);
    } else {
      GlimpseStrays(ws[i], es[i], m, a);
    }
  }

  lemma SeenIsValid(ws: seq<World>, es: seq<Event>, i: nat, m: World)
    requires IsRun(ws, es) && Sees(ws, es, i, m)
    ensures Valid(m.db)
  {
    RunsKeepBase(ws, es, i);
    if m != ws[i] {
      GlimpseIsValid(ws[i], es[i], m);
    }
  }
}
