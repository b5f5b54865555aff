/**
 The tuple store as the service sees it, and the Authorizer that reads, writes
 and deletes grants in it. Assumed of the store: a failed call has no effect,
 continuation tokens are key cursors, and a filter whose id part is empty matches
 every id of that type. Calls are numbered and outage says which of them fail.
 */
module Authorizer {
  import opened Collections
  import opened Base64
  import opened OpenFga

  /** Read filters: an empty id part matches any id of the type. */
  predicate MatchesUser(filter: string, user: string) {
    filter == user || (filter == GroupMemberTuple("") && "group:" <= user)
  }

  predicate MatchesResource(filter: string, resource: string) {
    filter == resource || (filter == ClientTuple("") && "client:" <= resource)
  }

  datatype Filter = Filter(user: string, resource: string)

  predicate Matches(f: Filter, t: Tuple) {
    t.relation == CAN_ACCESS && MatchesUser(f.user, t.user) && MatchesResource(f.resource, t.resource)
  }

  datatype Page = Page(tuples: set<Tuple>, token: Option<nat>)

  /** Some call numbered in [from, to) failed. */
  ghost predicate Failed(outage: nat -> bool, from: nat, to: nat) {
    exists c: nat | from <= c < to :: outage(c)
  }

  lemma FailedSplit(outage: nat -> bool, a: nat, b: nat, c: nat)
    requires a <= b <= c
    ensures Failed(outage, a, c) <==> Failed(outage, a, b) || Failed(outage, b, c)
  {}

  lemma OneOfTwo(outage: nat -> bool, c: nat)
    ensures Failed(outage, c, c + 1) <==> outage(c)
    ensures Failed(outage, c, c + 2) <==> outage(c) || outage(c + 1)
  {}

  /** How the page loop goes on: an error, the end, or the next cursor. */
  datatype PageResult = Broken | Finished | More(cursor: nat)

  class TupleStore {
    /** Every tuple with its key; keys are never reused. */
    var rows: map<Tuple, nat>
    var next: nat
    var calls: nat
    const outage: nat -> bool
    /** The server's answer to a check over a set of tuples. */
    const server: (set<Tuple>, string, string) -> bool

    ghost predicate Valid()
      reads this
    {
      && (forall t, u | t in rows && u in rows && rows[t] == rows[u] :: t == u)
      && (forall t | t in rows :: rows[t] < next)
      && OnlyGrants(rows.Keys)
    }

    /** The server evaluates the authorization model. */
    ghost predicate Faithful() {
      forall ts, subject, client :: server(ts, subject, client) <==> Check(ts, subject, client)
    }

    constructor (server: (set<Tuple>, string, string) -> bool, outage: nat -> bool)
      ensures Valid() && rows == map[] && calls == 0 && this.server == server && this.outage == outage
    {
      rows := map[];
      next := 0;
      calls := 0;
      this.server := server;
      this.outage := outage;
    }

    method AddAllowedAppToGroup(g: GoString, app: string) returns (ok: bool)
      requires Valid()
      modifies this
      ensures Valid() && calls == old(calls) + 1 && ok == !outage(old(calls))
      ensures rows.Keys == if ok then old(rows.Keys) + {Grant(g, app)} else old(rows.Keys)
    {
      ok := !outage(calls);
      calls := calls + 1;
      if ok && Grant(g, app) !in rows {
        assert IsGrant(Grant(g, app));
        rows := rows[Grant(g, app) := next];
        next := next + 1;
      }
    }

    /** All-or-nothing removal of a batch. */
    method DeleteTuples(gone: set<Tuple>) returns (ok: bool)
      requires Valid()
      modifies this`rows, this`calls
      ensures Valid() && calls == old(calls) + 1 && ok == !outage(old(calls))
      ensures rows == if ok then old(rows) - gone else old(rows)
    {
      ok := !outage(calls);
      calls := calls + 1;
      if ok {
        rows := rows - gone;
      }
    }

    /**
     One page of the matching tuples from a cursor on, in key order and of any
     non-zero size; no token means that nothing is left after this page.
     */
    method ReadTuples(f: Tuple -> bool, cursor: nat) returns (page: Option<Page>)
      requires Valid()
      modifies this`calls
      ensures Valid() && calls == old(calls) + 1
      ensures page.None? <==> outage(old(calls))
      ensures page.Some? ==> IsPage(rows, f, cursor, page.value)
    {
      calls := calls + 1;
      if outage(calls - 1) {
        return None;
      }
      var left := set t | t in rows && f(t) && cursor <= rows[t];
      if left == {} {
        assert forall t | t in rows && f(t) && cursor <= rows[t] :: t in left;
        return Some(Page({}, None));
      }
      var last :| last in left;
      var tuples := set t | t in left && rows[t] <= rows[last];
      assert last in tuples;
      return Some(Page(tuples, if tuples == left then None else Some(rows[last] + 1)));
    }

    /** Reads one page and deletes it. */
    method RemovePage(f: Tuple -> bool, cursor: nat) returns (next: PageResult)
      requires Valid() && forall t | t in rows && f(t) :: cursor <= rows[t]
      modifies this`rows, this`calls
      ensures Valid() && old(calls) < calls <= old(calls) + 2
      ensures rows.Keys <= old(rows.Keys)
      ensures forall t | t in old(rows) && !f(t) :: t in rows
      ensures next.Broken? <==> Failed(outage, old(calls), calls)
      ensures next.Finished? ==> forall t | t in rows :: !f(t)
      ensures next.More? ==> rows.Keys < old(rows.Keys) && forall t | t in rows && f(t) :: next.cursor <= rows[t]
    {
      OneOfTwo(outage, calls);
      var page := ReadTuples(f, cursor);
      if page.None? {
        return Broken;
      }
      if page.value.tuples == {} {
        return Finished;
      }
      ghost var t :| t in page.value.tuples;
      var deleted := DeleteTuples(page.value.tuples);
      if !deleted {
        return Broken;
      }
      assert t in old(rows.Keys) && t !in rows.Keys;
      return if page.value.token.None? then Finished else More(page.value.token.value);
    }

    /**
     The page loop shared by RemoveAllAllowedAppsFromGroup and
     RemoveAllAllowedGroupsForApp: it ends, it removes matching tuples only, it
     succeeds exactly when all its calls do, and then no matching tuple is left.
     */
    method RemoveMatching(f: Tuple -> bool) returns (ok: bool)
      requires Valid()
      modifies this`rows, this`calls
      ensures Valid() && old(calls) <= calls
      ensures rows.Keys <= old(rows.Keys)
      ensures forall t | t in old(rows) && !f(t) :: t in rows
      ensures ok ==> forall t | t in rows :: !f(t)
      ensures ok <==> !Failed(outage, old(calls), calls)
    {
      var cursor := 0;
      while true
        invariant Valid() && rows.Keys <= old(rows.Keys)
        invariant forall t | t in old(rows) && !f(t) :: t in rows
        invariant forall t | t in rows && f(t) :: cursor <= rows[t]
        invariant old(calls) <= calls && !Failed(outage, old(calls), calls)
        decreases rows.Keys
      {
        ghost var before := calls;
        var next := RemovePage(f, cursor);
        FailedSplit(outage, old(calls), before, calls);
        match next
        case Broken => return false;
        case Finished => return true;
        case More(c) => cursor := c;
      }
    }

    method RemoveAllAllowedAppsFromGroup(g: GoString) returns (ok: bool)
      requires Valid()
      modifies this`rows, this`calls
      ensures Valid() && rows.Keys <= old(rows.Keys) && old(calls) <= calls
      ensures forall h: GoString, app | Grant(h, app) in old(rows) && Grant(h, app) !in rows :: g == "" || h == g
      ensures ok ==> forall h: GoString, app | g == "" || h == g :: Grant(h, app) !in rows
      ensures ok <==> !Failed(outage, old(calls), calls)
    {
      ok := RemoveMatching(t => Matches(GroupFilter(g), t));
      forall h: GoString, app ensures Matches(GroupFilter(g), Grant(h, app)) <==> g == "" || h == g {
        GroupFilterExact(g, h, app);
      }
    }

    method RemoveAllAllowedGroupsForApp(app: string) returns (ok: bool)
      requires Valid()
      modifies this`rows, this`calls
      ensures Valid() && rows.Keys <= old(rows.Keys) && old(calls) <= calls
      ensures forall g: GoString, other | Grant(g, other) in old(rows) && Grant(g, other) !in rows ::
              app == "" || other == app
      ensures ok ==> forall g: GoString, other | app == "" || other == app :: Grant(g, other) !in rows
      ensures ok <==> !Failed(outage, old(calls), calls)
    {
      ok := RemoveMatching(t => Matches(AppFilter(app), t));
      forall g: GoString, other ensures Matches(AppFilter(app), Grant(g, other)) <==> app == "" || other == app {
        AppFilterExact(app, g, other);
      }
    }

    /** One check with contextual memberships. */
    method Ask(userId: string, client: string, groups: set<GoString>, ctx: set<Tuple>) returns (allowed: bool)
      requires Valid() && Faithful() && ctx == Contextual(userId, groups)
      ensures allowed == Granted(rows.Keys, groups, client)
    {
      CheckIsAJoin(rows.Keys, userId, client, groups);
      allowed := server(rows.Keys + ctx, UserTuple(userId), ClientTuple(client));
    }

    /** CanAccess: a check with one contextual membership per group; None if the call fails. */
    method CanAccess(userId: string, client: string, groups: seq<GoString>, up: bool) returns (r: Option<bool>)
      requires Valid() && Faithful()
      ensures r == if up then Some(Granted(rows.Keys, Elements(groups), client)) else None
      ensures r == Some(true) <==> up && exists g | g in groups :: Grant(g, client) in rows
      ensures r == Some(false) <==> up && forall g | g in groups :: Grant(g, client) !in rows
    {
      var ctx := ContextualTuples(userId, groups);
      if !up {
        return None;
      }
      var allowed := Ask(userId, client, Elements(groups), ctx);
      return Some(allowed);
    }

    /** The conjunction fold over the answers of a batch check. */
    method AskAll(userId: string, clients: seq<string>, groups: set<GoString>, ctx: set<Tuple>) returns (allowed: bool)
      requires Valid() && Faithful() && ctx == Contextual(userId, groups)
      ensures allowed == GrantedAll(rows.Keys, groups, clients)
    {
      allowed := true;
      for i := 0 to |clients|
        invariant allowed == GrantedAll(rows.Keys, groups, clients[..i])
      {
        var one := Ask(userId, clients[i], groups, ctx);
        assert clients[..i + 1][..i] == clients[..i];
        allowed := allowed && one;
      }
      assert clients[..|clients|] == clients;
    }

    /** BatchCanAccess: the conjunction over all clients; a denial comes back as an error. */
    method BatchCanAccess(userId: string, clients: seq<string>, groups: seq<GoString>, up: bool)
      returns (r: Option<bool>)
      requires Valid() && Faithful()
      ensures r == if up && GrantedAll(rows.Keys, Elements(groups), clients) then Some(true) else None
      ensures r == Some(true) <==>
              up && forall client | client in clients :: exists g | g in groups :: Grant(g, client) in rows
      ensures r != Some(false)
    {
      var ctx := ContextualTuples(userId, groups);
      if !up {
        return None;
      }
      var allowed := AskAll(userId, clients, Elements(groups), ctx);
      GrantedAllMeansEach(rows.Keys, Elements(groups), clients);
      return if allowed then Some(true) else None;
    }
  }

  /** Every one of these applications was granted to one of these groups. */
  predicate GrantedAll(store: set<Tuple>, groups: set<GoString>, apps: seq<string>) {
    apps == [] || (GrantedAll(store, groups, apps[..|apps| - 1]) && Granted(store, groups, apps[|apps| - 1]))
  }

  /** The fold of a batch check is a conjunction over the audience. */
  lemma {:induction false} GrantedAllMeansEach(store: set<Tuple>, groups: set<GoString>, apps: seq<string>)
    ensures GrantedAll(store, groups, apps) <==> forall app | app in apps :: Granted(store, groups, app)
  {
    if apps != [] {
      var n := |apps| - 1;
      GrantedAllMeansEach(store, groups, apps[..n]);
      assert apps[n] in apps && forall app | app in apps :: app in apps[..n] || app == apps[n];
    }
  }

  /** Key-cursor paging: what a page from a cursor on must contain. */
  ghost predicate IsPage(rows: map<Tuple, nat>, f: Tuple -> bool, cursor: nat, page: Page) {
    && (forall t | t in page.tuples :: t in rows && f(t))
    && (page.tuples == {} ==> forall t | t in rows && f(t) :: rows[t] < cursor)
    && (forall t | t in rows && f(t) && t !in page.tuples ::
          rows[t] < cursor || (page.token.Some? && page.token.value <= rows[t]))
  }

  /** One of these groups was granted the application. */
  predicate Granted(store: set<Tuple>, groups: set<GoString>, app: string) {
    exists g | g in groups :: Grant(g, app) in store
  }

  /** The loop that turns the fetched groups into contextual tuples. */
  method ContextualTuples(userId: string, groups: seq<GoString>) returns (ctx: set<Tuple>)
    ensures ctx == Contextual(userId, Elements(groups))
  {
    ctx := {};
    for i := 0 to |groups|
      invariant ctx == Contextual(userId, Elements(groups[..i]))
    {
      ctx := ctx + {Tuple(UserTuple(userId), MEMBER, GroupTuple(groups[i]))};
      assert groups[..i + 1] == groups[..i] + [groups[i]];
    }
    assert groups[..|groups|] == groups;
  }

  function GroupFilter(g: GoString): Filter {
    Filter(GroupMemberTuple(g), ClientTuple(""))
  }

  function AppFilter(app: string): Filter {
    Filter(GroupMemberTuple(""), ClientTuple(app))
  }

  /** Both filters look at grants only. */
  lemma FiltersSelectGrants(g: GoString, app: string, t: Tuple)
    ensures Matches(GroupFilter(g), t) || Matches(AppFilter(app), t) ==> t.relation == "can_access"
  {}

  /** The group filter selects one group's grants, unless the id is empty: then it selects all. */
  lemma GroupFilterExact(g: GoString, h: GoString, app: string)
    ensures Matches(GroupFilter(g), Grant(h, app)) <==> g == "" || h == g
  {
    if MatchesUser(GroupMemberTuple(g), GroupMemberTuple(h)) {
      if GroupMemberTuple(g) == GroupMemberTuple(h) {
        GroupNamesInjective(g, h);
      } else {
        GroupNamesInjective(g, "");
      }
    }
    assert "group:" <= GroupMemberTuple(h) && "client:" <= ClientTuple(app);
  }

  lemma AppFilterExact(app: string, g: GoString, other: string)
    ensures Matches(AppFilter(app), Grant(g, other)) <==> app == "" || other == app
  {
    if ClientTuple(app) == ClientTuple(other) {
      PrefixCancels("client:", app, other);
    }
    if ClientTuple(app) == ClientTuple("") {
      PrefixCancels("client:", app, "");
    }
    assert "group:" <= GroupMemberTuple(g) && "client:" <= ClientTuple(other);
  }
}
