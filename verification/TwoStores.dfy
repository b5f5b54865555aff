/**
 Application grants live in application_groups and in the tuple store. A request
 updates the database first, inside a transaction that may fail to begin or to
 commit, and the tuple store second, where nothing is ever rolled back.
 */
module TwoStores {
  import opened Collections
  import opened Schema
  import opened Transactions
  import opened OpenFga
  import opened Authorizer
  import Storage
  import Reconciliation

  datatype World = World(db: Db, tuples: set<Tuple>)

  datatype Request =
    | Add(grant: GrantKey, now: int)
    | Remove(grant: GrantKey)
    | RemoveApps(group: GroupId)
    | RemoveGroups(app: string)
    | Delete(group: GroupId)
    | Sync(prefix: string, plan: Reconciliation.Plan)
    | Other(stmt: Statement)

  /** The fate of a request's transaction: whether it could be begun, and whether a commit would go through. */
  datatype Tx = Tx(begun: bool, commits: bool)

  /** executed: the database statement went through; ok: the handler answered without an error. */
  datatype Event = Event(req: Request, executed: bool, ok: bool, tx: Tx)

  function TupleOf(a: GrantKey): Tuple {
    Grant(a.group, a.app)
  }

  // ---- the database half --------------------------------------------------------------------

  /** The one statement of a request. */
  function Write(db: Db, req: Request): Statement
    requires !req.Sync?
  {
    match req
    case Add(a, now) => SInsertGrant(a, now)
    case Remove(a) => SDeleteGrants({a})
    case RemoveApps(g) => SDeleteGrants(GrantsOfGroup(db, g))
    case RemoveGroups(app) => SDeleteGrants(GrantsOfApp(db, app))
    case Delete(g) => SDeleteGroup(g)
    case Other(s) => s
  }

  /** The tables a request leaves behind, as the lazy transaction and the middleware make them. */
  function Left(db: Db, e: Event): Db
    requires !e.req.Sync?
  {
    var stmt := Write(db, e.req);
    Effect(db, [if e.executed then stmt else SRefused(stmt)], (_: nat) => !e.tx.begun, 0, e.ok && e.tx.commits)
  }

  /** The statement outlives the request: it ran on its own, or in a transaction that was committed. */
  predicate Lasts(e: Event) {
    e.executed && (!e.tx.begun || (e.ok && e.tx.commits))
  }

  lemma LeftIs(db: Db, e: Event)
    requires !e.req.Sync? && (e.ok ==> e.executed)
    ensures Left(db, e) == if Lasts(e) then After(db, Write(db, e.req)) else db
  {
    var stmt := Write(db, e.req);
    OneStatement(db, if e.executed then stmt else SRefused(stmt), (_: nat) => !e.tx.begun, 0, e.ok && e.tx.commits);
  }

  // ---- the tuple half -----------------------------------------------------------------------

  /** The grants a request is about. */
  predicate Concerns(req: Request, a: GrantKey) {
    match req
    case Add(b, _) => a == b
    case Remove(b) => a == b
    case RemoveApps(g) => a.group == g
    case RemoveGroups(app) => a.app == app
    case Delete(g) => a.group == g
    case _ => false
  }

  /** Tuples are taken away from grants in scope and from nothing else. */
  ghost predicate Takes(before: set<Tuple>, after: set<Tuple>, scope: GrantKey -> bool) {
    && after <= before
    && forall a: GrantKey | TupleOf(a) in before && !scope(a) :: TupleOf(a) in after
  }

  ghost predicate TakesAll(before: set<Tuple>, after: set<Tuple>, scope: GrantKey -> bool) {
    Takes(before, after, scope) && forall a: GrantKey | scope(a) :: TupleOf(a) !in after
  }

  /** A synchronisation takes tuples away from groups that it deleted, and from nothing else. */
  ghost predicate TakesDeleted(start: Db, before: set<Tuple>, after: set<Tuple>, db: Db) {
    && after <= before
    && forall a: GrantKey | TupleOf(a) in before && TupleOf(a) !in after ::
         a.group in start.used && Reconciliation.SliceOf(db, a.group) == Reconciliation.NOTHING
  }

  function ScopeOf(req: Request): GrantKey -> bool {
    (a: GrantKey) => Concerns(req, a)
  }

  /** What the calls to the tuple store do: all they should, or, after an error, some of it. */
  ghost predicate Calls(req: Request, before: set<Tuple>, after: set<Tuple>, ok: bool) {
    match req
    case Add(a, _) => after == if ok then before + {TupleOf(a)} else before
    case Remove(a) => after == if ok then before - {TupleOf(a)} else before
    case Other(_) => after == before
    case _ => if ok then TakesAll(before, after, ScopeOf(req)) else Takes(before, after, ScopeOf(req))
  }

  // ---- whole requests -----------------------------------------------------------------------

  /** Statements of the group endpoints: they leave application_groups alone. */
  predicate TouchesNoGrant(s: Statement) {
    !s.SInsertGrant? && !s.SDeleteGrants? && !s.SDeleteGroup?
  }

  /** What a handler lets through: no empty application id in a bulk removal, no grants in other statements. */
  ghost predicate Admits(db: Db, req: Request) {
    match req
    case RemoveGroups(app) => app != ""
    case Other(s) => TouchesNoGrant(s) && FreshIds(db, s)
    case _ => true
  }

  /** A statement that is said to have gone through is one the tables accept. */
  ghost predicate Runs(w: World, e: Event)
    requires !e.req.Sync?
  {
    && Admits(w.db, e.req)
    && (e.ok ==> e.executed) && (e.executed ==> Exec(w.db, Write(w.db, e.req)).Ok?)
  }

  /** A synchronisation, complete or cut short: it opens no transaction. */
  ghost predicate SyncStep(w: World, prefix: string, plan: Reconciliation.Plan, w': World) {
    Reconciliation.Tried(w.db, w'.db, prefix, plan) && TakesDeleted(w.db, w.tuples, w'.tuples, w'.db)
  }

  /** Every other request runs its statement and then its tuple calls. */
  ghost predicate Step(w: World, e: Event, w': World) {
    match e.req
    case Sync(prefix, plan) => SyncStep(w, prefix, plan, w')
    case _ =>
      && Runs(w, e) && w'.db == Left(w.db, e)
      && if e.executed then Calls(e.req, w.tuples, w'.tuples, e.ok) else w'.tuples == w.tuples
  }

  // ---- the service methods perform these steps -----------------------------------------------

  class Service {
    const store: Storage.Store
    const authz: TupleStore
    /** The fate of the transaction of every request, and the requests so far. */
    const fate: nat -> Tx
    var requests: nat

    ghost predicate Valid()
      reads this, store, authz
    {
      Schema.Valid(store.db) && authz.Valid()
    }

    ghost function View(): World
      reads this, store, authz
    {
      World(store.db, authz.rows.Keys)
    }

    constructor (store: Storage.Store, authz: TupleStore, fate: nat -> Tx)
      ensures this.store == store && this.authz == authz && this.fate == fate && requests == 0
    {
      this.store, this.authz, this.fate, this.requests := store, authz, fate, 0;
    }

    /**
     The end of a request: a begun transaction is rolled back unless the handler
     succeeded and the commit went through.
     */
    method Settle(before: Db, ok: bool, ghost was: World, ghost e: Event)
      requires Schema.Valid(before) && Valid() && was.db == before
      requires !e.req.Sync? && Runs(was, e) && e.ok == ok && e.tx == fate(requests)
      requires store.db == if e.executed then After(before, Write(before, e.req)) else before
      requires if e.executed then Calls(e.req, was.tuples, authz.rows.Keys, ok) else authz.rows.Keys == was.tuples
      modifies this`requests, store`db
      ensures requests == old(requests) + 1 && Valid() && Step(was, e, View())
    {
      LeftIs(before, e);
      if fate(requests).begun && !(ok && fate(requests).commits) {
        store.db := before;
      }
      requests := requests + 1;
    }

    /** The INSERT into application_groups that an addition starts with. */
    method AddRow(a: GrantKey, now: int) returns (err: Option<Error>)
      requires Valid()
      modifies store
      ensures Valid() && (err.None? <==> !store.outage(old(store.calls)) && InsertGrant(old(store.db), a, now).Ok?)
      ensures err.None? ==> Exec(old(store.db), Write(old(store.db), Add(a, now))).Ok?
      ensures store.db == if err.None? then After(old(store.db), Write(old(store.db), Add(a, now))) else old(store.db)
    {
      err := store.AddAllowedApp(a, now);
    }

    /** The DELETE on application_groups that a removal starts with; a bulk removal also reads what it deleted. */
    method RemoveRows(req: Request) returns (err: Option<Error>, ghost executed: bool)
      requires Valid() && (req.Remove? || req.RemoveApps? || req.RemoveGroups?)
      modifies store
      ensures Valid() && executed == !store.outage(old(store.calls))
      ensures err.None? <==> executed && (req.Remove? || !store.unreadable(old(store.calls)))
      ensures Exec(old(store.db), Write(old(store.db), req)).Ok?
      ensures store.db == if executed then After(old(store.db), Write(old(store.db), req)) else old(store.db)
    {
      executed := !store.outage(store.calls);
      if req.Remove? {
        err := store.RemoveGrants(Write(store.db, req).grants);
      } else {
        err := store.RemoveGrantsReturning(Write(store.db, req).grants);
      }
    }

    method AddAllowedAppToGroup(a: GrantKey, now: int) returns (err: Option<Error>, ghost executed: bool)
      requires Valid()
      modifies this`requests, store, authz
      ensures Valid() && requests == old(requests) + 1
      ensures Step(old(View()), Event(Add(a, now), executed, err.None?, fate(old(requests))), View())
      ensures executed <==> !store.outage(old(store.calls)) && InsertGrant(old(store.db), a, now).Ok?
      ensures err.None? <==> executed && !authz.outage(old(authz.calls))
    {
      ghost var was := View();
      var before := store.db;
      err := AddRow(a, now);
      executed := err.None?;
      if err.None? {
        var ok := authz.AddAllowedAppToGroup(a.group, a.app);
        err := if ok then None else Some(Internal);
      }
      Settle(before, err.None?, was, Event(Add(a, now), executed, err.None?, fate(requests)));
    }

    method RemoveAllowedAppFromGroup(a: GrantKey) returns (err: Option<Error>, ghost executed: bool)
      requires Valid()
      modifies this`requests, store, authz
      ensures Valid() && requests == old(requests) + 1
      ensures Step(old(View()), Event(Remove(a), executed, err.None?, fate(old(requests))), View())
      ensures executed <==> !store.outage(old(store.calls))
      ensures err.None? <==> executed && !authz.outage(old(authz.calls))
    {
      ghost var was := View();
      var before := store.db;
      err, executed := RemoveRows(Remove(a));
      if err.None? {
        var ok := authz.DeleteTuples({TupleOf(a)});
        err := if ok then None else Some(Internal);
      }
      Settle(before, err.None?, was, Event(Remove(a), executed, err.None?, fate(requests)));
    }

    method RemoveAllAllowedAppsFromGroup(g: GroupId) returns (err: Option<Error>, ghost executed: bool)
      requires Valid()
      modifies this`requests, store, authz
      ensures Valid() && requests == old(requests) + 1
      ensures Step(old(View()), Event(RemoveApps(g), executed, err.None?, fate(old(requests))), View())
      ensures executed <==> !store.outage(old(store.calls))
      ensures err.None? <==>
                executed && !store.unreadable(old(store.calls)) && !Failed(authz.outage, old(authz.calls), authz.calls)
    {
      ghost var was := View();
      var before := store.db;
      err, executed := RemoveRows(RemoveApps(g));
      if err.None? {
        var ok := authz.RemoveAllAllowedAppsFromGroup(g);
        err := if ok then None else Some(Internal);
      }
      Settle(before, err.None?, was, Event(RemoveApps(g), executed, err.None?, fate(requests)));
    }

    /** The service method together with its handler, which refuses an empty application id. */
    method RemoveAllowedGroupsForApp(app: string) returns (err: Option<Error>, ghost executed: bool)
      requires Valid()
      modifies this`requests, store, authz
      ensures Valid()
      ensures app == "" ==> err == Some(InvalidArgument) && View() == old(View()) && requests == old(requests)
      ensures app != "" ==>
                && requests == old(requests) + 1
                && Step(old(View()), Event(RemoveGroups(app), executed, err.None?, fate(old(requests))), View())
                && (executed <==> !store.outage(old(store.calls)))
                && (err.None? <==>
                    && executed && !store.unreadable(old(store.calls))
                    && !Failed(authz.outage, old(authz.calls), authz.calls))
    {
      if app == "" {
        return Some(InvalidArgument), false;
      }
      ghost var was := View();
      var before := store.db;
      err, executed := RemoveRows(RemoveGroups(app));
      if err.None? {
        var ok := authz.RemoveAllAllowedGroupsForApp(app);
        err := if ok then None else Some(Internal);
      }
      Settle(before, err.None?, was, Event(RemoveGroups(app), executed, err.None?, fate(requests)));
    }

    method DeleteGroup(g: GroupId) returns (err: Option<Error>, ghost executed: bool)
      requires Valid()
      modifies this`requests, store, authz
      ensures Valid() && requests == old(requests) + 1
      ensures Step(old(View()), Event(Delete(g), executed, err.None?, fate(old(requests))), View())
      ensures executed <==> !store.outage(old(store.calls))
      ensures err.None? <==> executed && !Failed(authz.outage, old(authz.calls), authz.calls)
    {
      ghost var was := View();
      var before := store.db;
      err := store.DeleteGroup(g);
      executed := err.None?;
      if err.None? {
        var ok := authz.RemoveAllAllowedAppsFromGroup(g);
        err := if ok then None else Some(Internal);
      }
      Settle(before, err.None?, was, Event(Delete(g), executed, err.None?, fate(requests)));
    }
  }
}
