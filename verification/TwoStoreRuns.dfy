/**
 What the two stores guarantee over every run of requests, whatever fails. Rows
 and tuples drift apart only in events whose transaction or tuple calls went
 wrong in one of a few listed ways, and the hook's decision is a relational join
 over the tables up to that drift.
 */
module TwoStoreRuns {
  import opened Schema
  import opened OpenFga
  import opened TwoStores
  import Reconciliation

  // ---- drift between the stores -------------------------------------------------------------

  /** A tuple of a live group that no row of application_groups backs: it lets users in. */
  ghost predicate Stray(w: World, a: GrantKey) {
    TupleOf(a) in w.tuples && IsLive(w.db, a.group) && a !in w.db.grants
  }

  /** A row whose tuple is gone: it keeps users out. */
  ghost predicate Missing(w: World, a: GrantKey) {
    a in w.db.grants && TupleOf(a) !in w.tuples
  }

  /** Tuples of live groups are backed by rows. */
  ghost predicate Safe(w: World) {
    forall a: GrantKey :: !Stray(w, a)
  }

  /** Constraints hold, only grants are stored, and tuples only mention ids that were handed out. */
  ghost predicate Base(w: World) {
    && Valid(w.db) && OnlyGrants(w.tuples)
    && forall a: GrantKey | TupleOf(a) in w.tuples :: a.group in w.db.used
  }

  /**
   No tuple is left without its row: an addition that answers without error in a
   transaction commits it, and a removal whose DELETE ran outside a transaction
   gets its tuples removed.
   */
  predicate Tidy(e: Event) {
    match e.req
    case Add(_, _) => e.ok && e.tx.begun ==> e.tx.commits
    case Remove(_) => e.executed && !e.tx.begun ==> e.ok
    case RemoveApps(_) => e.executed && !e.tx.begun ==> e.ok
    case RemoveGroups(_) => e.executed && !e.tx.begun ==> e.ok
    case _ => true
  }

  /**
   No row is left without its tuple: an addition whose INSERT ran outside a
   transaction gets its tuple written, and a removal that may have removed tuples
   in a transaction succeeds and commits.
   */
  predicate Thorough(e: Event) {
    match e.req
    case Add(_, _) => e.executed && !e.tx.begun ==> e.ok
    case Remove(_) => e.ok && e.tx.begun ==> e.tx.commits
    case RemoveApps(_) => e.executed && e.tx.begun ==> e.ok && e.tx.commits
    case RemoveGroups(_) => e.executed && e.tx.begun ==> e.ok && e.tx.commits
    case Delete(_) => e.executed && e.tx.begun ==> e.ok && e.tx.commits
    case _ => true
  }

  /** Both, spelled out by request. */
  lemma TidyAndThoroughMean(e: Event)
    ensures !Tidy(e) <==>
            || (e.req.Add? && e.ok && e.tx.begun && !e.tx.commits)
            || ((e.req.Remove? || e.req.RemoveApps? || e.req.RemoveGroups?) && e.executed && !e.tx.begun && !e.ok)
    ensures !Thorough(e) <==>
            || (e.req.Add? && e.executed && !e.tx.begun && !e.ok)
            || (e.req.Remove? && e.ok && e.tx.begun && !e.tx.commits)
            || ((e.req.RemoveApps? || e.req.RemoveGroups? || e.req.Delete?)
                && e.executed && e.tx.begun && !(e.ok && e.tx.commits))
  {}

  /** The events that can leave a's tuple without its row, and its row without its tuple. */
  predicate Strays(e: Event, a: GrantKey) {
    !Tidy(e) && Concerns(e.req, a)
  }

  predicate Loses(e: Event, a: GrantKey) {
    !Thorough(e) && Concerns(e.req, a)
  }

  lemma TupleOfInjective(a: GrantKey, b: GrantKey)
    requires TupleOf(a) == TupleOf(b)
    ensures a == b
  {
    GrantInjective(a.group, a.app, b.group, b.app);
  }

  // ---- single steps -------------------------------------------------------------------------

  /** A step of a request other than Sync, with the effect of its transaction spelled out. */
  ghost predicate Change(w: World, e: Event, w': World) {
    && !e.req.Sync? && Runs(w, e)
    && w'.db == (if Lasts(e) then After(w.db, Write(w.db, e.req)) else w.db)
    && if e.executed then Calls(e.req, w.tuples, w'.tuples, e.ok) else w'.tuples == w.tuples
  }

  lemma StepIsChange(w: World, e: Event, w': World)
    requires !e.req.Sync? && (Step(w, e, w') || Change(w, e, w'))
    ensures Step(w, e, w') && Change(w, e, w')
  {
    LeftIs(w.db, e);
  }

  /** Which rows and which live groups a request leaves alone. */
  lemma RowsChange(w: World, e: Event, w': World, a: GrantKey)
    requires Valid(w.db) && Change(w, e, w')
    ensures a in w'.db.grants <==>
              if Lasts(e) && Concerns(e.req, a) then e.req.Add? else a in w.db.grants
    ensures IsLive(w'.db, a.group) ==> IsLive(w.db, a.group) || a.group !in w.db.used
    ensures Lasts(e) && e.req.Delete? && Concerns(e.req, a) ==> !IsLive(w'.db, a.group)
  {
    if e.req.Delete? {
      DeleteGroupKeepsValid(w.db, e.req.group);
    } else if e.req.Other? {
      OtherKeepsGrants(w.db, e.req.stmt);
    }
  }

  lemma OtherKeepsGrants(db: Db, s: Statement)
    requires Valid(db) && TouchesNoGrant(s) && FreshIds(db, s)
    ensures After(db, s).grants == db.grants
    ensures forall g: GroupId | IsLive(After(db, s), g) :: IsLive(db, g) || g !in db.used
  {}

  /** Which tuples a request leaves alone. */
  lemma TuplesChange(w: World, e: Event, w': World, a: GrantKey)
    requires Change(w, e, w')
    ensures !Concerns(e.req, a) ==> (TupleOf(a) in w'.tuples <==> TupleOf(a) in w.tuples)
    ensures Concerns(e.req, a) && e.ok ==> (TupleOf(a) in w'.tuples <==> e.req.Add?)
    ensures Concerns(e.req, a) && !e.executed ==> (TupleOf(a) in w'.tuples <==> TupleOf(a) in w.tuples)
    ensures TupleOf(a) in w'.tuples ==> TupleOf(a) in w.tuples || (e.req.Add? && e.ok && Concerns(e.req, a))
    ensures (e.req.Add? || e.req.Remove?) && !e.ok ==> w'.tuples == w.tuples
  {
    if (e.req.Add? || e.req.Remove?) && TupleOf(a) == TupleOf(e.req.grant) {
      TupleOfInjective(a, e.req.grant);
    }
  }

  /**
   A request, grant by grant: its rows change when the statement ran and its
   transaction never began or was committed; its tuples change when its calls succeed,
   and may change in part when they do not; and both only where the request is about.
   */
  lemma RequestExactly(w: World, e: Event, w': World, a: GrantKey)
    requires Base(w) && Step(w, e, w') && !e.req.Sync? && !e.req.Other?
    ensures var lasts := e.executed && (!e.tx.begun || (e.ok && e.tx.commits));
            var row, tuple := a in w.db.grants, Grant(a.group, a.app) in w.tuples;
            var row', tuple' := a in w'.db.grants, Grant(a.group, a.app) in w'.tuples;
            match e.req
            case Add(b, _) => row' == (row || (lasts && a == b)) && tuple' == (tuple || (e.ok && a == b))
            case Remove(b) => row' == (row && !(lasts && a == b)) && tuple' == (tuple && !(e.ok && a == b))
            case RemoveApps(g) =>
              && row' == (row && !(lasts && a.group == g)) && (tuple' ==> tuple)
              && (if a.group == g then e.ok ==> !tuple' else tuple ==> tuple')
            case RemoveGroups(app) =>
              && row' == (row && !(lasts && a.app == app)) && (tuple' ==> tuple)
              && (if a.app == app then e.ok ==> !tuple' else tuple ==> tuple')
            case Delete(g) =>
              && row' == (row && !(lasts && a.group == g)) && (tuple' ==> tuple)
              && (if a.group == g then e.ok ==> !tuple' else tuple ==> tuple')
    ensures e.req.Delete? && e.executed && (!e.tx.begun || (e.ok && e.tx.commits)) ==>
              forall k | k in w'.db.groups :: k.id != e.req.group
    ensures !e.executed ==> w' == w
  {
    StepIsChange(w, e, w');
    RowsChange(w, e, w', a);
    TuplesChange(w, e, w', a);
    if e.req.Delete? {
      DeleteGroupKeepsValid(w.db, e.req.group);
    }
  }

  /** Nothing the group endpoints do is missing from the runs: every other statement is an event, refused or not. */
  lemma EveryStatementIsAnEvent(w: World, s: Statement, tx: Tx, ok: bool)
    requires !s.SInsertGrant? && !s.SDeleteGrants? && !s.SDeleteGroup? && (s.SInsertGroup? ==> s.id !in w.db.used)
    ensures var e := Event(Other(s), Exec(w.db, s).Ok?, ok && Exec(w.db, s).Ok?, tx);
            Step(w, e, World(if !tx.begun || (e.ok && tx.commits) then After(w.db, s) else w.db, w.tuples))
    ensures Step(w, Event(Other(s), false, false, tx), w)
  {
    var e := Event(Other(s), Exec(w.db, s).Ok?, ok && Exec(w.db, s).Ok?, tx);
    StepIsChange(w, e, World(if !tx.begun || (e.ok && tx.commits) then After(w.db, s) else w.db, w.tuples));
    StepIsChange(w, Event(Other(s), false, false, tx), w);
  }

  lemma WriteIsFresh(w: World, e: Event)
    requires !e.req.Sync? && Runs(w, e)
    ensures FreshIds(w.db, Write(w.db, e.req))
  {}

  lemma ChangeKeepsBase(w: World, e: Event, w': World)
    requires Base(w) && Change(w, e, w')
    ensures Base(w')
  {
    WriteIsFresh(w, e);
    ExecKeepsValid(w.db, Write(w.db, e.req));
    forall a: GrantKey | TupleOf(a) in w'.tuples ensures a.group in w'.db.used {
      TuplesChange(w, e, w', a);
      if TupleOf(a) !in w.tuples {
        assert GroupKey(a.group, DEFAULT_TENANT) in w.db.groups;
      }
    }
    forall t | t in w'.tuples ensures IsGrant(t) {
      if t !in w.tuples {
        assert t == TupleOf(e.req.grant);
      }
    }
  }

  /**
   The event writes a's tuple and no row, or takes its row and leaves its tuple: an
   addition that answered without error and was not committed, or a removal in a live
   group that lost its begin and did not get to that tuple.
   */
  ghost predicate Strands(w: World, e: Event, w': World, a: GrantKey) {
    Concerns(e.req, a) && e.executed &&
    match e.req
    case Add(_, _) => e.tx.begun && e.ok && !e.tx.commits
    case Remove(_) => !e.tx.begun && !e.ok && IsLive(w.db, a.group) && TupleOf(a) in w.tuples
    case RemoveApps(_) => !e.tx.begun && !e.ok && IsLive(w.db, a.group) && TupleOf(a) in w'.tuples
    case RemoveGroups(_) => !e.tx.begun && !e.ok && IsLive(w.db, a.group) && TupleOf(a) in w'.tuples
    case _ => false
  }

  /** Requests about grants leave the groups alone, and an addition needs a live one. */
  lemma GroupsStay(w: World, e: Event, w': World, a: GrantKey)
    requires Change(w, e, w') && !e.req.Delete? && !e.req.Other?
    ensures IsLive(w'.db, a.group) <==> IsLive(w.db, a.group)
    ensures e.req.Add? && e.executed && Concerns(e.req, a) ==> IsLive(w.db, a.group)
  {
    assert w'.db.groups == w.db.groups;
    if e.req.Add? && e.executed && Concerns(e.req, a) {
      assert GroupKey(a.group, DEFAULT_TENANT) in w.db.groups;
    }
  }

  /** Exactly when a request leaves a tuple without its row, given that there was none before. */
  lemma ChangeStrays(w: World, e: Event, w': World, a: GrantKey)
    requires Base(w) && Change(w, e, w') && !Stray(w, a)
    ensures Stray(w', a) <==> Strands(w, e, w', a)
  {
    RowsChange(w, e, w', a);
    TuplesChange(w, e, w', a);
    if !e.req.Delete? && !e.req.Other? {
      GroupsStay(w, e, w', a);
    }
  }

  /**
   The event takes a's tuple and leaves its row, or adds its row and no tuple: an
   addition that lost its begin and its tuple call, a removal that succeeded and was
   not committed, or a bulk removal that was not committed and had got to that tuple.
   */
  ghost predicate Drops(w: World, e: Event, w': World, a: GrantKey) {
    Concerns(e.req, a) && e.executed &&
    match e.req
    case Add(_, _) => !e.tx.begun && !e.ok && TupleOf(a) !in w.tuples
    case Remove(_) => e.tx.begun && e.ok && !e.tx.commits && a in w.db.grants
    case _ =>
      e.tx.begun && !(e.ok && e.tx.commits) && a in w.db.grants && (e.ok || TupleOf(a) !in w'.tuples)
  }

  /** Exactly when a request leaves a row without its tuple, given that there was none before. */
  lemma ChangeDrops(w: World, e: Event, w': World, a: GrantKey)
    requires Base(w) && Change(w, e, w') && !Missing(w, a)
    ensures Missing(w', a) <==> Drops(w, e, w', a)
  {
    RowsChange(w, e, w', a);
    TuplesChange(w, e, w', a);
  }

  // ---- synchronisations ---------------------------------------------------------------------

  /** What the rows of an application grant say about liveness, one id at a time. */
  lemma GrantInSlice(db: Db, a: GrantKey)
    ensures a in db.grants <==> a in Reconciliation.SliceOf(db, a.group).grants
    ensures IsLive(db, a.group) <==> Reconciliation.SliceOf(db, a.group).groups != map[]
  {
    var s := Reconciliation.SliceOf(db, a.group);
    if IsLive(db, a.group) {
      var k :| k in db.groups && k.id == a.group;
      assert k in s.groups;
    }
    if s.groups != map[] {
      assert s.groups.Keys != {};
      var k :| k in s.groups;
    }
  }

  /** A synchronisation grants nothing, and revives no id that was already handed out. */
  lemma SyncMovesNoGrant(w: World, prefix: string, plan: Reconciliation.Plan, w': World, a: GrantKey)
    requires SyncStep(w, prefix, plan, w')
    ensures a in w'.db.grants ==> a in w.db.grants
    ensures a.group in w.db.used && IsLive(w'.db, a.group) ==>
              IsLive(w.db, a.group) && (a in w.db.grants ==> a in w'.db.grants)
  {
    GrantInSlice(w.db, a);
    GrantInSlice(w'.db, a);
    SyncFate(w, prefix, plan, w', a.group);
  }

  lemma SyncFate(w: World, prefix: string, plan: Reconciliation.Plan, w': World, g: GroupId)
    requires SyncStep(w, prefix, plan, w')
    ensures var s, s' := Reconciliation.SliceOf(w.db, g), Reconciliation.SliceOf(w'.db, g);
            && (s'.grants == s.grants || s'.grants == map[])
            && (g in w.db.used ==> (s'.groups == s.groups && s'.grants == s.grants) || s' == Reconciliation.NOTHING)
  {
    var s, s' := Reconciliation.SliceOf(w.db, g), Reconciliation.SliceOf(w'.db, g);
    assert Reconciliation.FateOf(w.db, w'.db, g, prefix, plan);
    Reconciliation.FateOfGrants(s, s', g, g in w.db.used, prefix, plan);
  }

  /** However it fails, a synchronisation lets rows and tuples drift no further apart. */
  lemma SyncKeepsStores(w: World, prefix: string, plan: Reconciliation.Plan, w': World)
    requires Base(w) && SyncStep(w, prefix, plan, w')
    ensures Base(w')
    ensures forall a: GrantKey | Stray(w', a) :: Stray(w, a)
    ensures forall a: GrantKey | Missing(w', a) :: Missing(w, a)
  {
    forall a: GrantKey
      ensures Stray(w', a) ==> Stray(w, a)
      ensures Missing(w', a) ==> Missing(w, a)
    {
      SyncMovesNoGrant(w, prefix, plan, w', a);
      GrantInSlice(w'.db, a);
    }
  }

  // ---- every step ---------------------------------------------------------------------------

  lemma StepKeepsBase(w: World, e: Event, w': World)
    requires Base(w) && Step(w, e, w')
    ensures Base(w')
  {
    if e.req.Sync? {
      SyncKeepsStores(w, e.req.prefix, e.req.plan, w');
    } else {
      StepIsChange(w, e, w');
      ChangeKeepsBase(w, e, w');
    }
  }

  ghost predicate StrandsNone(w: World, e: Event, w': World) {
    forall a: GrantKey :: !Strands(w, e, w', a)
  }

  lemma StepStrays(w: World, e: Event, w': World, a: GrantKey)
    requires Base(w) && Step(w, e, w') && !Stray(w, a)
    ensures Stray(w', a) <==> Strands(w, e, w', a)
    ensures Strands(w, e, w', a) ==> Strays(e, a)
  {
    if e.req.Sync? {
      SyncKeepsStores(w, e.req.prefix, e.req.plan, w');
    } else {
      StepIsChange(w, e, w');
      ChangeStrays(w, e, w', a);
    }
  }

  lemma StepDrops(w: World, e: Event, w': World, a: GrantKey)
    requires Base(w) && Step(w, e, w') && !Missing(w, a)
    ensures Missing(w', a) <==> Drops(w, e, w', a)
    ensures Drops(w, e, w', a) ==> Loses(e, a)
  {
    if e.req.Sync? {
      SyncKeepsStores(w, e.req.prefix, e.req.plan, w');
    } else {
      StepIsChange(w, e, w');
      ChangeDrops(w, e, w', a);
    }
  }

  ghost predicate DropsNone(w: World, e: Event, w': World) {
    forall a: GrantKey :: !Drops(w, e, w', a)
  }

  /** Every row has its tuple. */
  ghost predicate Complete(w: World) {
    forall a: GrantKey :: !Missing(w, a)
  }

  /** A step keeps the tuples complete if and only if it drops none. */
  lemma CompleteStepExactly(w: World, e: Event, w': World)
    requires Base(w) && Complete(w) && Step(w, e, w')
    ensures Complete(w') <==> DropsNone(w, e, w')
  {
    forall a: GrantKey ensures Missing(w', a) <==> Drops(w, e, w', a) {
      assert !Missing(w, a);
      StepDrops(w, e, w', a);
    }
  }

  /** A step keeps the stores safe if and only if it strands no tuple. */
  lemma SafeStepExactly(w: World, e: Event, w': World)
    requires Base(w) && Safe(w) && Step(w, e, w')
    ensures Safe(w') <==> StrandsNone(w, e, w')
  {
    forall a: GrantKey ensures Stray(w', a) <==> Strands(w, e, w', a) {
      assert !Stray(w, a);
      StepStrays(w, e, w', a);
    }
  }

  /**
   The same by request, in terms a caller knows: an addition strands a tuple exactly
   when it is untidy; a single removal exactly when it is untidy and the live group had
   the tuple; and a tidy event never does.
   */
  lemma StrandsByRequest(w: World, e: Event, w': World)
    requires Base(w) && Step(w, e, w')
    ensures Tidy(e) ==> StrandsNone(w, e, w')
    ensures e.req.Add? ==> (StrandsNone(w, e, w') <==> Tidy(e))
    ensures e.req.Remove? ==>
              (StrandsNone(w, e, w') <==>
               Tidy(e) || TupleOf(e.req.grant) !in w.tuples || !IsLive(w.db, e.req.grant.group))
  {
    if e.req.Add? || e.req.Remove? {
      assert StrandsNone(w, e, w') ==> !Strands(w, e, w', e.req.grant);
    }
  }

  // ---- runs ---------------------------------------------------------------------------------

  /** ws are the states of a run from empty stores through these events. */
  ghost predicate IsRun(ws: seq<World>, es: seq<Event>) {
    && |ws| == |es| + 1 && ws[0] == World(EMPTY, {})
    && forall i | 0 <= i < |es| :: Step(ws[i], es[i], ws[i + 1])
  }

  lemma {:induction false} RunsKeepBase(ws: seq<World>, es: seq<Event>, i: nat)
    requires IsRun(ws, es) && i < |ws|
    ensures Base(ws[i])
  {
    if i > 0 {
      RunsKeepBase(ws, es, i - 1);
      StepKeepsBase(ws[i - 1], es[i - 1], ws[i]);
    }
  }

  /** Something that holds now but not at the start began to hold at some step. */
  lemma {:induction false} FirstTime(p: nat -> bool, i: nat) returns (j: nat)
    requires p(i) && !p(0)
    ensures j < i && !p(j) && p(j + 1)
  {
    j := i - 1;
    if p(i - 1) {
      j := FirstTime(p, i - 1);
    }
  }

  lemma FirstStray(ws: seq<World>, i: nat, a: GrantKey) returns (j: nat)
    requires i < |ws| && Stray(ws[i], a) && ws[0].tuples == {}
    ensures j < i && !Stray(ws[j], a) && Stray(ws[j + 1], a)
  {
    j := FirstTime((n: nat) => n < |ws| && Stray(ws[n], a), i);
  }

  lemma FirstMissing(ws: seq<World>, i: nat, a: GrantKey) returns (j: nat)
    requires i < |ws| && Missing(ws[i], a) && ws[0].db.grants == map[]
    ensures j < i && !Missing(ws[j], a) && Missing(ws[j + 1], a)
  {
    j := FirstTime((n: nat) => n < |ws| && Missing(ws[n], a), i);
  }

  lemma DriftOfEvent(ws: seq<World>, es: seq<Event>, j: nat, a: GrantKey)
    requires IsRun(ws, es) && j < |es|
    ensures !Stray(ws[j], a) && Stray(ws[j + 1], a) ==> Strays(es[j], a)
    ensures !Missing(ws[j], a) && Missing(ws[j + 1], a) ==> Loses(es[j], a)
  {
    RunsKeepBase(ws, es, j);
    if !Stray(ws[j], a) {
      StepStrays(ws[j], es[j], ws[j + 1], a);
    }
    if !Missing(ws[j], a) {
      StepDrops(ws[j], es[j], ws[j + 1], a);
    }
  }

  /** A tuple without its row can be traced back to an untidy event of that run. */
  lemma StrayHasACause(ws: seq<World>, es: seq<Event>, i: nat, a: GrantKey) returns (j: nat)
    requires IsRun(ws, es) && i < |ws| && Stray(ws[i], a)
    ensures j < i && Strays(es[j], a)
  {
    j := FirstStray(ws, i, a);
    DriftOfEvent(ws, es, j, a);
  }

  /** A row without its tuple can be traced back to an event of that run that was not thorough. */
  lemma MissingHasACause(ws: seq<World>, es: seq<Event>, i: nat, a: GrantKey) returns (j: nat)
    requires IsRun(ws, es) && i < |ws| && Missing(ws[i], a)
    ensures j < i && Loses(es[j], a)
  {
    j := FirstMissing(ws, i, a);
    DriftOfEvent(ws, es, j, a);
  }

  /**
   Two-store safety: as long as every event was tidy, and whatever else failed, the
   tuples of live groups are a subset of the rows of application_groups.
   */
  lemma RunsAreSafe(ws: seq<World>, es: seq<Event>, i: nat)
    requires IsRun(ws, es) && i < |ws| && forall j | 0 <= j < i :: Tidy(es[j])
    ensures Base(ws[i]) && Safe(ws[i])
  {
    RunsKeepBase(ws, es, i);
    if a: GrantKey :| Stray(ws[i], a) {
      var j := StrayHasACause(ws, es, i, a);
    }
  }

  /** A run is safe throughout if and only if none of its events strands a tuple. */
  lemma SafeRunsExactly(ws: seq<World>, es: seq<Event>)
    requires IsRun(ws, es)
    ensures (forall i | 0 <= i < |ws| :: Safe(ws[i])) <==>
            (forall j | 0 <= j < |es| :: StrandsNone(ws[j], es[j], ws[j + 1]))
  {
    if forall i | 0 <= i < |ws| :: Safe(ws[i]) {
      forall j | 0 <= j < |es| ensures StrandsNone(ws[j], es[j], ws[j + 1]) {
        RunsKeepBase(ws, es, j);
        assert Safe(ws[j]) && Safe(ws[j + 1]);
        SafeStepExactly(ws[j], es[j], ws[j + 1]);
      }
    }
    if forall j | 0 <= j < |es| :: StrandsNone(ws[j], es[j], ws[j + 1]) {
      forall i: nat | i < |ws| ensures Safe(ws[i]) {
        UnstrandedIsSafe(ws, es, i);
      }
    }
  }

  lemma {:induction false} UnstrandedIsSafe(ws: seq<World>, es: seq<Event>, i: nat)
    requires IsRun(ws, es) && i < |ws|
    requires forall j | 0 <= j < |es| :: StrandsNone(ws[j], es[j], ws[j + 1])
    ensures Safe(ws[i])
  {
    if i > 0 {
      UnstrandedIsSafe(ws, es, i - 1);
      RunsKeepBase(ws, es, i - 1);
      SafeStepExactly(ws[i - 1], es[i - 1], ws[i]);
    }
  }

  /** A run is complete throughout if and only if none of its events drops a tuple. */
  lemma CompleteRunsExactly(ws: seq<World>, es: seq<Event>)
    requires IsRun(ws, es)
    ensures (forall i | 0 <= i < |ws| :: Complete(ws[i])) <==>
            (forall j | 0 <= j < |es| :: DropsNone(ws[j], es[j], ws[j + 1]))
  {
    if forall i | 0 <= i < |ws| :: Complete(ws[i]) {
      forall j | 0 <= j < |es| ensures DropsNone(ws[j], es[j], ws[j + 1]) {
        RunsKeepBase(ws, es, j);
        assert Complete(ws[j]) && Complete(ws[j + 1]);
        CompleteStepExactly(ws[j], es[j], ws[j + 1]);
      }
    }
    if forall j | 0 <= j < |es| :: DropsNone(ws[j], es[j], ws[j + 1]) {
      forall i: nat | i < |ws| ensures Complete(ws[i]) {
        UndroppedIsComplete(ws, es, i);
      }
    }
  }

  lemma {:induction false} UndroppedIsComplete(ws: seq<World>, es: seq<Event>, i: nat)
    requires IsRun(ws, es) && i < |ws|
    requires forall j | 0 <= j < |es| :: DropsNone(ws[j], es[j], ws[j + 1])
    ensures Complete(ws[i])
  {
    if i > 0 {
      UndroppedIsComplete(ws, es, i - 1);
      RunsKeepBase(ws, es, i - 1);
      CompleteStepExactly(ws[i - 1], es[i - 1], ws[i]);
    }
  }
}
