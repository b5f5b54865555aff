/**
 The invariant of the two loops of Sync, and the proof that handling one name
 keeps it.
 */
module SyncProgress {
  import opened Schema
  import opened Storage
  import opened Reconciliation

  /** What Sync works from: the tables it started with, the driver's plan and the groups it listed. */
  datatype Job = Job(start: Db, prefix: string, plan: Plan, existing: map<string, GroupId>)

  ghost predicate JobOk(j: Job) {
    && Valid(j.start) && Prefixed(j.prefix, j.plan)
    && ListsPrefix(j.start, j.prefix, DEFAULT_TENANT, j.existing)
  }

  /** Names not handled yet, ids already changed, and whether every call so far succeeded. */
  datatype Ledger = Ledger(todo: set<string>, touched: set<GroupId>, clean: bool)

  /** A changed id met its fate, and if it still names a group, that name was handled. */
  ghost predicate Handled(j: Job, db: Db, l: Ledger, h: GroupId) {
    && h in db.used
    && FateOf(j.start, db, h, j.prefix, j.plan)
    && (l.clean ==> GoalOf(j.start, db, h, j.prefix, j.plan))
    && forall k | k in db.groups && k.id == h ::
         k.tenant == DEFAULT_TENANT && db.groups[k].name !in l.todo
  }

  ghost predicate Progress(j: Job, db: Db, l: Ledger) {
    && Valid(db) && j.start.used <= db.used
    && (forall h: GroupId | h !in l.touched :: SliceOf(db, h) == SliceOf(j.start, h))
    && (forall h | h in l.touched :: Handled(j, db, l, h))
    && (forall n | n in j.existing :: n in l.todo <==> j.existing[n] !in l.touched)
    && (l.clean ==> forall n | n in j.plan && n !in l.todo :: NameTaken(db, DEFAULT_TENANT, n))
  }

  lemma Begin(j: Job)
    requires JobOk(j)
    ensures Progress(j, j.start, Ledger(j.plan.Keys + j.existing.Keys, {}, true))
  {}

  /** Listed groups have their rows in the starting tables. */
  lemma ExistingRow(j: Job, n: string)
    requires JobOk(j) && n in j.existing
    ensures InScope(SliceOf(j.start, j.existing[n]), j.existing[n], j.prefix)
    ensures NameOf(SliceOf(j.start, j.existing[n]), j.existing[n]) == n
    ensures j.existing[n] in j.start.used
  {}

  lemma RowInSlice(db: Db, k: GroupKey)
    ensures k in db.groups <==> k in SliceOf(db, k.id).groups
    ensures k in db.groups ==> SliceOf(db, k.id).groups[k] == db.groups[k]
  {}

  /** A name still to be created is not taken. */
  lemma NameIsFree(j: Job, db: Db, l: Ledger, n: string)
    requires JobOk(j) && Progress(j, db, l) && n in l.todo && n in j.plan && n !in j.existing
    ensures !NameTaken(db, DEFAULT_TENANT, n)
  {
    if k :| k in db.groups && k.tenant == DEFAULT_TENANT && db.groups[k].name == n {
      RowInSlice(db, k);
      RowInSlice(j.start, k);
    }
  }

  /** Handling name n changed the rows of g only, and g met its fate. */
  ghost predicate Handles(j: Job, db: Db, l: Ledger, n: string, g: GroupId, db': Db, ok: bool) {
    && n in l.todo && g !in l.touched && g in db'.used
    && (if n in j.existing then g == j.existing[n] else g !in db.used)
    && Valid(db') && OnlyTouches(db, db', g)
    && FateOf(j.start, db', g, j.prefix, j.plan)
    && (ok ==> GoalOf(j.start, db', g, j.prefix, j.plan) && (n in j.plan ==> NameTaken(db', DEFAULT_TENANT, n)))
    && forall k | k in db'.groups && k.id == g :: k.tenant == DEFAULT_TENANT && db'.groups[k].name == n
  }

  function Recorded(l: Ledger, n: string, g: GroupId, ok: bool): Ledger {
    Ledger(l.todo - {n}, l.touched + {g}, l.clean && ok)
  }

  lemma OthersStayHandled(j: Job, db: Db, l: Ledger, n: string, g: GroupId, db': Db, ok: bool, h: GroupId)
    requires JobOk(j) && Progress(j, db, l) && Handles(j, db, l, n, g, db', ok) && h in l.touched
    ensures Handled(j, db', Recorded(l, n, g, ok), h)
  {
    assert Handled(j, db, l, h);
    assert SliceOf(db', h) == SliceOf(db, h);
    forall k | k in db'.groups && k.id == h ensures k in db.groups && db.groups[k] == db'.groups[k] {
      RowInSlice(db, k);
      RowInSlice(db', k);
    }
  }

  lemma ExistingInjective(j: Job, n: string, m: string)
    requires JobOk(j) && n in j.existing && m in j.existing && j.existing[n] == j.existing[m]
    ensures n == m
  {}

  lemma NamesStay(j: Job, db: Db, l: Ledger, n: string, g: GroupId, db': Db, ok: bool, m: string)
    requires JobOk(j) && Progress(j, db, l) && Handles(j, db, l, n, g, db', ok)
    requires m != n && NameTaken(db, DEFAULT_TENANT, m)
    ensures NameTaken(db', DEFAULT_TENANT, m)
  {
    var k :| k in db.groups && k.tenant == DEFAULT_TENANT && db.groups[k].name == m;
    RowInSlice(db, k);
    RowInSlice(db', k);
    if k.id == g {
      if n in j.existing {
        ExistingRow(j, n);
      }
    }
  }

  lemma BooksStay(j: Job, l: Ledger, n: string, g: GroupId, ok: bool, m: string)
    requires JobOk(j) && m in j.existing && (m in l.todo <==> j.existing[m] !in l.touched)
    requires if n in j.existing then g == j.existing[n] else g !in j.start.used
    ensures m in Recorded(l, n, g, ok).todo <==> j.existing[m] !in Recorded(l, n, g, ok).touched
  {
    ExistingRow(j, m);
    if n in j.existing && j.existing[m] == j.existing[n] {
      ExistingInjective(j, n, m);
    }
  }

  lemma TouchedAfter(j: Job, db: Db, l: Ledger, n: string, g: GroupId, db': Db, ok: bool, h: GroupId)
    requires JobOk(j) && Progress(j, db, l) && Handles(j, db, l, n, g, db', ok)
    ensures h in l.touched + {g} ==> Handled(j, db', Recorded(l, n, g, ok), h)
    ensures h !in l.touched + {g} ==> SliceOf(db', h) == SliceOf(j.start, h)
  {
    if h in l.touched {
      OthersStayHandled(j, db, l, n, g, db', ok, h);
    }
  }

  lemma NamesAfter(j: Job, db: Db, l: Ledger, n: string, g: GroupId, db': Db, ok: bool, m: string)
    requires JobOk(j) && Progress(j, db, l) && Handles(j, db, l, n, g, db', ok)
    requires l.clean && ok && m in j.plan && m !in l.todo - {n}
    ensures NameTaken(db', DEFAULT_TENANT, m)
  {
    if m != n {
      NamesStay(j, db, l, n, g, db', ok, m);
    }
  }

  lemma HandlingKeepsProgress(j: Job, db: Db, l: Ledger, n: string, g: GroupId, db': Db, ok: bool)
    requires JobOk(j) && Progress(j, db, l) && Handles(j, db, l, n, g, db', ok)
    ensures Progress(j, db', Recorded(l, n, g, ok))
  {
    var l' := Recorded(l, n, g, ok);
    forall h: GroupId
      ensures h in l'.touched ==> Handled(j, db', l', h)
      ensures h !in l'.touched ==> SliceOf(db', h) == SliceOf(j.start, h)
    {
      TouchedAfter(j, db, l, n, g, db', ok, h);
    }
    forall m | m in j.existing ensures m in l'.todo <==> j.existing[m] !in l'.touched {
      BooksStay(j, l, n, g, ok, m);
    }
    forall m | l'.clean && m in j.plan && m !in l'.todo ensures NameTaken(db', DEFAULT_TENANT, m) {
      NamesAfter(j, db, l, n, g, db', ok, m);
    }
  }

  /** Giving up on creating a group changes nothing. */
  lemma SkippingKeepsProgress(j: Job, db: Db, l: Ledger, n: string)
    requires JobOk(j) && Progress(j, db, l) && n in l.todo && n !in j.existing
    ensures Progress(j, db, Ledger(l.todo - {n}, l.touched, false))
  {
    var l' := Ledger(l.todo - {n}, l.touched, false);
    forall h | h in l.touched ensures Handled(j, db, l', h) {
      SkippingKeepsHandled(j, db, l, n, h);
    }
    SkippingKeepsBooks(j, l, n);
  }

  lemma SkippingKeepsBooks(j: Job, l: Ledger, n: string)
    requires n !in j.existing && forall m | m in j.existing :: m in l.todo <==> j.existing[m] !in l.touched
    ensures forall m | m in j.existing :: m in l.todo - {n} <==> j.existing[m] !in l.touched
  {}

  lemma SkippingKeepsHandled(j: Job, db: Db, l: Ledger, n: string, h: GroupId)
    requires Handled(j, db, l, h)
    ensures Handled(j, db, Ledger(l.todo - {n}, l.touched, false), h)
  {}

  /** A synchronisation that stops anywhere between two names leaves what a failed one may leave. */
  lemma CutShortIsTried(j: Job, db: Db, l: Ledger)
    requires JobOk(j) && Progress(j, db, l)
    ensures Tried(j.start, db, j.prefix, j.plan)
  {
    forall g: GroupId ensures FateOf(j.start, db, g, j.prefix, j.plan) {
      if g in l.touched {
        assert Handled(j, db, l, g);
      }
    }
  }

  lemma Finish(j: Job, db: Db, l: Ledger)
    requires JobOk(j) && Progress(j, db, l) && l.todo == {}
    ensures Tried(j.start, db, j.prefix, j.plan)
    ensures l.clean ==> Achieved(j.start, db, j.prefix, j.plan)
  {
    forall g: GroupId
      ensures FateOf(j.start, db, g, j.prefix, j.plan) && (l.clean ==> GoalOf(j.start, db, g, j.prefix, j.plan))
    {
      if g in l.touched {
        assert Handled(j, db, l, g);
      } else if InScope(SliceOf(j.start, g), g, j.prefix) {
        RowInSlice(j.start, GroupKey(g, DEFAULT_TENANT));
      }
    }
  }
}
