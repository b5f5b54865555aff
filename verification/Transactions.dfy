/**
 What a request may do to the tables: the statements it ran, where each of them
 was sent, and what is left of them once the request has ended.
 */
module Transactions {
  import opened Collections
  import opened Schema
  import opened ReplicaLag
  import opened RowByRow

  /** In the request's lazy transaction, in a transaction its caller attached, or on a pool. */
  datatype Route = InTransaction | InCallerTx | OnPrimary | OnReplica

  /** One statement, where it ran, and the lag samples seen by then. */
  datatype Entry = Entry(stmt: Statement, route: Route, samples: seq<Sample>)

  /** What a handler does, in order; ticks of the lag monitor may fall in between. */
  datatype Action = Query(stmt: Statement) | WriteHeader(code: int) | Tick(sample: Sample)

  function Statements(script: seq<Action>): seq<Statement> {
    if script == [] then []
    else
      var before, last := Statements(script[..|script| - 1]), script[|script| - 1];
      if last.Query? then before + [last.stmt] else before
  }

  /** The last status written; 200 if there is none. */
  function Status(script: seq<Action>): int {
    if script == [] then 200
    else if script[|script| - 1].WriteHeader? then script[|script| - 1].code
    else Status(script[..|script| - 1])
  }

  /** Without a status the response is a 200. */
  lemma {:induction false} NoStatusIsOk(script: seq<Action>)
    requires forall a | a in script :: !a.WriteHeader?
    ensures Status(script) == 200
  {
    if script != [] {
      NoStatusIsOk(script[..|script| - 1]);
    }
  }

  /** Otherwise the last one written counts. */
  lemma {:induction false} LastStatusCounts(before: seq<Action>, code: int, rest: seq<Action>)
    requires forall a | a in rest :: !a.WriteHeader?
    ensures Status(before + [WriteHeader(code)] + rest) == code
    decreases |rest|
  {
    var script := before + [WriteHeader(code)] + rest;
    if rest != [] {
      var n := |rest| - 1;
      assert rest[n] in rest && script[|script| - 1] == rest[n];
      assert script[..|script| - 1] == before + [WriteHeader(code)] + rest[..n];
      LastStatusCounts(before, code, rest[..n]);
    }
  }

  /** The statements are those of the queries, in order. */
  lemma StatementsExactly(before: seq<Action>, a: Action)
    ensures Statements(before + [a]) == if a.Query? then Statements(before) + [a.stmt] else Statements(before)
  {
    assert (before + [a])[..|before|] == before;
  }

  /** The part of a log that was sent one way. */
  function Via(log: seq<Entry>, route: Route): seq<Statement> {
    if log == [] then []
    else
      var before, last := Via(log[..|log| - 1], route), log[|log| - 1];
      if last.route == route then before + [last.stmt] else before
  }

  /** One transaction: the first failed statement aborts the whole. */
  function Atomically(db: Db, stmts: seq<Statement>): Option<Db> {
    if stmts == [] then Some(db)
    else match Atomically(db, stmts[..|stmts| - 1])
      case None => None
      case Some(d) => match Exec(d, stmts[|stmts| - 1]) case Ok(d') => Some(d') case Err(_) => None
  }

  /** How many of n begin attempts fail before one succeeds. */
  function FailedBegins(fails: nat -> bool, from: nat, n: nat): (k: nat)
    ensures k <= n
    ensures forall c: nat | from <= c < from + k :: fails(c)
    ensures k < n ==> !fails(from + k)
  {
    if n == 0 then 0
    else
      var k := FailedBegins(fails, from, n - 1);
      if k == n - 1 && fails(from + n - 1) then n else k
  }

  /** What is left of a request: its statements outside the transaction, and the transaction if it commits. */
  function Remains(db: Db, outside: seq<Statement>, inside: seq<Statement>, commits: bool): Db {
    var before := Auto(db, outside);
    if commits && Atomically(before, inside).Some? then Atomically(before, inside).value else before
  }

  /**
   The log of a request whose first k begins failed: nothing before the k-th statement is in the
   transaction, the rest is.
   */
  ghost predicate BeginsAt(log: seq<Entry>, k: nat) {
    k <= |log| && forall i | 0 <= i < |log| :: log[i].route.InTransaction? <==> k <= i
  }

  ghost predicate Logs(log: seq<Entry>, stmts: seq<Statement>) {
    |log| == |stmts| && forall i | 0 <= i < |log| :: log[i].stmt == stmts[i]
  }

  /** Without replica and caller's transaction, the log splits at the first successful begin. */
  lemma {:induction false} LogSplits(log: seq<Entry>, stmts: seq<Statement>, k: nat)
    requires BeginsAt(log, k) && Logs(log, stmts)
    requires forall e | e in log :: e.route.InTransaction? || e.route.OnPrimary?
    ensures Via(log, OnPrimary) == stmts[..k] && Via(log, InTransaction) == stmts[k..]
  {
    if log != [] {
      var n := |log| - 1;
      LogSplits(log[..n], stmts[..n], if k <= n then k else n);
      assert log[n] in log;
      if k <= n {
        assert stmts[..n][..k] == stmts[..k] && stmts[..n][k..] + [stmts[n]] == stmts[k..];
      } else {
        assert stmts[..n][..n] + [stmts[n]] == stmts[..k];
      }
    }
  }

  // ---- a request in progress ----------------------------------------------------------------

  datatype TxView = NotBegun | Aborted | Working(db: Db)

  /** Tables, begin attempts, lazy transaction and caller's transaction, as a request sees them. */
  datatype Conn = Conn(tables: Db, begins: nat, view: TxView, caller: TxView)

  /** The request's context and the client it talks to. */
  datatype Setup = Setup(isLazy: bool, hasTx: bool, readOnly: bool, hasReplica: bool, limit: Millis, fails: nat -> bool)

  function ViewOf(r: Option<Db>): TxView {
    if r.None? then Aborted else Working(r.value)
  }

  /** Where a statement goes that is not in the lazy transaction. */
  function Elsewhere(c: Setup, samples: seq<Sample>): Route {
    if c.hasTx then InCallerTx
    else if c.readOnly && c.hasReplica && Stored(samples) <= c.limit then OnReplica
    else OnPrimary
  }

  predicate Routed(c: Setup, e: Entry) {
    e.route == Elsewhere(c, e.samples)
  }

  ghost predicate AllRouted(c: Setup, ran: seq<Entry>) {
    forall e | e in ran && !e.route.InTransaction? :: Routed(c, e)
  }

  /** One statement run by a transaction, and several. */
  function RunIn(view: TxView, s: Statement): TxView {
    match view
    case Working(d) => (match Exec(d, s) case Ok(d') => Working(d') case Err(_) => Aborted)
    case _ => view
  }

  function RunAll(view: TxView, stmts: seq<Statement>): TxView {
    if stmts == [] then view else RunIn(RunAll(view, stmts[..|stmts| - 1]), stmts[|stmts| - 1])
  }

  /** Begin attempts and lazy transaction after these statements. */
  ghost predicate LazyFollows(c: Setup, start: Conn, ran: seq<Entry>, now: Conn) {
    if !c.isLazy then now.begins == start.begins && now.view == start.view && BeginsAt(ran, |ran|)
    else if !start.view.NotBegun? then
      now.begins == start.begins && now.view == RunAll(start.view, Via(ran, InTransaction)) && BeginsAt(ran, 0)
    else
      var k := FailedBegins(c.fails, start.begins, |ran|);
      && BeginsAt(ran, k)
      && now.begins == start.begins + (if k < |ran| then k + 1 else k)
      && now.view == if k == |ran| then NotBegun else RunAll(Working(now.tables), Via(ran, InTransaction))
  }

  /** What the statements of a request so far say about the state. */
  ghost predicate Follows(c: Setup, start: Conn, ran: seq<Entry>, now: Conn) {
    && now.tables == Auto(start.tables, Via(ran, OnPrimary))
    && now.caller == RunAll(start.caller, Via(ran, InCallerTx))
    && AllRouted(c, ran)
    && LazyFollows(c, start, ran, now)
  }

  lemma {:induction false} NoneVia(log: seq<Entry>, route: Route)
    requires forall e | e in log :: e.route != route
    ensures Via(log, route) == []
  {
    if log != [] {
      NoneVia(log[..|log| - 1], route);
    }
  }

  lemma ViaStep(log: seq<Entry>, e: Entry, route: Route)
    ensures Via(log + [e], route) == if e.route == route then Via(log, route) + [e.stmt] else Via(log, route)
  {
    assert (log + [e])[..|log|] == log;
  }

  lemma AutoStep(db: Db, stmts: seq<Statement>, s: Statement)
    ensures Auto(db, stmts + [s]) == After(Auto(db, stmts), s)
  {
    assert (stmts + [s])[..|stmts|] == stmts;
  }

  lemma RunAllStep(view: TxView, stmts: seq<Statement>, s: Statement)
    ensures RunAll(view, stmts + [s]) == RunIn(RunAll(view, stmts), s)
  {
    assert (stmts + [s])[..|stmts|] == stmts;
  }

  /** A transaction that has run these statements holds what they make of the tables together. */
  lemma {:induction false} RunAllIsAtomic(db: Db, stmts: seq<Statement>)
    ensures RunAll(Working(db), stmts) == ViewOf(Atomically(db, stmts))
  {
    if stmts != [] {
      RunAllIsAtomic(db, stmts[..|stmts| - 1]);
    }
  }

  /** The next statement goes into the lazy transaction, which it begins if necessary. */
  predicate Inside(c: Setup, now: Conn, e: Entry, now': Conn) {
    && c.isLazy && e.route.InTransaction? && now'.tables == now.tables && now'.caller == now.caller
    && (now.view.NotBegun? ==> !c.fails(now.begins))
    && now'.begins == (if now.view.NotBegun? then now.begins + 1 else now.begins)
    && now'.view == RunIn(if now.view.NotBegun? then Working(now.tables) else now.view, e.stmt)
  }

  /** It goes elsewhere, after a failed begin if there is a lazy transaction. */
  predicate Outside(c: Setup, now: Conn, e: Entry, now': Conn) {
    && !e.route.InTransaction? && Routed(c, e) && (c.isLazy ==> now.view.NotBegun?) && now'.view == now.view
    && (if c.isLazy then c.fails(now.begins) && now'.begins == now.begins + 1 else now'.begins == now.begins)
    && now'.tables == (if e.route.OnPrimary? then After(now.tables, e.stmt) else now.tables)
    && now'.caller == if e.route.InCallerTx? then RunIn(now.caller, e.stmt) else now.caller
  }

  /** The two halves of running a statement: choosing its route, with a begin if there is a lazy transaction, ... */
  predicate Chooses(c: Setup, now: Conn, route: Route, samples: seq<Sample>, mid: Conn) {
    if c.isLazy && (!now.view.NotBegun? || !c.fails(now.begins)) then
      && route == InTransaction
      && mid == if now.view.NotBegun? then now.(begins := now.begins + 1, view := Working(now.tables)) else now
    else
      route == Elsewhere(c, samples) && mid == now.(begins := if c.isLazy then now.begins + 1 else now.begins)
  }

  /** ... and executing it there. */
  function Executed(now: Conn, route: Route, s: Statement): Conn {
    match route
    case InTransaction => now.(view := RunIn(now.view, s))
    case InCallerTx => now.(caller := RunIn(now.caller, s))
    case OnPrimary => now.(tables := After(now.tables, s))
    case OnReplica => now
  }

  lemma BothHalves(c: Setup, now: Conn, e: Entry, mid: Conn)
    requires Chooses(c, now, e.route, e.samples, mid) && (!c.isLazy ==> now.view.NotBegun?)
    ensures var now' := Executed(mid, e.route, e.stmt); Inside(c, now, e, now') || Outside(c, now, e, now')
  {}

  lemma InsideLazy(c: Setup, start: Conn, ran: seq<Entry>, now: Conn, e: Entry, now': Conn)
    requires LazyFollows(c, start, ran, now) && Inside(c, now, e, now')
    ensures LazyFollows(c, start, ran + [e], now')
  {
    ViaStep(ran, e, InTransaction);
    if start.view.NotBegun? {
      NeverUnbegun(Working(now.tables), Via(ran, InTransaction));
      if now.view.NotBegun? {
        NoneVia(ran, InTransaction);
      }
      RunAllStep(Working(now.tables), Via(ran, InTransaction), e.stmt);
    } else {
      NeverUnbegun(start.view, Via(ran, InTransaction));
      RunAllStep(start.view, Via(ran, InTransaction), e.stmt);
    }
  }

  lemma InsideStep(c: Setup, start: Conn, ran: seq<Entry>, now: Conn, e: Entry, now': Conn)
    requires Follows(c, start, ran, now) && Inside(c, now, e, now')
    ensures Follows(c, start, ran + [e], now')
  {
    ViaStep(ran, e, OnPrimary);
    ViaStep(ran, e, InCallerTx);
    InsideLazy(c, start, ran, now, e, now');
  }

  lemma OutsideLazy(c: Setup, start: Conn, ran: seq<Entry>, now: Conn, e: Entry, now': Conn)
    requires LazyFollows(c, start, ran, now) && Outside(c, now, e, now')
    ensures LazyFollows(c, start, ran + [e], now')
  {
    NeverUnbegun(start.view, Via(ran, InTransaction));
    NeverUnbegun(Working(now.tables), Via(ran, InTransaction));
  }

  /** A begun transaction stays begun. */
  lemma {:induction false} NeverUnbegun(view: TxView, stmts: seq<Statement>)
    ensures RunAll(view, stmts).NotBegun? <==> view.NotBegun?
  {
    if stmts != [] {
      NeverUnbegun(view, stmts[..|stmts| - 1]);
    }
  }

  lemma OutsideStep(c: Setup, start: Conn, ran: seq<Entry>, now: Conn, e: Entry, now': Conn)
    requires Follows(c, start, ran, now) && Outside(c, now, e, now')
    ensures Follows(c, start, ran + [e], now')
  {
    ViaStep(ran, e, OnPrimary);
    AutoStep(start.tables, Via(ran, OnPrimary), e.stmt);
    ViaStep(ran, e, InCallerTx);
    RunAllStep(start.caller, Via(ran, InCallerTx), e.stmt);
    OutsideLazy(c, start, ran, now, e, now');
  }

  lemma StepFollows(c: Setup, start: Conn, ran: seq<Entry>, now: Conn, e: Entry, now': Conn)
    requires Follows(c, start, ran, now) && (Inside(c, now, e, now') || Outside(c, now, e, now'))
    ensures Follows(c, start, ran + [e], now')
  {
    if Inside(c, now, e, now') {
      InsideStep(c, start, ran, now, e, now');
    } else {
      OutsideStep(c, start, ran, now, e, now');
    }
  }

  // ---- a request that has ended ---------------------------------------------------------------

  /** Tables and attempts so far. */
  datatype Books = Books(tables: Db, begins: nat, commits: nat, rollbacks: nat)

  /**
   What the end of a request depends on: which begins fail, whether its handler succeeded, and
   whether the server lets it commit.
   */
  datatype Fortune = Fortune(fails: nat -> bool, succeeded: bool, commitWorks: bool)

  /**
   At most one begin succeeds and none is tried without a statement; commit is tried
   exactly for a begun transaction of a successful handler; rollback exactly for a
   begun transaction that was not committed.
   */
  ghost predicate Settled(f: Fortune, ran: seq<Entry>, was: Books, now: Books, committed: bool) {
    var k := FailedBegins(f.fails, was.begins, |ran|);
    var before := Auto(was.tables, Via(ran, OnPrimary));
    var begun := k < |ran|;
    && BeginsAt(ran, k)
    && now.begins == was.begins + k + (if begun then 1 else 0)
    && now.commits == was.commits + (if begun && f.succeeded then 1 else 0)
    && now.rollbacks == was.rollbacks + (if begun && !committed then 1 else 0)
    && (committed <==> begun && f.succeeded && f.commitWorks && Atomically(before, Via(ran, InTransaction)).Some?)
    && now.tables == Remains(was.tables, Via(ran, OnPrimary), Via(ran, InTransaction), f.succeeded && f.commitWorks)
  }

  /** Commit or rollback after the handler. */
  ghost predicate Concludes(f: Fortune, was: Books, mid: Conn, now: Books, committed: bool) {
    && (committed <==> mid.view.Working? && f.succeeded && f.commitWorks)
    && now.tables == (if committed then mid.view.db else mid.tables)
    && now.begins == mid.begins
    && now.commits == was.commits + (if !mid.view.NotBegun? && f.succeeded then 1 else 0)
    && now.rollbacks == was.rollbacks + (if !mid.view.NotBegun? && !committed then 1 else 0)
  }

  lemma ConcludingSettles(c: Setup, f: Fortune, ran: seq<Entry>, was: Books, start: Conn, mid: Conn, now: Books,
                          committed: bool)
    requires c.isLazy && c.fails == f.fails && start.view.NotBegun?
    requires start.tables == was.tables && start.begins == was.begins && Follows(c, start, ran, mid)
    requires Concludes(f, was, mid, now, committed)
    ensures Settled(f, ran, was, now, committed)
  {
    RunAllIsAtomic(mid.tables, Via(ran, InTransaction));
    if mid.view.NotBegun? {
      NoneVia(ran, InTransaction);
    }
  }

  /** For a request that entered bare and unmarked, the log says what Effect says, and the replica is out of reach. */
  lemma UnmarkedEffect(c: Setup, f: Fortune, ran: seq<Entry>, stmts: seq<Statement>, was: Books, now: Books,
                       committed: bool)
    requires Settled(f, ran, was, now, committed) && Logs(ran, stmts) && !c.readOnly && !c.hasTx && AllRouted(c, ran)
    ensures now.tables == Effect(was.tables, stmts, f.fails, was.begins, f.succeeded && f.commitWorks)
    ensures forall e | e in ran :: e.route.InTransaction? || e.route.OnPrimary?
  {
    LogSplits(ran, stmts, FailedBegins(f.fails, was.begins, |ran|));
  }

  // ---- theorems -------------------------------------------------------------------------

  /** What a request that may write does, given which of its begins fail and whether it commits. */
  function Effect(db: Db, stmts: seq<Statement>, fails: nat -> bool, from: nat, commits: bool): Db {
    var k := FailedBegins(fails, from, |stmts|);
    Remains(db, stmts[..k], stmts[k..], commits)
  }

  /** All of the statements if the request commits and none of them fails, and nothing otherwise. */
  function AllOrNothing(db: Db, stmts: seq<Statement>, commits: bool): Db {
    if commits && Atomically(db, stmts).Some? then Atomically(db, stmts).value else db
  }

  lemma AtomicIfBegun(db: Db, stmts: seq<Statement>, fails: nat -> bool, from: nat, commits: bool)
    requires !fails(from)
    ensures Effect(db, stmts, fails, from, commits) == AllOrNothing(db, stmts, commits)
  {
    var k := FailedBegins(fails, from, |stmts|);
    assert k == 0;
    assert stmts[k..] == stmts && stmts[..k] == [];
  }

  /** A single statement outlives its request exactly when its begin failed or the request commits. */
  lemma OneStatement(db: Db, s: Statement, fails: nat -> bool, from: nat, commits: bool)
    ensures Effect(db, [s], fails, from, commits) == if fails(from) || commits then After(db, s) else db
  {
    assert [s][..0] == [];
    if fails(from) {
      var k := FailedBegins(fails, from, |[s]|);
      assert k == 1 && [s][..k] == [s] && [s][k..] == [];
      assert Auto(db, [s]) == After(Auto(db, [s][..0]), s);
    } else {
      AtomicIfBegun(db, [s], fails, from, commits);
      assert Atomically(db, [s]) == match Exec(db, s) case Ok(d) => Some(d) case Err(_) => None;
    }
  }

  const ORPHAN := SInsertGroup("i", "t", GroupRow("n", "", 0, 0, 0))

  /** When the first begin fails, a request that fails still leaves its first statement behind. */
  lemma FailedBeginLeaksWrites(fails: nat -> bool, from: nat)
    requires fails(from)
    ensures Effect(EMPTY, [ORPHAN], fails, from, false) == After(EMPTY, ORPHAN) != EMPTY
  {
    var k := FailedBegins(fails, from, 1);
    assert [ORPHAN][..k] == [ORPHAN];
    assert Auto(EMPTY, [ORPHAN]) == After(EMPTY, ORPHAN) by {
      assert [ORPHAN][..0] == [];
    }
    assert GroupKey("i", "t") in After(EMPTY, ORPHAN).groups;
  }

  ghost predicate AlwaysAtomic(fails: nat -> bool, from: nat) {
    forall db: Db, stmts: seq<Statement>, commits: bool ::
      Effect(db, stmts, fails, from, commits) == AllOrNothing(db, stmts, commits)
  }

  /** Requests are all-or-nothing exactly when the first begin succeeds. */
  lemma AtomicExactlyWhenBegun(fails: nat -> bool, from: nat)
    ensures AlwaysAtomic(fails, from) <==> !fails(from)
  {
    if fails(from) {
      FailedBeginLeaksWrites(fails, from);
      assert Effect(EMPTY, [ORPHAN], fails, from, false) != AllOrNothing(EMPTY, [ORPHAN], false);
    } else {
      forall db: Db, stmts: seq<Statement>, commits: bool
        ensures Effect(db, stmts, fails, from, commits) == AllOrNothing(db, stmts, commits)
      {
        AtomicIfBegun(db, stmts, fails, from, commits);
      }
    }
  }

  /** The second statement of UpdateGroupsForUser fails when one of the groups does not exist. */
  lemma MissingGroupFails(db: Db, stmts: seq<Statement>, u: string, groups: set<GroupId>, now: int, missing: GroupId)
    requires Valid(db) && SetsGroups(stmts, u, groups, now) && missing in groups && !IsLive(db, missing)
    ensures Exec(PruneUser(db, u, groups), stmts[1]).Err?
  {
    var rows := stmts[1].rows;
    assert MemberKey(missing, u) in Elements(rows);
    var i :| 0 <= i < |rows| && rows[i] == MemberKey(missing, u);
    assert MemberKey(missing, u) !in db.members;
  }

  lemma TwoStatements(db: Db, s: Statement, t: Statement)
    ensures Auto(db, [s]) == After(db, s) && Auto(db, [s, t]) == After(After(db, s), t)
    ensures Atomically(db, [s]) == (match Exec(db, s) case Ok(d) => Some(d) case Err(_) => None)
    ensures Exec(After(db, s), t).Err? ==> Atomically(db, [s, t]).None?
  {
    assert [s][..0] == [] && [s, t][..1] == [s];
  }

  /** When the second of two statements fails, the first one survives exactly when the first begin failed. */
  lemma SecondFails(db: Db, s: Statement, t: Statement, fails: nat -> bool, from: nat, commits: bool)
    requires Exec(After(db, s), t).Err?
    ensures Effect(db, [s, t], fails, from, commits) == if fails(from) then After(db, s) else db
  {
    TwoStatements(db, s, t);
    var k := FailedBegins(fails, from, 2);
    if k == 0 {
      AtomicIfBegun(db, [s, t], fails, from, commits);
    } else if k == 1 {
      TwoStatements(After(db, s), t, t);
      assert [s, t][..1] == [s] && [s, t][1..] == [t];
    } else {
      assert [s, t][..2] == [s, t] && [s, t][2..] == [];
    }
  }

  /**
   A request that sets a user's groups and names a missing one leaves the
   memberships as they were, whatever status it reports, exactly when its first
   begin succeeds or there was nothing to prune.
   */
  lemma MissingGroupEffect(db: Db, stmts: seq<Statement>, u: string, groups: set<GroupId>, now: int, missing: GroupId,
                           fails: nat -> bool, from: nat, commits: bool)
    requires Valid(db) && SetsGroups(stmts, u, groups, now) && missing in groups && !IsLive(db, missing)
    ensures Effect(db, stmts, fails, from, commits) == if fails(from) then PruneUser(db, u, groups) else db
    ensures !fails(from) ==> Effect(db, stmts, fails, from, commits) == db
    ensures var db' := Effect(db, stmts, fails, from, commits);
            && SameButMembers(db, db') && (forall m: MemberKey | m.user != u :: SameMember(db, db', m))
            && (fails(from) ==>
                  && (forall m: MemberKey | m.user == u && m.group in groups :: SameMember(db, db', m))
                  && (forall m: MemberKey | m.user == u && m.group !in groups :: m !in db'.members))
  {
    PruneUserRows(db, u, groups);
    MissingGroupFails(db, stmts, u, groups, now, missing);
    SecondFails(db, stmts[0], stmts[1], fails, from, commits);
    assert stmts == [stmts[0], stmts[1]];
  }
}
