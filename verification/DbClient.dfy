/**
 The database client and its request middleware: the lazily begun transaction,
 the routing of statements, and commit or rollback by response status.
 */
module DbClient {
  import opened Schema
  import opened ReplicaLag
  import opened Transactions

  /** An open server-side transaction. */
  class Tx {
    var work: Db
    var aborted: bool

    constructor (db: Db)
      ensures work == db && !aborted
    {
      work, aborted := db, false;
    }
  }

  class LazyTx {
    var tx: Tx?
    var committed: bool

    constructor ()
      ensures tx == null && !committed
    {
      tx, committed := null, false;
    }
  }

  /** The three context values that Statement looks at. */
  datatype Context = Context(lazyTx: LazyTx?, tx: Tx?, readOnly: bool)

  /** The transaction begun by a lazyTx is not the one a caller attached: WithTx keeps it to itself. */
  ghost predicate Separate(ctx: Context)
    reads ctx.lazyTx
  {
    ctx.lazyTx != null && ctx.lazyTx.tx != null ==> ctx.lazyTx.tx != ctx.tx
  }

  datatype Runner = TxRunner(tx: Tx) | PrimaryRunner | ReplicaRunner

  function ViewTx(tx: Tx?): TxView
    reads tx
  {
    if tx == null then NotBegun else if tx.aborted then Aborted else Working(tx.work)
  }

  /** How a request ends: normally, with the error that WithTx returns, or by a panic. */
  datatype End = Done | Failure | Panicked

  /** Every statement sent to the replica found it caught up. */
  ghost predicate Justified(log: seq<Entry>, hasReplica: bool, limit: Millis) {
    forall e | e in log && e.route.OnReplica? :: hasReplica && CaughtUp(e.samples, limit)
  }

  class Client {
    /** The committed tables of the primary. */
    var tables: Db
    var replicaLag: Millis
    var monitoring: bool
    const hasReplica: bool
    const limit: Millis
    /** Attempts so far, and which attempts the server refuses. */
    var begins: nat
    var commits: nat
    var rollbacks: nat
    var sent: nat
    const beginFails: nat -> bool
    const commitFails: nat -> bool
    const refuses: nat -> bool
    ghost var samples: seq<Sample>
    ghost var log: seq<Entry>

    /**
     The monitor's value is the one its samples call for, and under a finite limit
     no statement ever reached a replica that was not caught up at that moment.
     */
    ghost predicate Valid()
      reads this`replicaLag, this`monitoring, this`samples, this`log
    {
      && replicaLag == Stored(samples) && monitoring == (MissingRelation !in samples)
      && (limit < MAX_INT64 ==> Justified(log, hasReplica, limit))
    }

    constructor (db: Db, hasReplica: bool, maxLagMs: Millis, beginFails: nat -> bool, commitFails: nat -> bool,
                 refuses: nat -> bool)
      ensures Valid() && tables == db && log == [] && samples == []
      ensures this.hasReplica == hasReplica && limit == (if maxLagMs <= 0 then 1000 else maxLagMs)
      ensures begins == commits == rollbacks == sent == 0
      ensures this.beginFails == beginFails && this.commitFails == commitFails && this.refuses == refuses
    {
      tables := db;
      replicaLag, monitoring := MAX_INT64, true;
      this.hasReplica, limit := hasReplica, Limit(maxLagMs);
      begins, commits, rollbacks, sent := 0, 0, 0, 0;
      this.beginFails, this.commitFails, this.refuses := beginFails, commitFails, refuses;
      samples, log := [], [];
    }

    /** One tick of monitorReplicationLag; after it has stopped, nothing happens any more. */
    method MonitorTick(s: Sample)
      requires Valid()
      modifies this`replicaLag, this`monitoring, this`samples
      ensures Valid() && samples == old(samples) + [s]
    {
      StoredStep(samples, s);
      if monitoring {
        match s {
          case MissingRelation => monitoring := false;
          case QueryError => replicaLag := MAX_INT64;
          case Row(count, lag) =>
            var lagMs := lag;
            if count == 0 {
              lagMs := MAX_INT64;
            }
            replicaLag := lagMs;
        }
      }
      samples := samples + [s];
    }

    /** lazyTx.get: begins on first use, and again after every failed attempt. */
    method Get(lt: LazyTx) returns (tx: Tx?)
      modifies lt`tx, this`begins
      ensures tx == lt.tx
      ensures old(lt.tx) != null ==> tx == old(lt.tx) && begins == old(begins)
      ensures old(lt.tx) == null ==> begins == old(begins) + 1 && (tx == null <==> beginFails(old(begins)))
      ensures old(lt.tx) == null && tx != null ==> fresh(tx) && tx.work == tables && !tx.aborted
    {
      if lt.tx != null {
        return lt.tx;
      }
      begins := begins + 1;
      if beginFails(begins - 1) {
        return null;
      }
      var begun := new Tx(tables);
      lt.tx := begun;
      return begun;
    }

    /** Statement: the lazy transaction, the context's transaction, a fresh replica, or the primary. */
    method Statement(ctx: Context) returns (r: Runner)
      requires Valid()
      modifies if ctx.lazyTx == null then {} else {ctx.lazyTx}, this`begins
      ensures Valid()
      ensures ctx.lazyTx != null ==> ctx.lazyTx.committed == old(ctx.lazyTx.committed)
      ensures ctx.lazyTx == null ==> begins == old(begins)
      ensures ctx.lazyTx != null && old(ctx.lazyTx.tx) != null ==>
              ctx.lazyTx.tx == old(ctx.lazyTx.tx) && begins == old(begins)
      ensures ctx.lazyTx != null && old(ctx.lazyTx.tx) == null ==>
                begins == old(begins) + 1 && (ctx.lazyTx.tx == null <==> beginFails(old(begins)))
      ensures ctx.lazyTx != null && old(ctx.lazyTx.tx) == null && ctx.lazyTx.tx != null ==>
                fresh(ctx.lazyTx.tx) && ctx.lazyTx.tx.work == tables && !ctx.lazyTx.tx.aborted
      ensures r == if ctx.lazyTx != null && ctx.lazyTx.tx != null then TxRunner(ctx.lazyTx.tx)
                   else if ctx.tx != null then TxRunner(ctx.tx)
                   else if ctx.readOnly && hasReplica && Stored(samples) <= limit then ReplicaRunner
                   else PrimaryRunner
    {
      if ctx.lazyTx != null {
        var tx := Get(ctx.lazyTx);
        if tx != null {
          return TxRunner(tx);
        }
      }
      if ctx.tx != null {
        return TxRunner(ctx.tx);
      }
      if ctx.readOnly && hasReplica {
        if replicaLag > limit {
          return PrimaryRunner;
        }
        return ReplicaRunner;
      }
      return PrimaryRunner;
    }

    /** A statement in a transaction: after an error the server refuses all further ones. */
    method RunInTx(tx: Tx, stmt: Schema.Statement)
      modifies tx
      ensures ViewTx(tx) == RunIn(old(ViewTx(tx)), stmt)
    {
      if !tx.aborted {
        match Exec(tx.work, stmt)
        case Ok(d) => tx.work := d;
        case Err(_) => tx.aborted := true;
      }
    }

    function SetupOf(ctx: Context): Setup {
      Setup(ctx.lazyTx != null, ctx.tx != null, ctx.readOnly, hasReplica, limit, beginFails)
    }

    function Now(ctx: Context): Conn
      reads this`tables, this`begins, ctx.lazyTx, if ctx.lazyTx == null then null else ctx.lazyTx.tx, ctx.tx
    {
      Conn(tables, begins, if ctx.lazyTx == null then NotBegun else ViewTx(ctx.lazyTx.tx), ViewTx(ctx.tx))
    }

    /** The runner is the one this route stands for. */
    ghost predicate RunsVia(ctx: Context, r: Runner, route: Route)
      reads ctx.lazyTx
    {
      match route
      case InTransaction => ctx.lazyTx != null && ctx.lazyTx.tx != null && r == TxRunner(ctx.lazyTx.tx)
      case InCallerTx => ctx.tx != null && r == TxRunner(ctx.tx)
      case OnPrimary => r == PrimaryRunner
      case OnReplica => r == ReplicaRunner
    }

    /** Statement, as a step of the request's view. */
    method Choose(ctx: Context) returns (r: Runner, ghost route: Route)
      requires Valid() && Separate(ctx)
      modifies if ctx.lazyTx == null then {} else {ctx.lazyTx}, this`begins
      ensures Valid() && Separate(ctx) && RunsVia(ctx, r, route)
      ensures Chooses(SetupOf(ctx), old(Now(ctx)), route, samples, Now(ctx))
      ensures ctx.lazyTx != null ==>
                ctx.lazyTx.committed == old(ctx.lazyTx.committed)
                && (ctx.lazyTx.tx == old(ctx.lazyTx.tx) || fresh(ctx.lazyTx.tx))
    {
      r := Statement(ctx);
      route := if ctx.lazyTx != null && ctx.lazyTx.tx != null then InTransaction else Elsewhere(SetupOf(ctx), samples);
    }

    /** Runs a statement where it was routed. */
    method Run(ctx: Context, r: Runner, ghost route: Route, stmt: Schema.Statement)
      requires Valid() && Separate(ctx) && RunsVia(ctx, r, route)
      modifies this`tables, if r.TxRunner? then {r.tx} else {}
      ensures Valid() && Separate(ctx) && Now(ctx) == Executed(old(Now(ctx)), route, stmt)
    {
      match r {
        case TxRunner(tx) => RunInTx(tx, stmt);
        case PrimaryRunner => tables := After(tables, stmt);
        case ReplicaRunner =>
      }
    }

    /** The entry in the log; a route to the replica is justified by the samples so far. */
    ghost method Record(e: Entry)
      requires Valid() && e.samples == samples
      requires e.route.OnReplica? ==> hasReplica && Stored(samples) <= limit
      modifies this`log
      ensures Valid() && log == old(log) + [e]
    {
      if limit < MAX_INT64 {
        StoredMeansCaughtUp(samples, limit);
      }
      log := log + [e];
    }

    /** Routes a statement, numbers it and enters it in the log. */
    method Prepare(ctx: Context, stmt: Schema.Statement) returns (r: Runner, taken: Schema.Statement, ghost e: Entry)
      requires Valid() && Separate(ctx)
      modifies this`begins, this`log, this`sent
      modifies if ctx.lazyTx == null then {} else {ctx.lazyTx}
      ensures Valid() && Separate(ctx) && log == old(log) + [e] && sent == old(sent) + 1
      ensures e.stmt == taken == if refuses(old(sent)) then SRefused(stmt) else stmt
      ensures RunsVia(ctx, r, e.route) && Chooses(SetupOf(ctx), old(Now(ctx)), e.route, e.samples, Now(ctx))
      ensures ctx.lazyTx != null ==>
                ctx.lazyTx.committed == old(ctx.lazyTx.committed)
                && (ctx.lazyTx.tx == old(ctx.lazyTx.tx) || fresh(ctx.lazyTx.tx))
    {
      taken := if refuses(sent) then SRefused(stmt) else stmt;
      sent := sent + 1;
      ghost var route;
      r, route := Choose(ctx);
      e := Entry(taken, route, samples);
      Record(e);
    }

    /** One statement of a handler: where it goes and what it does there, refused by the server or not. */
    method Query(ctx: Context, stmt: Schema.Statement) returns (ghost e: Entry)
      requires Valid() && Separate(ctx)
      modifies this`tables, this`begins, this`log, this`sent
      modifies if ctx.lazyTx == null then {} else {ctx.lazyTx}
      modifies if ctx.lazyTx == null || ctx.lazyTx.tx == null then {} else {ctx.lazyTx.tx}
      modifies if ctx.tx == null then {} else {ctx.tx}
      ensures Valid() && Separate(ctx) && log == old(log) + [e] && sent == old(sent) + 1
      ensures e.stmt == if refuses(old(sent)) then SRefused(stmt) else stmt
      ensures Inside(SetupOf(ctx), old(Now(ctx)), e, Now(ctx)) || Outside(SetupOf(ctx), old(Now(ctx)), e, Now(ctx))
      ensures ctx.lazyTx != null ==>
                ctx.lazyTx.committed == old(ctx.lazyTx.committed)
                && (ctx.lazyTx.tx == old(ctx.lazyTx.tx) || fresh(ctx.lazyTx.tx))
    {
      var r, taken;
      r, taken, e := Prepare(ctx, stmt);
      ghost var mid := Now(ctx);
      Run(ctx, r, e.route, taken);
      BothHalves(SetupOf(ctx), old(Now(ctx)), e, mid);
    }

    // ---- handlers ---------------------------------------------------------------------------

    /** The statements of a script, as the server takes them from number first on, have run. */
    ghost predicate Logged(logged: seq<Entry>, ran: seq<Entry>, first: nat, script: seq<Action>)
      reads this`log, this`sent
    {
      LoggedAs(log, sent, logged, ran, refuses, first, script)
    }

    /** One more statement. */
    method Follow(ctx: Context, stmt: Schema.Statement, ghost start: Conn, ghost ran: seq<Entry>)
      returns (ghost more: seq<Entry>)
      requires Valid() && Separate(ctx) && Follows(SetupOf(ctx), start, ran, Now(ctx))
      modifies this`tables, this`begins, this`log, this`sent
      modifies if ctx.lazyTx == null then {} else {ctx.lazyTx}
      modifies if ctx.lazyTx == null || ctx.lazyTx.tx == null then {} else {ctx.lazyTx.tx}
      modifies if ctx.tx == null then {} else {ctx.tx}
      ensures Valid() && Separate(ctx) && Follows(SetupOf(ctx), start, ran + more, Now(ctx))
      ensures log == old(log) + more && sent == old(sent) + 1 && LogsOne(more, Action.Query(stmt), refuses, old(sent))
      ensures ctx.lazyTx != null ==>
                ctx.lazyTx.committed == old(ctx.lazyTx.committed)
                && (ctx.lazyTx.tx == old(ctx.lazyTx.tx) || fresh(ctx.lazyTx.tx))
    {
      ghost var e := Query(ctx, stmt);
      StepFollows(SetupOf(ctx), start, ran, old(Now(ctx)), e, Now(ctx));
      more := [e];
    }

    /** One action of a handler. */
    method Perform(ctx: Context, action: Action, status: int, ghost start: Conn, ghost ran: seq<Entry>)
      returns (status': int, ghost more: seq<Entry>)
      requires Valid() && Separate(ctx) && Follows(SetupOf(ctx), start, ran, Now(ctx))
      modifies this`tables, this`begins, this`log, this`sent, this`replicaLag, this`monitoring, this`samples
      modifies if ctx.lazyTx == null then {} else {ctx.lazyTx}
      modifies if ctx.lazyTx == null || ctx.lazyTx.tx == null then {} else {ctx.lazyTx.tx}
      modifies if ctx.tx == null then {} else {ctx.tx}
      ensures Valid() && Separate(ctx) && Follows(SetupOf(ctx), start, ran + more, Now(ctx))
      ensures log == old(log) + more && sent == old(sent) + |more|
      ensures status' == (if action.WriteHeader? then action.code else status)
      ensures LogsOne(more, action, refuses, old(sent))
      ensures ctx.lazyTx != null ==>
                ctx.lazyTx.committed == old(ctx.lazyTx.committed)
                && (ctx.lazyTx.tx == old(ctx.lazyTx.tx) || fresh(ctx.lazyTx.tx))
    {
      status', more := status, [];
      if action.Query? {
        more := Follow(ctx, action.stmt, start, ran);
      } else {
        assert ran + more == ran;
        if action.Tick? {
          MonitorTick(action.sample);
        } else {
          status' := action.code;
        }
      }
    }

    /** The next action of a script. */
    method Advance(ctx: Context, script: seq<Action>, i: nat, status: int,
                   ghost start: Conn, ghost logged: seq<Entry>, ghost first: nat, ghost ran: seq<Entry>)
      returns (status': int, ghost ran': seq<Entry>)
      requires Valid() && Separate(ctx) && Follows(SetupOf(ctx), start, ran, Now(ctx))
      requires i < |script| && status == Status(script[..i]) && Logged(logged, ran, first, script[..i])
      modifies this`tables, this`begins, this`log, this`sent, this`replicaLag, this`monitoring, this`samples
      modifies if ctx.lazyTx == null then {} else {ctx.lazyTx}
      modifies if ctx.lazyTx == null || ctx.lazyTx.tx == null then {} else {ctx.lazyTx.tx}
      modifies if ctx.tx == null then {} else {ctx.tx}
      ensures Valid() && Separate(ctx) && Follows(SetupOf(ctx), start, ran', Now(ctx))
      ensures status' == Status(script[..i + 1]) && Logged(logged, ran', first, script[..i + 1])
      ensures ctx.lazyTx != null ==>
                ctx.lazyTx.committed == old(ctx.lazyTx.committed)
                && (ctx.lazyTx.tx == old(ctx.lazyTx.tx) || fresh(ctx.lazyTx.tx))
    {
      ghost var more;
      status', more := Perform(ctx, script[i], status, start, ran);
      ScriptStep(old(log), log, old(sent), sent, logged, ran, more, refuses, first, script, i);
      ran' := ran + more;
    }

    /** A whole handler; the result is the status its response writer holds at the end. */
    method Handle(ctx: Context, script: seq<Action>) returns (status: int, ghost ran: seq<Entry>)
      requires Valid() && Separate(ctx)
      modifies this`tables, this`begins, this`log, this`sent, this`replicaLag, this`monitoring, this`samples
      modifies if ctx.lazyTx == null then {} else {ctx.lazyTx}
      modifies if ctx.lazyTx == null || ctx.lazyTx.tx == null then {} else {ctx.lazyTx.tx}
      modifies if ctx.tx == null then {} else {ctx.tx}
      ensures Valid() && Separate(ctx) && status == Status(script) && Logged(old(log), ran, old(sent), script)
      ensures Follows(SetupOf(ctx), old(Now(ctx)), ran, Now(ctx))
      ensures ctx.lazyTx != null ==>
                ctx.lazyTx.committed == old(ctx.lazyTx.committed)
                && (ctx.lazyTx.tx == old(ctx.lazyTx.tx) || fresh(ctx.lazyTx.tx))
    {
      status, ran := 200, [];
      NothingRan(SetupOf(ctx), Now(ctx));
      for i := 0 to |script|
        invariant Valid() && Separate(ctx) && status == Status(script[..i])
        invariant Logged(old(log), ran, old(sent), script[..i])
        invariant Follows(SetupOf(ctx), old(Now(ctx)), ran, Now(ctx))
        invariant ctx.lazyTx != null ==>
                    ctx.lazyTx.committed == old(ctx.lazyTx.committed)
                    && (ctx.lazyTx.tx == old(ctx.lazyTx.tx) || fresh(ctx.lazyTx.tx))
      {
        status, ran := Advance(ctx, script, i, status, old(Now(ctx)), old(log), old(sent), ran);
      }
      assert script[..|script|] == script;
    }

    // ---- transactions -----------------------------------------------------------------------

    ghost function BooksOf(): Books
      reads this`tables, this`begins, this`commits, this`rollbacks
    {
      Books(tables, begins, commits, rollbacks)
    }

    /** Commit: refused by the server when it is down or when a statement failed. */
    method Commit(lt: LazyTx) returns (ok: bool)
      requires lt.tx != null
      modifies this`tables, this`commits, lt`committed
      ensures commits == old(commits) + 1 && ok == (!commitFails(old(commits)) && !lt.tx.aborted)
      ensures tables == (if ok then lt.tx.work else old(tables)) && lt.committed == (ok || old(lt.committed))
    {
      commits := commits + 1;
      ok := !commitFails(commits - 1) && !lt.tx.aborted;
      if ok {
        tables := lt.tx.work;
        lt.committed := true;
      }
    }

    /** The part of WithTx that follows the handler: commit, and the deferred rollback. */
    method Conclude(lt: LazyTx, succeeded: bool, ghost mid: Conn) returns (err: bool)
      requires !lt.committed && mid.tables == tables && mid.begins == begins && mid.view == ViewTx(lt.tx)
      modifies this`tables, this`commits, this`rollbacks, lt`committed
      ensures Concludes(Fortune(beginFails, succeeded, !commitFails(old(commits))), old(BooksOf()),
                        mid, BooksOf(), lt.committed)
      ensures err <==> !succeeded || rollbacks != old(rollbacks)
    {
      err := !succeeded;
      if succeeded && lt.tx != null {
        var ok := Commit(lt);
        err := !ok;
      }
      if lt.tx != null && !lt.committed {
        rollbacks := rollbacks + 1;
      }
    }

    /** The handler and what follows it, on a new lazy transaction. */
    method Transact(ctx: Context, script: seq<Action>, panics: bool)
      returns (err: bool, ghost ran: seq<Entry>, ghost mid: Conn, ghost committed: bool)
      requires Valid() && ctx.lazyTx != null && ctx.lazyTx.tx == null && !ctx.lazyTx.committed
      modifies this, ctx.lazyTx
      modifies if ctx.tx == null then {} else {ctx.tx}
      ensures Valid() && Logged(old(log), ran, old(sent), script)
      ensures Follows(SetupOf(ctx), old(Now(ctx)), ran, mid) && mid.caller == ViewTx(ctx.tx)
      ensures var f := Fortune(beginFails, !panics && Status(script) < 400, !commitFails(old(commits)));
              Concludes(f, old(BooksOf()), mid, BooksOf(), committed)
      ensures err <==> panics || Status(script) >= 400 || rollbacks != old(rollbacks)
    {
      var status: int;
      status, ran := Handle(ctx, script);
      mid := Now(ctx);
      err := Conclude(ctx.lazyTx, !panics && status < 400, mid);
      committed := ctx.lazyTx.committed;
    }

    /** WithTx around a handler, which may panic after its last action. */
    method WithTx(ctx: Context, script: seq<Action>, panics: bool)
      returns (end: End, ghost ran: seq<Entry>, ghost committed: bool)
      requires Valid()
      modifies this
      modifies if ctx.tx == null then {} else {ctx.tx}
      ensures Valid() && Logged(old(log), ran, old(sent), script) && AllRouted(SetupOf(ctx), ran)
      ensures var f := Fortune(beginFails, !panics && Status(script) < 400, !commitFails(old(commits)));
              Settled(f, ran, old(BooksOf()), BooksOf(), committed)
      ensures ViewTx(ctx.tx) == RunAll(old(ViewTx(ctx.tx)), Via(ran, InCallerTx))
      ensures end == if panics then Panicked
                     else if Status(script) < 400 && rollbacks == old(rollbacks) then Done else Failure
    {
      var lt := new LazyTx();
      var err: bool;
      ghost var mid: Conn;
      ghost var inner := ctx.(lazyTx := lt);
      ghost var start := Now(inner);
      err, ran, mid, committed := Transact(ctx.(lazyTx := lt), script, panics);
      ghost var f := Fortune(beginFails, !panics && Status(script) < 400, !commitFails(old(commits)));
      ConcludingSettles(SetupOf(inner), f, ran, old(BooksOf()), start, mid, BooksOf(), committed);
      SameRoutes(SetupOf(inner), SetupOf(ctx), ran);
      end := if panics then Panicked else if err then Failure else Done;
    }

    /**
     TransactionMiddleware, which drops the result of WithTx. A read runs without a
     transaction of its own; anything else runs in one, and unless it came marked
     read-only or with a transaction it stays on the primary and does to the tables
     what Effect says.
     */
    method Serve(verb: string, ctx: Context, script: seq<Action>, panics: bool)
      returns (ghost ran: seq<Entry>, ghost committed: bool)
      requires Valid() && Separate(ctx)
      modifies this
      modifies if ctx.lazyTx == null then {} else {ctx.lazyTx}
      modifies if ctx.lazyTx == null || ctx.lazyTx.tx == null then {} else {ctx.lazyTx.tx}
      modifies if ctx.tx == null then {} else {ctx.tx}
      ensures Valid() && Logged(old(log), ran, old(sent), script)
      ensures verb == "GET" || verb == "HEAD" ==>
                && commits == old(commits) && rollbacks == old(rollbacks)
                && Follows(SetupOf(ctx).(readOnly := true), old(Now(ctx)), ran, Now(ctx))
      ensures (verb == "GET" || verb == "HEAD") && ctx.lazyTx == null && ctx.tx == null ==>
                && begins == old(begins) && tables == Auto(old(tables), Via(ran, OnPrimary))
                && forall e | e in ran ::
                     if hasReplica && Stored(e.samples) <= limit then e.route == OnReplica else e.route == OnPrimary
      ensures verb != "GET" && verb != "HEAD" ==>
                && AllRouted(SetupOf(ctx), ran)
                && ViewTx(ctx.tx) == RunAll(old(ViewTx(ctx.tx)), Via(ran, InCallerTx))
                && var f := Fortune(beginFails, !panics && Status(script) < 400, !commitFails(old(commits)));
                   Settled(f, ran, old(BooksOf()), BooksOf(), committed)
      ensures verb != "GET" && verb != "HEAD" && !ctx.readOnly && ctx.tx == null ==>
                && (forall e | e in ran :: e.route.InTransaction? || e.route.OnPrimary?)
                && tables == Effect(old(tables), Sent(Statements(script), refuses, old(sent)), beginFails, old(begins),
                                    !panics && Status(script) < 400 && !commitFails(old(commits)))
    {
      if verb == "GET" || verb == "HEAD" {
        var status;
        status, ran := Handle(ctx.(readOnly := true), script);
        committed := false;
        assert ctx.lazyTx == null ==> forall e | e in ran :: !e.route.InTransaction?;
      } else {
        var end;
        end, ran, committed := WithTx(ctx, script, panics);
        if !ctx.readOnly && ctx.tx == null {
          ghost var f := Fortune(beginFails, !panics && Status(script) < 400, !commitFails(old(commits)));
          UnmarkedEffect(SetupOf(ctx), f, ran, Sent(Statements(script), refuses, old(sent)),
                         old(BooksOf()), BooksOf(), committed);
        }
      }
    }
  }

  lemma NothingRan(c: Setup, now: Conn)
    ensures Follows(c, now, [], now)
  {}

  /** Whether there is a lazy transaction makes no difference to where the other statements go. */
  lemma SameRoutes(c: Setup, d: Setup, ran: seq<Entry>)
    requires AllRouted(c, ran) && d.(isLazy := c.isLazy) == c
    ensures AllRouted(d, ran)
  {}

  ghost predicate LoggedAs(log: seq<Entry>, sent: nat, logged: seq<Entry>, ran: seq<Entry>,
                           refuses: nat -> bool, first: nat, script: seq<Action>)
  {
    log == logged + ran && sent == first + |ran| && Logs(ran, Sent(Statements(script), refuses, first))
  }

  /** The log entries of one action that sends statement number n or nothing. */
  ghost predicate LogsOne(more: seq<Entry>, action: Action, refuses: nat -> bool, n: nat) {
    if action.Query? then |more| == 1 && more[0].stmt == if refuses(n) then SRefused(action.stmt) else action.stmt
    else more == []
  }

  lemma ScriptStep(log: seq<Entry>, log': seq<Entry>, sent: nat, sent': nat,
                   logged: seq<Entry>, ran: seq<Entry>, more: seq<Entry>,
                   refuses: nat -> bool, first: nat, script: seq<Action>, i: nat)
    requires i < |script| && LoggedAs(log, sent, logged, ran, refuses, first, script[..i])
    requires log' == log + more && sent' == sent + |more| && LogsOne(more, script[i], refuses, sent)
    ensures LoggedAs(log', sent', logged, ran + more, refuses, first, script[..i + 1])
    ensures Status(script[..i + 1]) == if script[i].WriteHeader? then script[i].code else Status(script[..i])
  {
    assert script[..i + 1][..i] == script[..i];
    assert (logged + ran) + more == logged + (ran + more);
  }
}
