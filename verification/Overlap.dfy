/**
 Requests that write grants, overlapping freely. Each runs in its own read-committed
 transaction: a statement sees what is committed, waits for row locks others hold, and
 shows its effect to others at its commit, while tuple calls show at once. Transactions
 begin, and a commit that follows a written tuple goes through; everything else may fail.
 */
module Overlap {
  import opened Schema

  /** What a removal is about; deleting a group cascades to its rows. */
  datatype Scope =
    | OneGrant(grant: GrantKey)
    | OfGroup(group: GroupId)
    | OfApp(app: string)
    | WholeGroup(group: GroupId)

  predicate Covers(s: Scope, a: GrantKey) {
    match s
    case OneGrant(b) => a == b
    case OfGroup(g) => a.group == g
    case OfApp(app) => a.app == app
    case WholeGroup(g) => a.group == g
  }

  /**
   A request under way: a row inserted and its tuple written or not; or rows deleted,
   and the tuples found then that are still to be taken.
   */
  datatype Flight =
    | Adding(grant: GrantKey, written: bool)
    | Removing(scope: Scope, gone: set<GrantKey>, left: set<GrantKey>)

  /** Live groups, ids handed out, committed rows of application_groups, tuples, requests under way. */
  datatype Shared = Shared(
    live: set<GroupId>,
    used: set<GroupId>,
    rows: set<GrantKey>,
    tuples: set<GrantKey>,
    flights: map<nat, Flight>
  )

  const NOBODY := Shared({}, {}, {}, {}, map[])

  datatype Move =
    | Create(group: GroupId)
    | Insert(flight: nat, grant: GrantKey)
    | WriteTuple(flight: nat)
    | Erase(flight: nat, scope: Scope)
    | Take(flight: nat, grant: GrantKey)
    | Commit(flight: nat)
    | Rollback(flight: nat)
    | Drop(group: GroupId)      // Sync: the group goes at once, without a transaction
    | Sweep(grant: GrantKey)    // Sync: a tuple of a group that is gone

  // ---- locks --------------------------------------------------------------------------------

  /** Some request holds the row of a: inserted or deleted it and has not ended. */
  ghost predicate Locked(s: Shared, a: GrantKey) {
    exists f | f in s.flights ::
      match s.flights[f]
      case Adding(b, _) => b == a
      case Removing(_, gone, _) => a in gone
  }

  /** Some request is deleting the group. */
  ghost predicate Closing(s: Shared, g: GroupId) {
    exists f | f in s.flights :: s.flights[f].Removing? && s.flights[f].scope == WholeGroup(g)
  }

  /** Some request is adding a row that refers to the group. */
  ghost predicate Referred(s: Shared, g: GroupId) {
    exists f | f in s.flights :: s.flights[f].Adding? && s.flights[f].grant.group == g
  }

  /** The committed rows a removal selects. */
  function Selected(s: Shared, scope: Scope): set<GrantKey> {
    set a | a in s.rows && Covers(scope, a)
  }

  /** The group's row and its rows in application_groups can be deleted now. */
  ghost predicate Free(s: Shared, g: GroupId) {
    !Closing(s, g) && !Referred(s, g)
  }

  // ---- moves --------------------------------------------------------------------------------

  ghost predicate Enabled(s: Shared, m: Move) {
    match m
    case Create(g) => g !in s.used
    case Insert(f, a) =>
      f !in s.flights && a.group in s.live && a !in s.rows && !Locked(s, a) && !Closing(s, a.group)
    case WriteTuple(f) => f in s.flights && s.flights[f].Adding? && !s.flights[f].written
    case Erase(f, scope) =>
      && f !in s.flights
      && (forall a | a in Selected(s, scope) :: !Locked(s, a))
      && (scope.WholeGroup? ==> Free(s, scope.group))
    case Take(f, a) => f in s.flights && s.flights[f].Removing? && Covers(s.flights[f].scope, a)
    case Commit(f) =>
      f in s.flights && if s.flights[f].Adding? then s.flights[f].written else s.flights[f].left == {}
    case Rollback(f) => f in s.flights && (s.flights[f].Adding? ==> !s.flights[f].written)
    case Drop(g) => Free(s, g) && forall a | a in Selected(s, WholeGroup(g)) :: !Locked(s, a)
    case Sweep(a) => a.group !in s.live
  }

  /** The end of a request that succeeded. */
  function Committed(s: Shared, f: nat): Shared
    requires f in s.flights
  {
    match s.flights[f]
    case Adding(a, _) => s.(rows := s.rows + {a}, flights := s.flights - {f})
    case Removing(scope, gone, _) =>
      s.(rows := s.rows - gone,
         live := if scope.WholeGroup? then s.live - {scope.group} else s.live,
         flights := s.flights - {f})
  }

  function Apply(s: Shared, m: Move): Shared
    requires Enabled(s, m)
  {
    match m
    case Create(g) => s.(live := s.live + {g}, used := s.used + {g})
    case Insert(f, a) => s.(flights := s.flights[f := Adding(a, false)])
    case WriteTuple(f) =>
      var a := s.flights[f].grant;
      s.(tuples := s.tuples + {a}, flights := s.flights[f := Adding(a, true)])
    case Erase(f, scope) =>
      var left := set a | a in s.tuples && Covers(scope, a);
      s.(flights := s.flights[f := Removing(scope, Selected(s, scope), left)])
    case Take(f, a) =>
      var fl := s.flights[f];
      s.(tuples := s.tuples - {a}, flights := s.flights[f := fl.(left := fl.left - {a})])
    case Commit(f) => Committed(s, f)
    case Rollback(f) => s.(flights := s.flights - {f})
    case Drop(g) => s.(live := s.live - {g}, rows := s.rows - Selected(s, WholeGroup(g)))
    case Sweep(a) => s.(tuples := s.tuples - {a})
  }

  ghost predicate Run(s: Shared, moves: seq<Move>, s': Shared)
    decreases |moves|
  {
    if moves == [] then s' == s
    else Enabled(s, moves[0]) && Run(Apply(s, moves[0]), moves[1..], s')
  }

  // ---- the invariant ------------------------------------------------------------------------

  ghost predicate FlightOk(s: Shared, fl: Flight) {
    match fl
    case Adding(a, _) => a !in s.rows && a.group in s.live && !Closing(s, a.group)
    case Removing(scope, gone, left) =>
      && gone <= s.rows
      && (forall a | a in gone && a in s.tuples :: a in left)
      && (scope.WholeGroup? ==> Selected(s, scope) <= gone)
  }

  /** No two requests hold the same row, or delete the same group. */
  ghost predicate Apart(x: Flight, y: Flight) {
    match x
    case Adding(a, _) => y.Adding? ==> y.grant != a
    case Removing(scope, gone, _) =>
      y.Removing? ==> gone !! y.gone && (scope.WholeGroup? ==> y.scope != scope)
  }

  /** A tuple of a live group has its committed row, or the request that wrote it has not ended. */
  ghost predicate Backed(s: Shared, a: GrantKey) {
    a in s.rows || exists f | f in s.flights :: s.flights[f] == Adding(a, true)
  }

  ghost predicate Inv(s: Shared) {
    && s.live <= s.used
    && (forall a | a in s.rows :: a.group in s.live)
    && (forall a | a in s.tuples :: a.group in s.used)
    && (forall f | f in s.flights :: FlightOk(s, s.flights[f]))
    && (forall f, h | f in s.flights && h in s.flights && f != h :: Apart(s.flights[f], s.flights[h]))
    && (forall a | a in s.tuples && a.group in s.live :: Backed(s, a))
  }

  lemma CreateKeepsInv(s: Shared, g: GroupId)
    requires Inv(s) && Enabled(s, Create(g))
    ensures Inv(Apply(s, Create(g)))
  {
    var s' := Apply(s, Create(g));
    assert s'.flights == s.flights;
    forall f | f in s'.flights ensures FlightOk(s', s'.flights[f]) {
      assert FlightOk(s, s.flights[f]);
    }
    forall a | a in s'.tuples && a.group in s'.live ensures Backed(s', a) {
      assert Backed(s, a);
    }
  }

  lemma InsertKeepsInv(s: Shared, f: nat, a: GrantKey)
    requires Inv(s) && Enabled(s, Insert(f, a))
    ensures Inv(Apply(s, Insert(f, a)))
  {
    var s' := Apply(s, Insert(f, a));
    forall g ensures Closing(s', g) ==> Closing(s, g) {}
    forall h | h in s'.flights ensures FlightOk(s', s'.flights[h]) {
      if h != f {
        assert FlightOk(s, s.flights[h]);
      }
    }
    forall b | b in s'.tuples && b.group in s'.live ensures Backed(s', b) {
      assert Backed(s, b);
      BackedKept(s, s', f, b);
    }
  }

  /** A request that is not the one that wrote b's tuple comes, goes or changes without unbacking it. */
  lemma BackedKept(s: Shared, s': Shared, f: nat, b: GrantKey)
    requires Backed(s, b) && (b in s.rows ==> b in s'.rows)
    requires forall h | h in s.flights && h != f :: h in s'.flights && s'.flights[h] == s.flights[h]
    requires f in s.flights && s.flights[f] == Adding(b, true) ==> Backed(s', b)
    ensures Backed(s', b)
  {
    if b !in s.rows {
      var h :| h in s.flights && s.flights[h] == Adding(b, true);
    }
  }

  lemma WriteKeepsInv(s: Shared, f: nat)
    requires Inv(s) && Enabled(s, WriteTuple(f))
    ensures Inv(Apply(s, WriteTuple(f)))
  {
    var s' := Apply(s, WriteTuple(f));
    var a := s.flights[f].grant;
    assert FlightOk(s, s.flights[f]);
    forall g ensures Closing(s', g) ==> Closing(s, g) {}
    forall h | h in s'.flights ensures FlightOk(s', s'.flights[h]) {
      assert FlightOk(s, s.flights[h]);
    }
    forall h, k | h in s'.flights && k in s'.flights && h != k ensures Apart(s'.flights[h], s'.flights[k]) {
      assert Apart(s.flights[h], s.flights[k]);
    }
    forall b | b in s'.tuples && b.group in s'.live ensures Backed(s', b) {
      if b == a {
        assert s'.flights[f] == Adding(b, true);
      } else {
        assert Backed(s, b);
        BackedKept(s, s', f, b);
      }
    }
  }

  lemma EraseKeepsInv(s: Shared, f: nat, scope: Scope)
    requires Inv(s) && Enabled(s, Erase(f, scope))
    ensures Inv(Apply(s, Erase(f, scope)))
  {
    var s' := Apply(s, Erase(f, scope));
    forall h | h in s'.flights ensures FlightOk(s', s'.flights[h]) {
      if h != f {
        assert FlightOk(s, s.flights[h]);
        ErasedApart(s, scope, h);
        if s.flights[h].Adding? && Closing(s', s.flights[h].grant.group) {
          ClosingGrows(s, s', f, s.flights[h].grant.group);
        }
      }
    }
    forall h, k | h in s'.flights && k in s'.flights && h != k ensures Apart(s'.flights[h], s'.flights[k]) {
      if h != f && k != f {
        assert Apart(s.flights[h], s.flights[k]);
      } else {
        ErasedApart(s, scope, if h == f then k else h);
      }
    }
    forall b | b in s'.tuples && b.group in s'.live ensures Backed(s', b) {
      assert Backed(s, b);
      BackedKept(s, s', f, b);
    }
  }

  lemma ClosingGrows(s: Shared, s': Shared, f: nat, g: GroupId)
    requires f in s'.flights && s'.flights == s.flights[f := s'.flights[f]] && Closing(s', g)
    ensures Closing(s, g) || (s'.flights[f].Removing? && s'.flights[f].scope == WholeGroup(g))
  {
    var h :| h in s'.flights && s'.flights[h].Removing? && s'.flights[h].scope == WholeGroup(g);
  }

  /** The locks an erasing request finds free. */
  lemma ErasedApart(s: Shared, scope: Scope, h: nat)
    requires h in s.flights && (forall a | a in Selected(s, scope) :: !Locked(s, a))
    requires scope.WholeGroup? ==> Free(s, scope.group)
    ensures s.flights[h].Removing? ==>
              s.flights[h].gone !! Selected(s, scope) && (scope.WholeGroup? ==> s.flights[h].scope != scope)
    ensures s.flights[h].Adding? && scope.WholeGroup? ==> s.flights[h].grant.group != scope.group
  {
    HoldsLocks(s, h);
  }

  /** What a request under way keeps from others. */
  lemma HoldsLocks(s: Shared, h: nat)
    requires h in s.flights
    ensures s.flights[h].Adding? ==> Locked(s, s.flights[h].grant) && Referred(s, s.flights[h].grant.group)
    ensures s.flights[h].Removing? ==> forall a | a in s.flights[h].gone :: Locked(s, a)
    ensures s.flights[h].Removing? && s.flights[h].scope.WholeGroup? ==> Closing(s, s.flights[h].scope.group)
  {}

  lemma TakeKeepsInv(s: Shared, f: nat, a: GrantKey)
    requires Inv(s) && Enabled(s, Take(f, a))
    ensures Inv(Apply(s, Take(f, a)))
  {
    var s' := Apply(s, Take(f, a));
    forall g ensures Closing(s', g) ==> Closing(s, g) {
      if Closing(s', g) {
        var h :| h in s'.flights && s'.flights[h].Removing? && s'.flights[h].scope == WholeGroup(g);
        assert s.flights[h].scope == WholeGroup(g);
      }
    }
    forall h | h in s'.flights ensures FlightOk(s', s'.flights[h]) {
      assert FlightOk(s, s.flights[h]);
    }
    forall h, k | h in s'.flights && k in s'.flights && h != k ensures Apart(s'.flights[h], s'.flights[k]) {
      assert Apart(s.flights[h], s.flights[k]);
    }
    forall b | b in s'.tuples && b.group in s'.live ensures Backed(s', b) {
      assert Backed(s, b);
      BackedKept(s, s', f, b);
    }
  }

  /** An addition that ends keeps the other requests in order, committed or not. */
  lemma AdditionEnds(s: Shared, s': Shared, f: nat, h: nat)
    requires Inv(s) && f in s.flights && s.flights[f].Adding? && h in s.flights && h != f
    requires s' == s.(flights := s.flights - {f}) || s' == Committed(s, f)
    ensures FlightOk(s', s.flights[h])
  {
    assert FlightOk(s, s.flights[h]) && FlightOk(s, s.flights[f]) && Apart(s.flights[f], s.flights[h]);
    HoldsLocks(s, h);
    ClosingShrinks(s, s', f);
  }

  /** So does a removal. */
  lemma RemovalEnds(s: Shared, s': Shared, f: nat, h: nat)
    requires Inv(s) && f in s.flights && s.flights[f].Removing? && h in s.flights && h != f
    requires s' == s.(flights := s.flights - {f}) || s' == Committed(s, f)
    ensures FlightOk(s', s.flights[h])
  {
    assert FlightOk(s, s.flights[h]) && FlightOk(s, s.flights[f]) && Apart(s.flights[f], s.flights[h]);
    HoldsLocks(s, f);
    ClosingShrinks(s, s', f);
  }

  lemma ClosingShrinks(s: Shared, s': Shared, f: nat)
    requires s'.flights == s.flights - {f}
    ensures forall g | Closing(s', g) :: Closing(s, g)
  {
    forall g | Closing(s', g) ensures Closing(s, g) {
      var h :| h in s'.flights && s'.flights[h].Removing? && s'.flights[h].scope == WholeGroup(g);
      assert s.flights[h] == s'.flights[h];
    }
  }

  lemma CommitKeepsInv(s: Shared, f: nat)
    requires Inv(s) && Enabled(s, Commit(f))
    ensures Inv(Apply(s, Commit(f)))
  {
    var s' := Apply(s, Commit(f));
    assert FlightOk(s, s.flights[f]);
    forall h | h in s'.flights ensures FlightOk(s', s'.flights[h]) {
      if s.flights[f].Adding? {
        AdditionEnds(s, s', f, h);
      } else {
        RemovalEnds(s, s', f, h);
      }
    }
    forall b | b in s'.tuples && b.group in s'.live ensures Backed(s', b) {
      assert Backed(s, b);
      BackedKept(s, s', f, b);
    }
  }

  lemma RollbackKeepsInv(s: Shared, f: nat)
    requires Inv(s) && Enabled(s, Rollback(f))
    ensures Inv(Apply(s, Rollback(f)))
  {
    var s' := Apply(s, Rollback(f));
    forall h | h in s'.flights ensures FlightOk(s', s'.flights[h]) {
      if s.flights[f].Adding? {
        AdditionEnds(s, s', f, h);
      } else {
        RemovalEnds(s, s', f, h);
      }
    }
    forall b | b in s'.tuples && b.group in s'.live ensures Backed(s', b) {
      assert Backed(s, b);
      BackedKept(s, s', f, b);
    }
  }

  lemma DropKeepsInv(s: Shared, g: GroupId)
    requires Inv(s) && Enabled(s, Drop(g))
    ensures Inv(Apply(s, Drop(g)))
  {
    var s' := Apply(s, Drop(g));
    forall h | h in s'.flights ensures FlightOk(s', s'.flights[h]) {
      assert FlightOk(s, s.flights[h]);
      ErasedApart(s, WholeGroup(g), h);
      assert Closing(s', g) <==> Closing(s, g);
      forall k ensures Closing(s', k) <==> Closing(s, k) {}
    }
    forall b | b in s'.tuples && b.group in s'.live ensures Backed(s', b) {
      assert Backed(s, b);
    }
  }

  lemma SweepKeepsInv(s: Shared, a: GrantKey)
    requires Inv(s) && Enabled(s, Sweep(a))
    ensures Inv(Apply(s, Sweep(a)))
  {
    var s' := Apply(s, Sweep(a));
    forall h | h in s'.flights ensures FlightOk(s', s'.flights[h]) {
      assert FlightOk(s, s.flights[h]);
      forall k ensures Closing(s', k) <==> Closing(s, k) {}
    }
    forall b | b in s'.tuples && b.group in s'.live ensures Backed(s', b) {
      assert Backed(s, b);
    }
  }

  lemma MoveKeepsInv(s: Shared, m: Move)
    requires Inv(s) && Enabled(s, m)
    ensures Inv(Apply(s, m))
  {
    match m
    case Create(g) => CreateKeepsInv(s, g);
    case Insert(f, a) => InsertKeepsInv(s, f, a);
    case WriteTuple(f) => WriteKeepsInv(s, f);
    case Erase(f, scope) => EraseKeepsInv(s, f, scope);
    case Take(f, a) => TakeKeepsInv(s, f, a);
    case Commit(f) => CommitKeepsInv(s, f);
    case Rollback(f) => RollbackKeepsInv(s, f);
    case Drop(g) => DropKeepsInv(s, g);
    case Sweep(a) => SweepKeepsInv(s, a);
  }

  lemma {:induction false} RunKeepsInv(s: Shared, moves: seq<Move>, s': Shared)
    requires Inv(s) && Run(s, moves, s')
    ensures Inv(s')
    decreases |moves|
  {
    if moves != [] {
      MoveKeepsInv(s, moves[0]);
      RunKeepsInv(Apply(s, moves[0]), moves[1..], s');
    }
  }

  // ---- nothing waits but for a lock ---------------------------------------------------------

  /** With nothing under way, a row can be added exactly to a live group that lacks it, and anything can be removed. */
  lemma QuietNeverWaits(s: Shared, f: nat, a: GrantKey, scope: Scope, g: GroupId)
    requires s.flights == map[]
    ensures Enabled(s, Insert(f, a)) <==> a.group in s.live && a !in s.rows
    ensures Enabled(s, Erase(f, scope)) && Enabled(s, Drop(g))
    ensures Enabled(s, Create(g)) <==> g !in s.used
  {}

  /** A new request waits only for one that holds the row or is about the group. */
  lemma WaitsOnlyForLocks(s: Shared, f: nat, a: GrantKey)
    requires f !in s.flights && a.group in s.live && a !in s.rows
    ensures Enabled(s, Insert(f, a)) ||
            exists h | h in s.flights ::
              match s.flights[h]
              case Adding(b, _) => b == a
              case Removing(scope, gone, _) => a in gone || scope == WholeGroup(a.group)
    ensures Enabled(s, Erase(f, OneGrant(a)))
  {
    assert Selected(s, OneGrant(a)) == {};
  }

  /** A request under way can always go on: write its tuple or give up, commit, take the next tuple or give up. */
  lemma FlightsGoOn(s: Shared, f: nat)
    requires f in s.flights
    ensures match s.flights[f]
            case Adding(a, written) =>
              if written then Enabled(s, Commit(f)) && Apply(s, Commit(f)).rows == s.rows + {a}
              else
                && Enabled(s, Rollback(f)) && Enabled(s, WriteTuple(f))
                && Apply(s, WriteTuple(f)).tuples == s.tuples + {a}
            case Removing(scope, gone, left) =>
              && Enabled(s, Rollback(f)) && Apply(s, Rollback(f)).rows == s.rows
              && (Enabled(s, Commit(f)) <==> left == {})
              && (left == {} ==> Apply(s, Commit(f)).rows == s.rows - gone)
              && forall a | Covers(scope, a) :: Enabled(s, Take(f, a)) && Apply(s, Take(f, a)).tuples == s.tuples - {a}
  {}

  /** A removal deletes every committed row it is about and has every tuple of that kind to take. */
  lemma RemovalsSelect(s: Shared, f: nat, scope: Scope, g: GroupId)
    ensures Enabled(s, Erase(f, scope)) ==>
              var s' := Apply(s, Erase(f, scope));
              && f in s'.flights && s'.flights[f].Removing? && s'.flights[f].scope == scope
              && (forall a :: a in s'.flights[f].gone <==> a in s.rows && Covers(scope, a))
              && (forall a :: a in s'.flights[f].left <==> a in s.tuples && Covers(scope, a))
              && s'.rows == s.rows && s'.tuples == s.tuples && s'.live == s.live
    ensures Enabled(s, Drop(g)) ==>
              var s' := Apply(s, Drop(g));
              && s'.live == s.live - {g} && s'.tuples == s.tuples && s'.flights == s.flights
              && forall a :: a in s'.rows <==> a in s.rows && a.group != g
  {}

  /** What each removal is about. */
  lemma ScopesExactly(a: GrantKey, b: GrantKey, g: GroupId, app: string)
    ensures Covers(OneGrant(b), a) <==> a == b
    ensures Covers(OfGroup(g), a) <==> a.group == g
    ensures Covers(WholeGroup(g), a) <==> a.group == g
    ensures Covers(OfApp(app), a) <==> a.app == app
  {}

  // ---- theorems -----------------------------------------------------------------------------

  /**
   However requests overlap, a tuple of a live group has its committed row, or the
   addition that wrote it is still under way; so once all requests have ended, tuples
   of live groups are a subset of the rows.
   */
  lemma OverlapIsSafe(moves: seq<Move>, s: Shared, a: GrantKey)
    requires Run(NOBODY, moves, s) && a in s.tuples && a.group in s.live
    ensures Backed(s, a)
    ensures s.flights == map[] ==> a in s.rows
  {
    RunKeepsInv(NOBODY, moves, s);
    assert Backed(s, a);
  }

  ghost predicate Missing(s: Shared, a: GrantKey) {
    a in s.rows && a !in s.tuples
  }

  /** A removal takes the tuple of a committed row, or an addition commits whose tuple was taken meanwhile. */
  predicate Drops(s: Shared, m: Move, a: GrantKey) {
    || (m.Take? && m.grant == a && a in s.rows)
    || (m.Commit? && m.flight in s.flights && s.flights[m.flight].Adding?
        && s.flights[m.flight].grant == a && a !in s.tuples)
  }

  /** The other direction is lost exactly by such moves. */
  lemma MissingExactly(s: Shared, m: Move, a: GrantKey)
    requires Inv(s) && Enabled(s, m) && !Missing(s, a)
    ensures Missing(Apply(s, m), a) <==> Drops(s, m, a)
  {
    if m.Sweep? {
      assert a in s.rows ==> a.group in s.live;
    }
  }

  ghost predicate Complete(s: Shared) {
    forall a: GrantKey :: !Missing(s, a)
  }

  ghost predicate DropsNone(s: Shared, m: Move) {
    forall a: GrantKey :: !Drops(s, m, a)
  }

  /** Every state of the run is complete. */
  ghost predicate AlwaysComplete(s: Shared, moves: seq<Move>)
    decreases |moves|
  {
    Complete(s) && (moves != [] && Enabled(s, moves[0]) ==> AlwaysComplete(Apply(s, moves[0]), moves[1..]))
  }

  /** No move of the run drops a tuple. */
  ghost predicate NeverDrops(s: Shared, moves: seq<Move>)
    decreases |moves|
  {
    moves != [] && Enabled(s, moves[0]) ==> DropsNone(s, moves[0]) && NeverDrops(Apply(s, moves[0]), moves[1..])
  }

  /** Rows always have their tuples, however requests overlap, if and only if no move of the run drops one. */
  lemma {:induction false} OverlapIsCompleteExactly(s: Shared, moves: seq<Move>, s': Shared)
    requires Inv(s) && Complete(s) && Run(s, moves, s')
    ensures AlwaysComplete(s, moves) <==> NeverDrops(s, moves)
    decreases |moves|
  {
    if moves != [] {
      var next := Apply(s, moves[0]);
      MoveKeepsInv(s, moves[0]);
      forall a: GrantKey ensures Missing(next, a) <==> Drops(s, moves[0], a) {
        assert !Missing(s, a);
        MissingExactly(s, moves[0], a);
      }
      if Complete(next) {
        OverlapIsCompleteExactly(next, moves[1..], s');
      }
    }
  }

  // ---- an overlap that loses a tuple --------------------------------------------------------

  const GRANT := GrantKey("0", "app")
  const BOTH :=
    [Create("0"), Insert(0, GRANT), WriteTuple(0), Erase(1, OneGrant(GRANT)), Take(1, GRANT), Commit(1), Commit(0)]

  const GROUP_ONLY := NOBODY.(live := {"0"}, used := {"0"})

  /** The states of the schedule, one by one. */
  function Stage(n: nat): Shared
    requires n <= 7
  {
    match n
    case 0 => NOBODY
    case 1 => GROUP_ONLY
    case 2 => GROUP_ONLY.(flights := map[0 := Adding(GRANT, false)])
    case 3 => GROUP_ONLY.(tuples := {GRANT}, flights := map[0 := Adding(GRANT, true)])
    case 4 =>
      GROUP_ONLY.(tuples := {GRANT},
                  flights := map[0 := Adding(GRANT, true), 1 := Removing(OneGrant(GRANT), {}, {GRANT})])
    case 5 => GROUP_ONLY.(flights := map[0 := Adding(GRANT, true), 1 := Removing(OneGrant(GRANT), {}, {})])
    case 6 => GROUP_ONLY.(flights := map[0 := Adding(GRANT, true)])
    case _ => GROUP_ONLY.(rows := {GRANT})
  }

  lemma StageStep(n: nat)
    requires n < 7
    ensures Enabled(Stage(n), BOTH[n]) && Apply(Stage(n), BOTH[n]) == Stage(n + 1)
  {
    var s := Stage(n);
    if n == 3 {
      assert Selected(s, OneGrant(GRANT)) == {};
      assert (set a | a in s.tuples && Covers(OneGrant(GRANT), a)) == {GRANT};
    }
    if n == 4 {
      assert s.tuples - {GRANT} == {} && s.flights[1].left - {GRANT} == {};
      assert Apply(s, BOTH[n]).flights == Stage(5).flights;
    }
    if n == 5 {
      assert s.flights - {1} == Stage(6).flights;
      assert Apply(s, BOTH[n]).rows == {};
    }
    if n == 6 {
      assert s.flights - {0} == map[];
    }
  }

  lemma {:induction false} StagesRun(n: nat)
    requires n <= 7
    ensures Run(Stage(n), BOTH[n..], Stage(7))
    decreases 7 - n
  {
    if n < 7 {
      StageStep(n);
      assert BOTH[n..][0] == BOTH[n] && BOTH[n..][1..] == BOTH[n + 1..];
      StagesRun(n + 1);
    } else {
      assert BOTH[n..] == [];
    }
  }

  /**
   An addition and a removal of the same grant can overlap, both succeed and commit,
   and leave a row without its tuple: the DELETE does not see the uncommitted row, and
   the tuple is taken after it was written.
   */
  lemma OverlapCanLoseTuple()
    ensures Run(NOBODY, BOTH, Stage(7)) && Stage(7).flights == map[] && Missing(Stage(7), GRANT)
  {
    StagesRun(0);
    assert BOTH[0..] == BOTH;
  }
}
