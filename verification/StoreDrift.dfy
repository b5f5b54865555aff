/**
 Runs in which the stores do drift apart: the conditions of TwoStoreRuns cannot be
 dropped.
 */
module StoreDrift {
  import opened Schema
  import opened TwoStores
  import opened TwoStoreRuns
  import opened Decisions

  const GRANT := GrantKey("0", "app")
  const ROW := GroupRow("g", "", 0, 0, 0)
  const GROUP := Db(map[GroupKey("0", DEFAULT_TENANT) := ROW], map[], map[], {"0"})
  const MEMBER_ROW := MemberRow(DEFAULT_TENANT, ROLE_MEMBER, 0, 0)
  const JOINED_GROUP := GROUP.(members := map[MemberKey("0", "u") := MEMBER_ROW])
  const GRANTED := JOINED_GROUP.(grants := map[GRANT := GrantRow(DEFAULT_TENANT, 0, 0)])

  const FINE := Tx(true, true)
  const CREATE := Event(Other(SInsertGroup("0", DEFAULT_TENANT, ROW)), true, true, FINE)
  const ENROL := Event(Other(SUpsertMembers([MemberKey("0", "u")], 0)), true, true, FINE)
  const WORLDS := [World(EMPTY, {}), World(GROUP, {}), World(JOINED_GROUP, {})]

  lemma GroupIsCreated()
    ensures Step(WORLDS[0], CREATE, WORLDS[1])
  {
    assert After(EMPTY, CREATE.req.stmt) == GROUP;
    StepIsChange(WORLDS[0], CREATE, WORLDS[1]);
  }

  lemma UserIsEnrolled()
    ensures Step(WORLDS[1], ENROL, WORLDS[2])
  {
    var rows := ENROL.req.stmt.rows;
    assert (set m | m in rows) == {MemberKey("0", "u")};
    assert After(GROUP, ENROL.req.stmt) == JOINED_GROUP;
    StepIsChange(WORLDS[1], ENROL, WORLDS[2]);
  }

  /** A run of any length may start by creating a group with one user. */
  lemma Prologue(ws: seq<World>, es: seq<Event>)
    requires |ws| == |es| + 1 && WORLDS <= ws && [CREATE, ENROL] <= es
    requires forall i | 2 <= i < |es| :: Step(ws[i], es[i], ws[i + 1])
    ensures IsRun(ws, es)
  {
    GroupIsCreated();
    UserIsEnrolled();
    forall i | 0 <= i < |es| ensures Step(ws[i], es[i], ws[i + 1]) {
      assert i == 0 ==> ws[i] == WORLDS[0] && es[i] == CREATE && ws[i + 1] == WORLDS[1];
      assert i == 1 ==> ws[i] == WORLDS[1] && es[i] == ENROL && ws[i + 1] == WORLDS[2];
    }
  }

  lemma GrantIsInserted()
    ensures Exec(JOINED_GROUP, SInsertGrant(GRANT, 0)) == Ok(GRANTED)
    ensures After(JOINED_GROUP, SInsertGrant(GRANT, 0)) == GRANTED
    ensures Exec(GRANTED, SDeleteGrants({GRANT})).Ok? && After(GRANTED, SDeleteGrants({GRANT})) == JOINED_GROUP
  {
    assert DeleteGrants(GRANTED, {GRANT}).grants == map[];
  }

  /** Group, member and tuple are there, the row is not. */
  const ADRIFT := World(JOINED_GROUP, {TupleOf(GRANT)})

  lemma AdriftLetsIn()
    ensures Stray(ADRIFT, GRANT) && !Permitted(ADRIFT.db, "u", "app")
    ensures Base(ADRIFT) ==> Decision(ADRIFT, "u", "u", "app")
  {
    assert GroupKey("0", DEFAULT_TENANT) in JOINED_GROUP.groups;
    assert MemberKey("0", "u") in JOINED_GROUP.members;
    if Base(ADRIFT) {
      JoinInState(ADRIFT, "u", "u", "app");
      assert Effective(ADRIFT, GrantKey("0", "app"));
    }
  }

  /** The handler answers 200, the commit fails, and the error is dropped. */
  const UNCOMMITTED := Event(Add(GRANT, 0), true, true, Tx(true, false))

  lemma CommitFailureSteps()
    ensures Step(WORLDS[2], UNCOMMITTED, ADRIFT)
  {
    GrantIsInserted();
    StepIsChange(WORLDS[2], UNCOMMITTED, ADRIFT);
  }

  /** A failed commit is enough for the hook to let a user in without a row. */
  lemma CommitFailureStrands()
    ensures IsRun(WORLDS + [ADRIFT], [CREATE, ENROL, UNCOMMITTED])
    ensures Stray(ADRIFT, GRANT) && Decision(ADRIFT, "u", "u", "app") && !Permitted(ADRIFT.db, "u", "app")
  {
    CommitFailureSteps();
    var ws, es := WORLDS + [ADRIFT], [CREATE, ENROL, UNCOMMITTED];
    Prologue(ws, es);
    RunsKeepBase(ws, es, 3);
    assert ws[3] == ADRIFT;
    AdriftLetsIn();
  }

  const ADDED := Event(Add(GRANT, 0), true, true, FINE)
  /** The DELETE ran on its own, the tuple call failed, and the error answer rolls nothing back. */
  const HALF_REMOVED := Event(Remove(GRANT), true, false, Tx(false, true))
  const BACKED := World(GRANTED, {TupleOf(GRANT)})

  lemma FailedBeginSteps()
    ensures Step(WORLDS[2], ADDED, BACKED) && Step(BACKED, HALF_REMOVED, ADRIFT)
  {
    GrantIsInserted();
    StepIsChange(WORLDS[2], ADDED, BACKED);
    StepIsChange(BACKED, HALF_REMOVED, ADRIFT);
  }

  /** So is a removal whose begin and whose tuple call fail. */
  lemma FailedBeginStrands()
    ensures IsRun(WORLDS + [BACKED, ADRIFT], [CREATE, ENROL, ADDED, HALF_REMOVED])
    ensures Stray(ADRIFT, GRANT) && Decision(ADRIFT, "u", "u", "app") && !Permitted(ADRIFT.db, "u", "app")
  {
    FailedBeginSteps();
    var ws, es := WORLDS + [BACKED, ADRIFT], [CREATE, ENROL, ADDED, HALF_REMOVED];
    Prologue(ws, es);
    RunsKeepBase(ws, es, 4);
    assert ws[4] == ADRIFT;
    AdriftLetsIn();
  }

  /** The INSERT ran on its own and the tuple call failed. */
  const HALF_ADDED := Event(Add(GRANT, 0), true, false, Tx(false, true))

  lemma HalfAddedSteps()
    ensures Step(WORLDS[2], HALF_ADDED, World(GRANTED, {}))
  {
    GrantIsInserted();
    StepIsChange(WORLDS[2], HALF_ADDED, World(GRANTED, {}));
  }

  /** Group, member and row are there, the tuple is not. */
  const UNSUNG := World(GRANTED, {})

  lemma UnsungKeepsOut()
    ensures Missing(UNSUNG, GRANT) && Permitted(UNSUNG.db, "u", "app")
    ensures Base(UNSUNG) ==> !Decision(UNSUNG, "u", "u", "app")
  {
    assert MemberKey("0", "u") in GRANTED.members && GrantKey("0", "app") in GRANTED.grants;
    if Base(UNSUNG) {
      JoinInState(UNSUNG, "u", "u", "app");
    }
  }

  /** The other way round: a failed begin leaves a row that lets nobody in. */
  lemma FailedBeginLosesTuple()
    ensures IsRun(WORLDS + [UNSUNG], [CREATE, ENROL, HALF_ADDED])
    ensures Missing(UNSUNG, GRANT) && Permitted(UNSUNG.db, "u", "app") && !Decision(UNSUNG, "u", "u", "app")
  {
    HalfAddedSteps();
    var ws, es := WORLDS + [UNSUNG], [CREATE, ENROL, HALF_ADDED];
    Prologue(ws, es);
    RunsKeepBase(ws, es, 3);
    assert ws[3] == UNSUNG;
    UnsungKeepsOut();
  }
}
