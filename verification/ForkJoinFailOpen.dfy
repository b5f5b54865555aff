/**
 Two concrete schedules in which the tenant result is lost, once through a shutdown
 and once through a panic, and the request is answered as if membership had been
 confirmed.
 */
module ForkJoinFailOpen {
  import opened Collections
  import opened HookTypes
  import opened ForkJoin

  lemma {:induction false} RunAppend(s: State, a: seq<Step>, m: State, step: Step)
    requires Run(s, a, m) && Enabled(m, step)
    ensures Run(s, a + [step], Apply(m, step))
    decreases |a|
  {
    if a == [] {
      assert (a + [step])[1..] == [];
    } else {
      RunAppend(Apply(s, a[0]), a[1..], m, step);
      assert (a + [step])[1..] == a[1..] + [step];
    }
  }

  ghost predicate Reachable(workers: nat, s: State) {
    exists steps :: Run(Init(workers), steps, s)
  }

  lemma Extend(workers: nat, s: State, step: Step, s': State)
    requires Reachable(workers, s) && Enabled(s, step) && s' == Apply(s, step)
    ensures Reachable(workers, s')
  {
    var steps :| Run(Init(workers), steps, s);
    RunAppend(Init(workers), steps, s, step);
  }

  /** A user who is authorized for the application but is no member of the tenant. */
  const OUTSIDER := Input("acme", Fetched([]), _ => Allowed, NotMember)

  /** One worker, one request, with both of its jobs accepted. */
  function Scene(x: Worker, queue: seq<nat>, stopped: bool, q: Req,
                 finished: multiset<nat>, delivered: multiset<nat>): State
  {
    State([x], queue, stopped, [Job(0, GroupsJob), Job(0, TenantJob)], [q], finished, delivered, {}, {}, false)
  }

  function Request(pc: Pc, groups: Lane, tenant: Lane): Req {
    Req(OUTSIDER, pc, groups, tenant, false, Member)
  }

  function Waiting(wg: int, slot: Option<Result>, job: nat): Lane {
    Lane(wg, Chan(false, slot), Some(job), Live)
  }

  const FETCHED := Some(Result(0, GroupsValue(Fetched([]))))

  lemma SceneForked()
    ensures Reachable(1, Scene(Idle, [0, 1], false,
                               Request(WaitGroups(false), Waiting(1, None, 0), Waiting(1, None, 1)),
                               multiset{}, multiset{}))
  {
    var s0 := Init(1);
    assert Run(s0, [], s0);
    var s1 := s0.(reqs := [NewRequest(OUTSIDER)]);
    Extend(1, s0, Arrive(OUTSIDER), s1);
    var s2 := s1.(reqs := [Request(SubmitGroups, Add(EMPTY_LANE), EMPTY_LANE)]);
    Extend(1, s1, Advance(0), s2);
    var s3 := s2.(reqs := [Request(AddTenant, Waiting(1, None, 0), EMPTY_LANE)],
                  queue := [0], jobs := [Job(0, GroupsJob)]);
    Extend(1, s2, Advance(0), s3);
    SceneForkedTenant(s3);
  }

  lemma SceneForkedTenant(s: State)
    requires Reachable(1, s)
    requires s == Init(1).(reqs := [Request(AddTenant, Waiting(1, None, 0), EMPTY_LANE)],
                           queue := [0], jobs := [Job(0, GroupsJob)])
    ensures Reachable(1, Scene(Idle, [0, 1], false,
                               Request(WaitGroups(false), Waiting(1, None, 0), Waiting(1, None, 1)),
                               multiset{}, multiset{}))
  {
    var s' := s.(reqs := [Request(SubmitTenant, Waiting(1, None, 0), Add(EMPTY_LANE))]);
    Extend(1, s, Advance(0), s');
    Extend(1, s', Advance(0), Scene(Idle, [0, 1], false,
      Request(WaitGroups(false), Waiting(1, None, 0), Waiting(1, None, 1)), multiset{}, multiset{}));
  }

  lemma SceneFetched()
    ensures Reachable(1, Scene(Idle, [1], false,
                               Request(WaitGroups(false), Waiting(0, FETCHED, 0), Waiting(1, None, 1)),
                               multiset{0}, multiset{0}))
  {
    SceneForked();
    var q := Request(WaitGroups(false), Waiting(1, None, 0), Waiting(1, None, 1));
    var a := Scene(Busy(0, Taken), [1], false, q, multiset{}, multiset{});
    Extend(1, Scene(Idle, [0, 1], false, q, multiset{}, multiset{}), Dequeue(0), a);
    var b := a.(workers := [Busy(0, Running)]);
    Extend(1, a, Begin(0), b);
    var q' := q.(groups := Waiting(1, FETCHED, 0));
    var c := Scene(Busy(0, Sent), [1], false, q', multiset{}, multiset{0});
    Extend(1, b, Send(0), c);
    Extend(1, c, Finish(0), Scene(Idle, [1], false, q'.(groups := Waiting(0, FETCHED, 0)), multiset{0}, multiset{0}));
  }

  /** Groups delivered, tenant job finished without a result. */
  const LOST := Request(WaitGroups(false), Waiting(0, FETCHED, 0), Waiting(0, None, 1))

  function Lost(x: Worker, stopped: bool, panicked: set<nat>, aborted: set<nat>): State {
    Scene(x, [], stopped, LOST, multiset{0, 1}, multiset{0}).(panicked := panicked, aborted := aborted)
  }

  /** The worker takes up the tenant job. */
  lemma SceneTaken()
    ensures Reachable(1, Scene(Busy(1, Taken), [], false,
                               Request(WaitGroups(false), Waiting(0, FETCHED, 0), Waiting(1, None, 1)),
                               multiset{0}, multiset{0}))
  {
    SceneFetched();
    var q := Request(WaitGroups(false), Waiting(0, FETCHED, 0), Waiting(1, None, 1));
    Extend(1, Scene(Idle, [1], false, q, multiset{0}, multiset{0}), Dequeue(0),
           Scene(Busy(1, Taken), [], false, q, multiset{0}, multiset{0}));
  }

  /** The pool stops before the job has started. */
  lemma SceneStopped()
    ensures Reachable(1, Lost(Idle, true, {}, {1}))
  {
    SceneTaken();
    var q := Request(WaitGroups(false), Waiting(0, FETCHED, 0), Waiting(1, None, 1));
    var a := Scene(Busy(1, Taken), [], false, q, multiset{0}, multiset{0});
    var b := a.(shutdown := true);
    Extend(1, a, Stop, b);
    var c := b.(workers := [Busy(1, Aborted)], aborted := {1});
    Extend(1, b, Begin(0), c);
    Extend(1, c, Finish(0), Lost(Idle, true, {}, {1}));
  }

  /** The command panics, and the worker with it. */
  lemma ScenePanicked()
    ensures Reachable(1, Lost(Exited, false, {1}, {}))
  {
    SceneTaken();
    var q := Request(WaitGroups(false), Waiting(0, FETCHED, 0), Waiting(1, None, 1));
    var a := Scene(Busy(1, Taken), [], false, q, multiset{0}, multiset{0});
    var b := a.(workers := [Busy(1, Running)]);
    Extend(1, a, Begin(0), b);
    var c := b.(workers := [Busy(1, Panicked)], panicked := {1});
    Extend(1, b, Panic(0), c);
    Extend(1, c, Finish(0), Lost(Exited, false, {1}, {}));
  }

  // ---- the request goes on alone ------------------------------------------------------------

  /** n local steps of a request, if none of them blocks, submits or faults. */
  ghost predicate Walk(q: Req, n: nat, q': Req)
    decreases n
  {
    if n == 0 then q' == q
    else !q.pc.SubmitGroups? && !q.pc.SubmitTenant? && CanStep(q) && !Local(q).1 && Walk(Local(q).0, n - 1, q')
  }

  lemma {:induction false} SceneWalk(s: State, q: Req, n: nat, q': Req)
    requires Reachable(1, s.(reqs := [q])) && !s.fault && Walk(q, n, q')
    ensures Reachable(1, s.(reqs := [q']))
    decreases n
  {
    if n != 0 {
      Extend(1, s.(reqs := [q]), Advance(0), s.(reqs := [Local(q).0]));
      SceneWalk(s, Local(q).0, n - 1, q');
    }
  }

  const DRAINED := Lane(0, Chan(true, None), Some(0), Received)
  const JOINING := Request(Join([]), DRAINED, Waiting(0, None, 1))
  const INSPECTING := JOINING.(pc := Inspect([]), tenant := DRAINED.(job := Some(1)), once := true)
  const ANSWERED := INSPECTING.(pc := Returned(Success([], "acme")))

  /** From the wait for groups through authorization, with the fetch delivered. */
  lemma WalkToJoin()
    ensures Walk(LOST, 4, JOINING)
  {
    assert Walk(Local(Local(LOST).0).0, 2, JOINING);
  }

  /** waitTenant finds a closed, empty channel and leaves the error nil. */
  lemma WalkToInspect()
    ensures Walk(JOINING, 4, INSPECTING)
  {
    assert Walk(Local(Local(JOINING).0).0, 2, INSPECTING);
  }

  lemma WalkToAnswer()
    ensures Walk(INSPECTING, 2, ANSWERED)
  {}

  lemma LostIsJoining(s: State)
    requires Reachable(1, s.(reqs := [LOST])) && !s.fault
    ensures Reachable(1, s.(reqs := [JOINING]))
  {
    WalkToJoin();
    SceneWalk(s, LOST, 4, JOINING);
  }

  lemma JoiningIsInspecting(s: State)
    requires Reachable(1, s.(reqs := [JOINING])) && !s.fault
    ensures Reachable(1, s.(reqs := [INSPECTING]))
  {
    WalkToInspect();
    SceneWalk(s, JOINING, 4, INSPECTING);
  }

  /** Wherever the tenant result is lost this way, the request is answered with the tenant. */
  lemma LostIsAnswered(s: State)
    requires Reachable(1, s.(reqs := [LOST])) && !s.fault
    ensures Reachable(1, s.(reqs := [ANSWERED]))
  {
    LostIsJoining(s);
    JoiningIsInspecting(s);
    WalkToAnswer();
    SceneWalk(s, INSPECTING, 2, ANSWERED);
  }

  /**
   The exceptions in ForkJoinTheorems.FailClosed cannot be dropped: after a shutdown
   the service can return a tenant whose membership check would have said "not a
   member".
   */
  lemma ShutdownCanFailOpen()
    ensures exists s :: Reachable(1, s) && s.shutdown && s.panicked == {} && s.reqs == [ANSWERED]
    ensures ANSWERED.input == OUTSIDER && ANSWERED.pc == Returned(Success([], "acme"))
  {
    SceneStopped();
    var s := Lost(Idle, true, {}, {1});
    assert s.(reqs := [LOST]) == s;
    LostIsAnswered(s);
    assert Reachable(1, s.(reqs := [ANSWERED]));
  }

  /** And so it can in normal operation, when the command of the tenant job panics. */
  lemma PanicCanFailOpen()
    ensures exists s :: Reachable(1, s) && !s.shutdown && s.panicked == {1} && s.reqs == [ANSWERED]
    ensures ANSWERED.input == OUTSIDER && ANSWERED.pc == Returned(Success([], "acme"))
  {
    ScenePanicked();
    var s := Lost(Exited, false, {1}, {});
    assert s.(reqs := [LOST]) == s;
    LostIsAnswered(s);
    assert Reachable(1, s.(reqs := [ANSWERED]));
  }
}
