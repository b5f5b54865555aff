/**
 The worker pool and every in-flight ProcessRequest as one step relation. A step
 is one action of one goroutine; any number of requests and workers interleave
 freely, the pool may be stopped at any time and any command may panic.
 */
module ForkJoin {
  import opened Collections
  import opened HookTypes

  datatype Kind = GroupsJob | TenantJob

  /** An accepted job. Its id, a fresh uuid in the code, is its index in State.jobs. */
  datatype Job = Job(req: nat, kind: Kind)

  datatype Value = GroupsValue(fetch: Fetch) | TenantValue(check: Validation)
  datatype Result = Result(key: nat, value: Value)

  /** A result channel with room for one element. */
  datatype Chan = Chan(closed: bool, slot: Option<Result>)

  /** How far a request has got with one of its two jobs. */
  datatype Stage = New | Added | Refused | Live | Settled | Closed | Received

  /** The wait group, channel and accepted job of one fork of a request. */
  datatype Lane = Lane(wg: int, ch: Chan, job: Option<nat>, stage: Stage)

  /** Where waitTenant returns to: the explicit call, or the deferred one. */
  datatype Caller = Explicit(groups: seq<Group>) | Deferred(out: Outcome)

  /** The program counter of ProcessRequest. */
  datatype Pc =
    | AddGroups
    | SubmitGroups
    | UndoGroups
    | AddTenant
    | SubmitTenant
    | UndoTenant
    | WaitGroups(busy: bool)
    | CloseGroups(busy: bool)
    | ReceiveGroups
    | Authorize(groups: seq<Group>)
    | Join(groups: seq<Group>)
    | WaitTenant(caller: Caller)
    | CloseTenant(caller: Caller)
    | ReceiveTenant(caller: Caller)
    | Inspect(groups: seq<Group>)
    | Leaving(out: Outcome)
    | Returned(out: Outcome)

  datatype Req = Req(input: Input, pc: Pc, groups: Lane, tenant: Lane, once: bool, tenantErr: Validation)

  datatype Phase = Taken | Running | Sent | Aborted | Panicked
  datatype Worker = Idle | Busy(job: nat, phase: Phase) | Exited

  /**
   finished counts wg.Done by workers and delivered counts sends, per job;
   panicked and aborted remember whose command panicked and which jobs a worker took
   up after the shutdown and dropped; fault records a Go run-time panic
   of the protocol itself: send on closed, close of closed, negative wait group.
   */
  datatype State = State(
    workers: seq<Worker>,
    queue: seq<nat>,
    shutdown: bool,
    jobs: seq<Job>,
    reqs: seq<Req>,
    finished: multiset<nat>,
    delivered: multiset<nat>,
    panicked: set<nat>,
    aborted: set<nat>,
    fault: bool
  )

  const EMPTY_LANE := Lane(0, Chan(false, None), None, New)

  function NewRequest(input: Input): Req {
    Req(input, AddGroups, EMPTY_LANE, EMPTY_LANE, false, Member)
  }

  function Init(workers: nat): State {
    State(seq(workers, _ => Idle), [], false, [], [], multiset{}, multiset{}, {}, {}, false)
  }

  function LaneOf(q: Req, kind: Kind): Lane {
    if kind.GroupsJob? then q.groups else q.tenant
  }

  function WithLane(q: Req, kind: Kind, l: Lane): Req {
    if kind.GroupsJob? then q.(groups := l) else q.(tenant := l)
  }

  /** What the command of a job of this kind returns. */
  function ValueOf(input: Input, kind: Kind): Value {
    if kind.GroupsJob? then GroupsValue(input.fetch) else TenantValue(input.validate)
  }

  // ---- the request goroutine ------------------------------------------------

  /** Only the two wait-group waits can block a request. */
  predicate CanStep(q: Req) {
    match q.pc
    case WaitGroups(_) => q.groups.wg == 0
    case WaitTenant(_) => q.tenant.wg == 0
    case Returned(_) => false
    case _ => true
  }

  function Add(l: Lane): Lane {
    l.(wg := l.wg + 1, stage := Added)
  }

  function Undo(l: Lane): Lane {
    l.(wg := l.wg - 1, stage := Refused)
  }

  function Accept(l: Lane, job: nat): Lane {
    l.(job := Some(job), stage := Live)
  }

  function Close(l: Lane): Lane {
    l.(ch := l.ch.(closed := true), stage := Closed)
  }

  function Receive(l: Lane): Lane {
    l.(ch := l.ch.(slot := None), stage := Received)
  }

  function Put(s: State, r: nat, q: Req): State
    requires r < |s.reqs|
  {
    s.(reqs := s.reqs[r := q])
  }

  /** Submit: a non-blocking send on a queue of twice the number of workers. */
  predicate HasRoom(s: State) {
    |s.queue| < 2 * |s.workers|
  }

  function Enqueue(s: State, r: nat, kind: Kind, q: Req): State
    requires r < |s.reqs|
  {
    s.(reqs := s.reqs[r := q], queue := s.queue + [|s.jobs|], jobs := s.jobs + [Job(r, kind)])
  }

  function AfterGroups(q: Req): (out: Req) {
    match q.groups.ch.slot
    case Some(Result(_, GroupsValue(Fetched(groups)))) => q.(pc := Authorize(groups))
    case Some(Result(_, GroupsValue(FetchFailed))) => q.(pc := Leaving(FetchError))
    case _ => q.(pc := Leaving(TooBusy))
  }

  function AfterAuthorize(q: Req, groups: seq<Group>): (out: Req) {
    match q.input.authorize(groups)
    case CheckFailed => q.(pc := Leaving(AuthorizeError))
    case Denied => q.(pc := Leaving(AccessDenied))
    case Allowed => q.(pc := Join(groups))
  }

  function AfterTenant(q: Req, caller: Caller): (out: Req) {
    var err := match q.tenant.ch.slot
      case Some(Result(_, TenantValue(v))) => v
      case _ => q.tenantErr;
    var pc := match caller
      case Explicit(groups) => Inspect(groups)
      case Deferred(o) => Leaving(o);
    q.(tenantErr := err, once := true, pc := pc)
  }

  function AfterInspect(q: Req, groups: seq<Group>): (out: Req) {
    match q.tenantErr
    case Member => q.(pc := Leaving(Success(groups, q.input.tenant)))
    case NotMember => q.(pc := Leaving(NotATenantMember))
    case LookupFailed => q.(pc := Leaving(TenantInternal))
  }

  /**
   A step of the request that submits nothing, and whether it makes the Go
   run-time panic (close of a closed channel, negative wait group).
   */
  function Local(q: Req): (Req, bool)
    requires !q.pc.SubmitGroups? && !q.pc.SubmitTenant?
  {
    match q.pc
    case AddGroups => (q.(groups := Add(q.groups), pc := SubmitGroups), false)
    case UndoGroups => (q.(groups := Undo(q.groups), pc := Leaving(TooBusy)), q.groups.wg < 1)
    case AddTenant => (q.(tenant := Add(q.tenant), pc := SubmitTenant), false)
    case UndoTenant => (q.(tenant := Undo(q.tenant), pc := WaitGroups(true)), q.tenant.wg < 1)
    case WaitGroups(busy) => (q.(groups := q.groups.(stage := Settled), pc := CloseGroups(busy)), false)
    case CloseGroups(busy) =>
      (q.(groups := Close(q.groups), pc := if busy then Leaving(TooBusy) else ReceiveGroups), q.groups.ch.closed)
    case ReceiveGroups => (AfterGroups(q).(groups := Receive(q.groups)), false)
    case Authorize(groups) => (AfterAuthorize(q, groups), false)
    case Join(groups) =>
      (if q.input.tenant == "" then q.(once := true, pc := Inspect(groups))
       else q.(pc := WaitTenant(Explicit(groups))), false)
    case WaitTenant(caller) => (q.(tenant := q.tenant.(stage := Settled), pc := CloseTenant(caller)), false)
    case CloseTenant(caller) => (q.(tenant := Close(q.tenant), pc := ReceiveTenant(caller)), q.tenant.ch.closed)
    case ReceiveTenant(caller) => (AfterTenant(q, caller).(tenant := Receive(q.tenant)), false)
    case Inspect(groups) => (AfterInspect(q, groups), false)
    case Leaving(out) =>
      (if q.once || q.input.tenant == "" then q.(once := true, pc := Returned(out))
       else q.(pc := WaitTenant(Deferred(out))), false)
    case Returned(_) => (q, false)
  }

  function StepRequest(s: State, r: nat): State
    requires r < |s.reqs|
  {
    var q := s.reqs[r];
    match q.pc
    case SubmitGroups =>
      if HasRoom(s) then
        Enqueue(s, r, GroupsJob, q.(groups := Accept(q.groups, |s.jobs|),
                                    pc := if q.input.tenant == "" then WaitGroups(false) else AddTenant))
      else Put(s, r, q.(pc := UndoGroups))
    case SubmitTenant =>
      if HasRoom(s) then
        Enqueue(s, r, TenantJob, q.(tenant := Accept(q.tenant, |s.jobs|), pc := WaitGroups(false)))
      else Put(s, r, q.(pc := UndoTenant))
    case _ =>
      var (q', bad) := Local(q);
      Put(s, r, q').(fault := s.fault || bad)
  }

  // ---- the worker goroutines --------------------------------------------------

  datatype Step =
    | Arrive(input: Input)
    | Advance(req: nat)
    | Dequeue(worker: nat)
    | Begin(worker: nat)
    | Send(worker: nat)
    | Panic(worker: nat)
    | Finish(worker: nat)
    | Exit(worker: nat)
    | Stop

  predicate HoldsIn(s: State, w: nat, phases: set<Phase>) {
    && w < |s.workers| && s.workers[w].Busy? && s.workers[w].phase in phases
    && s.workers[w].job < |s.jobs|
    && s.jobs[s.workers[w].job].req < |s.reqs|
  }

  /** The lane a worker reports to when it executes job j. */
  function TargetLane(s: State, j: nat): Lane
    requires j < |s.jobs| && s.jobs[j].req < |s.reqs|
  {
    LaneOf(s.reqs[s.jobs[j].req], s.jobs[j].kind)
  }

  predicate Enabled(s: State, step: Step) {
    match step
    case Arrive(_) => true
    case Stop => true
    case Advance(r) => r < |s.reqs| && CanStep(s.reqs[r])
    case Dequeue(w) => w < |s.workers| && s.workers[w].Idle? && s.queue != []
    case Begin(w) => HoldsIn(s, w, {Taken})
    // a send on an open channel with a full buffer blocks
    case Send(w) =>
      && HoldsIn(s, w, {Running})
      && var ch := TargetLane(s, s.workers[w].job).ch; (ch.closed || ch.slot.None?)
    case Panic(w) => HoldsIn(s, w, {Running})
    case Finish(w) => HoldsIn(s, w, {Sent, Aborted, Panicked})
    case Exit(w) => w < |s.workers| && s.workers[w].Idle? && s.shutdown
  }

  function SetWorker(s: State, w: nat, x: Worker): State
    requires w < |s.workers|
  {
    s.(workers := s.workers[w := x])
  }

  function Deliver(s: State, j: nat): State
    requires j < |s.jobs| && s.jobs[j].req < |s.reqs|
  {
    var Job(r, kind) := s.jobs[j];
    var l := TargetLane(s, j);
    var sent := Result(j, ValueOf(s.reqs[r].input, kind));
    Put(s, r, WithLane(s.reqs[r], kind, l.(ch := l.ch.(slot := Some(sent)))))
      .(delivered := s.delivered + multiset{j}, fault := s.fault || l.ch.closed)
  }

  function Done(s: State, j: nat): State
    requires j < |s.jobs| && s.jobs[j].req < |s.reqs|
  {
    var Job(r, kind) := s.jobs[j];
    var l := TargetLane(s, j);
    Put(s, r, WithLane(s.reqs[r], kind, l.(wg := l.wg - 1)))
      .(finished := s.finished + multiset{j}, fault := s.fault || l.wg < 1)
  }

  function Apply(s: State, step: Step): State
    requires Enabled(s, step)
  {
    match step
    case Arrive(input) => s.(reqs := s.reqs + [NewRequest(input)])
    case Stop => s.(shutdown := true)
    case Advance(r) => StepRequest(s, r)
    case Dequeue(w) => SetWorker(s, w, Busy(s.queue[0], Taken)).(queue := s.queue[1..])
    case Begin(w) =>
      SetWorker(s, w, Busy(s.workers[w].job, if s.shutdown then Aborted else Running))
      .(aborted := if s.shutdown then s.aborted + {s.workers[w].job} else s.aborted)
    case Send(w) => SetWorker(Deliver(s, s.workers[w].job), w, Busy(s.workers[w].job, Sent))
    case Panic(w) =>
      SetWorker(s, w, Busy(s.workers[w].job, Panicked)).(panicked := s.panicked + {s.workers[w].job})
    case Finish(w) =>
      SetWorker(Done(s, s.workers[w].job), w, if s.workers[w].phase.Panicked? then Exited else Idle)
    case Exit(w) => SetWorker(s, w, Exited)
  }

  /** s' is reached from s by performing these steps in order. */
  ghost predicate Run(s: State, steps: seq<Step>, s': State)
    decreases |steps|
  {
    if steps == [] then s' == s
    else Enabled(s, steps[0]) && Run(Apply(s, steps[0]), steps[1..], s')
  }
}
