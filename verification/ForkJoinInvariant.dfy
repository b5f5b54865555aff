/**
 The invariant of the fork/join protocol and the proof that every step keeps it.
 */
module ForkJoinInvariant {
  import opened Collections
  import opened HookTypes
  import opened ForkJoin

  // ---- conservation of jobs ---------------------------------------------------

  function Holds(x: Worker, j: nat): nat {
    if x.Busy? && x.job == j then 1 else 0
  }

  /** How many workers have job j in their hands. */
  function Holders(ws: seq<Worker>, j: nat): nat {
    if ws == [] then 0 else Holds(ws[0], j) + Holders(ws[1..], j)
  }

  lemma {:induction false} HoldersUpdate(ws: seq<Worker>, w: nat, x: Worker, j: nat)
    requires w < |ws|
    ensures Holds(ws[w], j) <= Holders(ws, j)
    ensures Holders(ws[w := x], j) == Holders(ws, j) - Holds(ws[w], j) + Holds(x, j)
  {
    if w == 0 {
      assert ws[w := x][1..] == ws[1..];
    } else {
      HoldersUpdate(ws[1..], w - 1, x, j);
      assert ws[w := x][1..] == ws[1..][w - 1 := x];
    }
  }

  lemma {:induction false} HeldTwice(ws: seq<Worker>, w: nat, v: nat)
    requires w < v < |ws| && ws[w].Busy? && ws[v].Busy? && ws[w].job == ws[v].job
    ensures Holders(ws, ws[w].job) >= 2
  {
    if w == 0 {
      HoldersUpdate(ws[1..], v - 1, Idle, ws[0].job);
    } else {
      HeldTwice(ws[1..], w - 1, v - 1);
    }
  }

  lemma {:induction false} HeldSomewhere(ws: seq<Worker>, j: nat) returns (w: nat)
    requires Holders(ws, j) > 0
    ensures w < |ws| && ws[w].Busy? && ws[w].job == j
  {
    if ws[0].Busy? && ws[0].job == j {
      w := 0;
    } else {
      w := HeldSomewhere(ws[1..], j);
      w := w + 1;
    }
  }

  /** How often job j is queued, held by a worker or finished. */
  function Places(queue: seq<nat>, workers: seq<Worker>, finished: multiset<nat>, j: nat): nat {
    multiset(queue)[j] + Holders(workers, j) + finished[j]
  }

  /** Every accepted job is queued, held or finished, and is so exactly once. */
  ghost predicate Conserved(s: State) {
    forall j: nat :: Places(s.queue, s.workers, s.finished, j) == if j < |s.jobs| then 1 else 0
  }

  // ---- requests -----------------------------------------------------------------

  ghost predicate LaneOk(l: Lane, owner: Job, value: Value, jobs: seq<Job>,
                         finished: multiset<nat>, delivered: multiset<nat>)
  {
    && (l.job.Some? ==> l.job.value < |jobs| && jobs[l.job.value] == owner)
    && (l.ch.closed <==> l.stage.Closed? || l.stage.Received?)
    && l.ch.slot == (if l.job.Some? && !l.stage.Received? && delivered[l.job.value] > 0
                     then Some(Result(l.job.value, value)) else None)
    && match l.stage
       case New => l.wg == 0 && l.job.None?
       case Added => l.wg == 1 && l.job.None?
       case Refused => l.wg == 0 && l.job.None?
       case Live => l.job.Some? && l.wg + finished[l.job.value] == 1
       case _ => l.wg == 0 && (l.job.Some? ==> finished[l.job.value] > 0)
  }

  /** What became of a fork: never accepted, result lost, or result delivered. */
  datatype Fate = Absent | Lost | Arrived

  function FateOf(l: Lane, delivered: multiset<nat>): Fate {
    if l.job.None? then Absent
    else if delivered[l.job.value] > 0 then Arrived
    else Lost
  }

  /** The outcome fixed before tenant validation is looked at, if there is one. */
  function Early(input: Input, groups: Fate, tenant: Fate): Option<Outcome> {
    if !groups.Arrived? || (input.tenant != "" && tenant.Absent?) then Some(TooBusy)
    else match input.fetch
      case FetchFailed => Some(FetchError)
      case Fetched(gs) =>
        match input.authorize(gs)
        case CheckFailed => Some(AuthorizeError)
        case Denied => Some(AccessDenied)
        case Allowed => None
  }

  /** The error waitTenant leaves behind: a missing result leaves it nil. */
  function Late(input: Input, tenant: Fate): Validation {
    if input.tenant != "" && tenant.Arrived? then input.validate else Member
  }

  /** ProcessRequest's result as a function of its input and the fate of its jobs. */
  function Decide(input: Input, groups: Fate, tenant: Fate): Outcome {
    match Early(input, groups, tenant)
    case Some(out) => out
    case None =>
      match Late(input, tenant)
      case Member => Success(input.fetch.groups, input.tenant)
      case NotMember => NotATenantMember
      case LookupFailed => TenantInternal
  }

  ghost predicate TenantIdle(q: Req) {
    if q.input.tenant == "" then q.tenant.stage.New? else q.tenant.stage.Live?
  }

  ghost predicate Cleared(q: Req, groups: seq<Group>, delivered: multiset<nat>) {
    && q.groups.stage.Received?
    && FateOf(q.groups, delivered).Arrived?
    && q.input.fetch == Fetched(groups)
    && (q.input.tenant != "" ==> q.tenant.job.Some?)
  }

  /** out is what ProcessRequest must return, given what is already settled. */
  ghost predicate Fixed(q: Req, out: Outcome, delivered: multiset<nat>) {
    && !q.groups.stage.New? && !q.groups.stage.Added? && !q.groups.stage.Live? && !q.groups.stage.Settled?
    && !q.tenant.stage.Added?
    && (q.tenant.stage.New? ==> q.input.tenant == "" || q.groups.job.None?)
    && match Early(q.input, FateOf(q.groups, delivered), FateOf(q.tenant, delivered))
       case Some(o) => out == o
       case None =>
         && (q.tenant.stage.Received? || q.input.tenant == "")
         && out == Decide(q.input, FateOf(q.groups, delivered), FateOf(q.tenant, delivered))
  }

  ghost predicate CallerOk(q: Req, caller: Caller, delivered: multiset<nat>) {
    && q.input.tenant != "" && !q.once
    && match caller
       case Explicit(groups) =>
         Cleared(q, groups, delivered) && q.input.authorize(groups).Allowed?
       case Deferred(out) => Fixed(q, out, delivered)
  }

  ghost predicate PcOk(q: Req, delivered: multiset<nat>) {
    match q.pc
    case AddGroups => q.groups.stage.New? && q.tenant.stage.New? && !q.once
    case SubmitGroups => q.groups.stage.Added? && q.tenant.stage.New? && !q.once
    case UndoGroups => q.groups.stage.Added? && q.tenant.stage.New? && !q.once
    case AddTenant => q.groups.stage.Live? && q.tenant.stage.New? && q.input.tenant != "" && !q.once
    case SubmitTenant => q.groups.stage.Live? && q.tenant.stage.Added? && q.input.tenant != "" && !q.once
    case UndoTenant => q.groups.stage.Live? && q.tenant.stage.Added? && q.input.tenant != "" && !q.once
    case WaitGroups(busy) =>
      q.groups.stage.Live? && !q.once
      && (if busy then q.tenant.stage.Refused? && q.input.tenant != "" else TenantIdle(q))
    case CloseGroups(busy) =>
      q.groups.stage.Settled? && !q.once
      && (if busy then q.tenant.stage.Refused? && q.input.tenant != "" else TenantIdle(q))
    case ReceiveGroups => q.groups.stage.Closed? && TenantIdle(q) && !q.once
    case Authorize(groups) => Cleared(q, groups, delivered) && TenantIdle(q) && !q.once
    case Join(groups) =>
      Cleared(q, groups, delivered) && q.input.authorize(groups).Allowed? && TenantIdle(q) && !q.once
    case WaitTenant(caller) =>
      CallerOk(q, caller, delivered) && (q.tenant.stage.New? || q.tenant.stage.Refused? || q.tenant.stage.Live?)
    case CloseTenant(caller) => CallerOk(q, caller, delivered) && q.tenant.stage.Settled?
    case ReceiveTenant(caller) => CallerOk(q, caller, delivered) && q.tenant.stage.Closed?
    case Inspect(groups) =>
      && Cleared(q, groups, delivered) && q.input.authorize(groups).Allowed? && q.once
      && (if q.input.tenant == "" then q.tenant.stage.New? else q.tenant.stage.Received?)
      && q.tenantErr == Late(q.input, FateOf(q.tenant, delivered))
    case Leaving(out) =>
      && Fixed(q, out, delivered)
      && (q.once && q.input.tenant != "" ==> q.tenant.stage.Received?)
      && (!q.once ==> q.tenant.stage.New? || q.tenant.stage.Refused? || q.tenant.stage.Live?)
    case Returned(out) =>
      && Fixed(q, out, delivered)
      && (q.input.tenant != "" ==> q.tenant.stage.Received?)
  }

  ghost predicate ReqOk(q: Req, r: nat, jobs: seq<Job>, finished: multiset<nat>, delivered: multiset<nat>) {
    && LaneOk(q.groups, Job(r, GroupsJob), ValueOf(q.input, GroupsJob), jobs, finished, delivered)
    && LaneOk(q.tenant, Job(r, TenantJob), ValueOf(q.input, TenantJob), jobs, finished, delivered)
    && PcOk(q, delivered)
    && (!q.once ==> q.tenantErr.Member?)
    && (q.input.tenant == "" ==> q.tenant.stage.New?)
  }

  ghost predicate ReqsOk(s: State) {
    forall r | 0 <= r < |s.reqs| :: ReqOk(s.reqs[r], r, s.jobs, s.finished, s.delivered)
  }

  // ---- jobs and workers -----------------------------------------------------------

  /** A job belongs to the lane that submitted it. */
  ghost predicate OwnerOk(s: State, j: nat)
    requires j < |s.jobs|
  {
    && s.jobs[j].req < |s.reqs|
    && TargetLane(s, j).job == Some(j)
  }

  ghost predicate OwnersOk(s: State) {
    forall j: nat | j < |s.jobs| :: OwnerOk(s, j)
  }

  /** The job was dropped after a shutdown, or its command panicked. */
  ghost predicate Cut(s: State, j: nat) {
    j in s.aborted || j in s.panicked
  }

  ghost predicate WorkerOk(s: State, x: Worker) {
    x.Busy? ==>
      && s.delivered[x.job] == (if x.phase.Sent? then 1 else 0)
      && (x.phase.Aborted? || x.phase.Panicked? <==> Cut(s, x.job))
  }

  ghost predicate DeliveryOk(s: State) {
    && (forall i | 0 <= i < |s.queue| :: s.delivered[s.queue[i]] == 0 && !Cut(s, s.queue[i]))
    && (forall w | 0 <= w < |s.workers| :: WorkerOk(s, s.workers[w]))
    && (forall j: nat | s.finished[j] > 0 :: s.delivered[j] <= 1 && (s.delivered[j] == 0 <==> Cut(s, j)))
    && (forall j: nat | |s.jobs| <= j :: s.delivered[j] == 0 && !Cut(s, j))
    && (s.aborted != {} ==> s.shutdown)
  }

  ghost predicate Inv(s: State) {
    && !s.fault
    && |s.queue| <= 2 * |s.workers|
    && Conserved(s)
    && OwnersOk(s)
    && ReqsOk(s)
    && DeliveryOk(s)
  }

  // ---- what the invariant says about a worker's job ------------------------------

  lemma BusyJob(s: State, w: nat)
    requires Inv(s) && w < |s.workers| && s.workers[w].Busy?
    ensures var j := s.workers[w].job;
            && j < |s.jobs| && s.finished[j] == 0 && j !in s.queue && s.jobs[j].req < |s.reqs|
            && TargetLane(s, j).job == Some(j) && TargetLane(s, j).stage.Live? && TargetLane(s, j).wg == 1
            && (s.delivered[j] == 0 ==> TargetLane(s, j).ch == Chan(false, None))
    ensures forall v | 0 <= v < |s.workers| && v != w && s.workers[v].Busy? :: s.workers[v].job != s.workers[w].job
  {
    var j := s.workers[w].job;
    HoldersUpdate(s.workers, w, Idle, j);
    assert Places(s.queue, s.workers, s.finished, j) == if j < |s.jobs| then 1 else 0;
    assert OwnerOk(s, j);
    assert ReqOk(s.reqs[s.jobs[j].req], s.jobs[j].req, s.jobs, s.finished, s.delivered);
    forall v | 0 <= v < |s.workers| && v != w && s.workers[v].Busy?
      ensures s.workers[v].job != s.workers[w].job
    {
      if s.workers[v].job == s.workers[w].job {
        HeldTwice(s.workers, if v < w then v else w, if v < w then w else v);
      }
    }
  }

  // ---- request steps ----------------------------------------------------------------

  /** The part of a request's own step that touches neither queue nor jobs. */
  lemma LocalStep(s: State, r: nat, q: Req)
    requires Inv(s) && r < |s.reqs|
    requires ReqOk(q, r, s.jobs, s.finished, s.delivered)
    requires q.groups.job == s.reqs[r].groups.job && q.tenant.job == s.reqs[r].tenant.job
    ensures Inv(Put(s, r, q))
  {
    var s' := Put(s, r, q);
    OwnersKeep(s, s');
  }

  /** Requests only look at their own jobs, so a new job does not disturb them. */
  lemma LaneKeeps(l: Lane, owner: Job, value: Value, jobs: seq<Job>, jobs': seq<Job>,
                  f: multiset<nat>, f': multiset<nat>, d: multiset<nat>, d': multiset<nat>)
    requires LaneOk(l, owner, value, jobs, f, d)
    requires |jobs| <= |jobs'| && jobs'[..|jobs|] == jobs
    requires l.job.Some? ==> f[l.job.value] == f'[l.job.value] && d[l.job.value] == d'[l.job.value]
    ensures LaneOk(l, owner, value, jobs', f', d')
  {
    if l.job.Some? {
      assert jobs'[..|jobs|][l.job.value] == jobs'[l.job.value];
    }
  }

  lemma ReqKeeps(q: Req, r: nat, jobs: seq<Job>, jobs': seq<Job>,
                 f: multiset<nat>, f': multiset<nat>, d: multiset<nat>, d': multiset<nat>)
    requires ReqOk(q, r, jobs, f, d)
    requires |jobs| <= |jobs'| && jobs'[..|jobs|] == jobs
    requires q.groups.job.Some? ==>
               f[q.groups.job.value] == f'[q.groups.job.value] && d[q.groups.job.value] == d'[q.groups.job.value]
    requires q.tenant.job.Some? ==>
               f[q.tenant.job.value] == f'[q.tenant.job.value] && d[q.tenant.job.value] == d'[q.tenant.job.value]
    ensures ReqOk(q, r, jobs', f', d')
  {
    LaneKeeps(q.groups, Job(r, GroupsJob), ValueOf(q.input, GroupsJob), jobs, jobs', f, f', d, d');
    LaneKeeps(q.tenant, Job(r, TenantJob), ValueOf(q.input, TenantJob), jobs, jobs', f, f', d, d');
    assert FateOf(q.groups, d) == FateOf(q.groups, d');
    assert FateOf(q.tenant, d) == FateOf(q.tenant, d');
  }

  lemma EnqueueConserves(s: State, r: nat, kind: Kind, q: Req)
    requires Conserved(s) && r < |s.reqs|
    ensures Conserved(Enqueue(s, r, kind, q))
  {
    var s' := Enqueue(s, r, kind, q);
    var id: nat := |s.jobs|;
    assert multiset(s.queue + [id]) == multiset(s.queue) + multiset{id};
    forall j: nat ensures Places(s'.queue, s'.workers, s'.finished, j) == if j < |s'.jobs| then 1 else 0 {
      assert Places(s.queue, s.workers, s.finished, j) == if j < |s.jobs| then 1 else 0;
    }
  }

  lemma EnqueueStep(s: State, r: nat, kind: Kind, q: Req)
    requires Inv(s) && r < |s.reqs| && HasRoom(s)
    requires var s' := Enqueue(s, r, kind, q);
             ReqOk(q, r, s'.jobs, s.finished, s.delivered)
    requires LaneOf(s.reqs[r], kind).job.None?
    requires LaneOf(q, kind).job == Some(|s.jobs|)
    requires kind.GroupsJob? ==> q.tenant == s.reqs[r].tenant
    requires kind.TenantJob? ==> q.groups == s.reqs[r].groups
    ensures Inv(Enqueue(s, r, kind, q))
  {
    var s' := Enqueue(s, r, kind, q);
    EnqueueConserves(s, r, kind, q);
    forall j: nat | j < |s'.jobs| ensures OwnerOk(s', j) {
      if j < |s.jobs| {
        assert OwnerOk(s, j);
      }
    }
    forall r' | 0 <= r' < |s'.reqs| ensures ReqOk(s'.reqs[r'], r', s'.jobs, s'.finished, s'.delivered) {
      if r' != r {
        ReqKeeps(s.reqs[r'], r', s.jobs, s'.jobs, s.finished, s.finished, s.delivered, s.delivered);
      }
    }
  }

  /** A job that does not exist yet has neither finished nor delivered. */
  lemma FreshJob(s: State)
    requires Inv(s)
    ensures s.finished[|s.jobs|] == 0 && s.delivered[|s.jobs|] == 0
  {
    assert Places(s.queue, s.workers, s.finished, |s.jobs|) == 0;
  }

  lemma SubmitGroupsKeepsInv(s: State, r: nat)
    requires Inv(s) && r < |s.reqs| && s.reqs[r].pc.SubmitGroups?
    ensures Inv(StepRequest(s, r))
  {
    var q := s.reqs[r];
    assert ReqOk(q, r, s.jobs, s.finished, s.delivered);
    if HasRoom(s) {
      FreshJob(s);
      var q' := q.(groups := Accept(q.groups, |s.jobs|),
                   pc := if q.input.tenant == "" then WaitGroups(false) else AddTenant);
      EnqueueStep(s, r, GroupsJob, q');
    } else {
      LocalStep(s, r, q.(pc := UndoGroups));
    }
  }

  lemma SubmitTenantKeepsInv(s: State, r: nat)
    requires Inv(s) && r < |s.reqs| && s.reqs[r].pc.SubmitTenant?
    ensures Inv(StepRequest(s, r))
  {
    var q := s.reqs[r];
    assert ReqOk(q, r, s.jobs, s.finished, s.delivered);
    if HasRoom(s) {
      FreshJob(s);
      var q' := q.(tenant := Accept(q.tenant, |s.jobs|), pc := WaitGroups(false));
      LaneKeeps(q.groups, Job(r, GroupsJob), ValueOf(q.input, GroupsJob), s.jobs, s.jobs + [Job(r, TenantJob)],
                s.finished, s.finished, s.delivered, s.delivered);
      EnqueueStep(s, r, TenantJob, q');
    } else {
      LocalStep(s, r, q.(pc := UndoTenant));
    }
  }

  /** A local step changes only this request, keeps its jobs and never panics. */
  ghost predicate LocalOk(q: Req, r: nat, jobs: seq<Job>, f: multiset<nat>, d: multiset<nat>)
    requires !q.pc.SubmitGroups? && !q.pc.SubmitTenant?
  {
    var (q', bad) := Local(q);
    && !bad && q'.groups.job == q.groups.job && q'.tenant.job == q.tenant.job
    && ReqOk(q', r, jobs, f, d)
  }

  lemma ForkLocalOk(q: Req, r: nat, jobs: seq<Job>, f: multiset<nat>, d: multiset<nat>)
    requires ReqOk(q, r, jobs, f, d) && CanStep(q)
    requires q.pc.AddGroups? || q.pc.UndoGroups? || q.pc.AddTenant? || q.pc.UndoTenant?
    ensures LocalOk(q, r, jobs, f, d)
  {}

  lemma GroupsLocalOk(q: Req, r: nat, jobs: seq<Job>, f: multiset<nat>, d: multiset<nat>)
    requires ReqOk(q, r, jobs, f, d) && CanStep(q)
    requires q.pc.WaitGroups? || q.pc.CloseGroups? || q.pc.ReceiveGroups?
    ensures LocalOk(q, r, jobs, f, d)
  {}

  lemma AuthorizeLocalOk(q: Req, r: nat, jobs: seq<Job>, f: multiset<nat>, d: multiset<nat>)
    requires ReqOk(q, r, jobs, f, d) && CanStep(q)
    requires q.pc.Authorize? || q.pc.Join?
    ensures LocalOk(q, r, jobs, f, d)
  {}

  lemma TenantLocalOk(q: Req, r: nat, jobs: seq<Job>, f: multiset<nat>, d: multiset<nat>)
    requires ReqOk(q, r, jobs, f, d) && CanStep(q)
    requires q.pc.WaitTenant? || q.pc.CloseTenant? || q.pc.ReceiveTenant?
    ensures LocalOk(q, r, jobs, f, d)
  {}

  lemma ReturnLocalOk(q: Req, r: nat, jobs: seq<Job>, f: multiset<nat>, d: multiset<nat>)
    requires ReqOk(q, r, jobs, f, d) && CanStep(q)
    requires q.pc.Inspect? || q.pc.Leaving?
    ensures LocalOk(q, r, jobs, f, d)
  {}

  lemma LocalKeepsOk(q: Req, r: nat, jobs: seq<Job>, f: multiset<nat>, d: multiset<nat>)
    requires ReqOk(q, r, jobs, f, d) && CanStep(q)
    requires !q.pc.SubmitGroups? && !q.pc.SubmitTenant?
    ensures LocalOk(q, r, jobs, f, d)
  {
    if q.pc.AddGroups? || q.pc.UndoGroups? || q.pc.AddTenant? || q.pc.UndoTenant? {
      ForkLocalOk(q, r, jobs, f, d);
    } else if q.pc.WaitGroups? || q.pc.CloseGroups? || q.pc.ReceiveGroups? {
      GroupsLocalOk(q, r, jobs, f, d);
    } else if q.pc.Authorize? || q.pc.Join? {
      AuthorizeLocalOk(q, r, jobs, f, d);
    } else if q.pc.WaitTenant? || q.pc.CloseTenant? || q.pc.ReceiveTenant? {
      TenantLocalOk(q, r, jobs, f, d);
    } else {
      ReturnLocalOk(q, r, jobs, f, d);
    }
  }

  lemma AdvanceKeepsInv(s: State, r: nat)
    requires Inv(s) && Enabled(s, Advance(r))
    ensures Inv(Apply(s, Advance(r)))
  {
    var q := s.reqs[r];
    if q.pc.SubmitGroups? {
      SubmitGroupsKeepsInv(s, r);
    } else if q.pc.SubmitTenant? {
      SubmitTenantKeepsInv(s, r);
    } else {
      LocalKeepsOk(q, r, s.jobs, s.finished, s.delivered);
      LocalStep(s, r, Local(q).0);
    }
  }

  // ---- worker steps -------------------------------------------------------------------

  /** Job j moved from one place to another; every other job stayed where it was. */
  lemma MoveConserves(s: State, s': State, w: nat)
    requires Conserved(s) && s'.jobs == s.jobs && w < |s.workers| && |s'.workers| == |s.workers|
    requires s'.workers == s.workers[w := s'.workers[w]]
    requires forall j: nat :: multiset(s.queue)[j] + Holds(s.workers[w], j) + s.finished[j]
                              == multiset(s'.queue)[j] + Holds(s'.workers[w], j) + s'.finished[j]
    ensures Conserved(s')
  {
    forall j: nat ensures Places(s'.queue, s'.workers, s'.finished, j) == if j < |s'.jobs| then 1 else 0 {
      HoldersUpdate(s.workers, w, s'.workers[w], j);
      assert Places(s.queue, s.workers, s.finished, j) == if j < |s.jobs| then 1 else 0;
    }
  }

  /** Ownership only depends on which job each lane has accepted. */
  lemma OwnersKeep(s: State, s': State)
    requires OwnersOk(s) && s'.jobs == s.jobs && |s.reqs| <= |s'.reqs|
    requires forall r | 0 <= r < |s.reqs| ::
               s'.reqs[r].groups.job == s.reqs[r].groups.job && s'.reqs[r].tenant.job == s.reqs[r].tenant.job
    ensures OwnersOk(s')
  {
    forall j: nat | j < |s'.jobs| ensures OwnerOk(s', j) {
      assert OwnerOk(s, j);
    }
  }

  lemma DequeueKeepsInv(s: State, w: nat)
    requires Inv(s) && Enabled(s, Dequeue(w))
    ensures Inv(Apply(s, Dequeue(w)))
  {
    var s' := Apply(s, Dequeue(w));
    assert s.queue == [s.queue[0]] + s.queue[1..];
    assert multiset(s.queue) == multiset{s.queue[0]} + multiset(s.queue[1..]);
    MoveConserves(s, s', w);
    OwnersKeep(s, s');
    DequeueKeepsDelivery(s, w);
  }

  lemma DequeueKeepsDelivery(s: State, w: nat)
    requires DeliveryOk(s) && Enabled(s, Dequeue(w))
    ensures DeliveryOk(Apply(s, Dequeue(w)))
  {
    assert s.delivered[s.queue[0]] == 0;
    var s' := Apply(s, Dequeue(w));
    forall v | 0 <= v < |s'.workers| ensures WorkerOk(s', s'.workers[v]) {
      assert WorkerOk(s, s.workers[v]);
    }
  }

  /** Begin and Panic only change the phase in which a worker holds its job. */
  lemma PhaseKeepsInv(s: State, w: nat, step: Step)
    requires Inv(s) && (step == Begin(w) || step == Panic(w)) && Enabled(s, step)
    ensures Inv(Apply(s, step))
  {
    var s' := Apply(s, step);
    MoveConserves(s, s', w);
    OwnersKeep(s, s');
    PhaseKeepsDelivery(s, w, step);
  }

  lemma PhaseKeepsDelivery(s: State, w: nat, step: Step)
    requires Inv(s) && (step == Begin(w) || step == Panic(w)) && Enabled(s, step)
    ensures DeliveryOk(Apply(s, step))
  {
    var s' := Apply(s, step);
    BusyJob(s, w);
    forall v | 0 <= v < |s'.workers| ensures WorkerOk(s', s'.workers[v]) {
      assert WorkerOk(s, s.workers[v]) && WorkerOk(s, s.workers[w]);
    }
  }

  lemma ExitKeepsInv(s: State, w: nat)
    requires Inv(s) && Enabled(s, Exit(w))
    ensures Inv(Apply(s, Exit(w)))
  {
    var s' := Apply(s, Exit(w));
    MoveConserves(s, s', w);
    OwnersKeep(s, s');
  }

  /** The lane of a worker's job, and only that lane, changes with it. */
  lemma ReqsAfterWorker(s: State, s': State, j: nat)
    requires Inv(s) && j < |s.jobs| && s.jobs[j].req < |s.reqs|
    requires s'.jobs == s.jobs && |s'.reqs| == |s.reqs|
    requires forall r | 0 <= r < |s.reqs| && r != s.jobs[j].req :: s'.reqs[r] == s.reqs[r]
    requires forall i: nat | i != j :: s.finished[i] == s'.finished[i] && s.delivered[i] == s'.delivered[i]
    requires ReqOk(s'.reqs[s.jobs[j].req], s.jobs[j].req, s'.jobs, s'.finished, s'.delivered)
    ensures ReqsOk(s')
  {
    forall r | 0 <= r < |s'.reqs| ensures ReqOk(s'.reqs[r], r, s'.jobs, s'.finished, s'.delivered) {
      if r != s.jobs[j].req {
        assert ReqOk(s.reqs[r], r, s.jobs, s.finished, s.delivered);
        ReqKeeps(s.reqs[r], r, s.jobs, s'.jobs, s.finished, s'.finished, s.delivered, s'.delivered);
      }
    }
  }

  /** A request whose job is live has not looked at its result yet. */
  lemma LaneUpdateOk(q: Req, r: nat, kind: Kind, l: Lane, jobs: seq<Job>,
                     f: multiset<nat>, f': multiset<nat>, d: multiset<nat>, d': multiset<nat>)
    requires ReqOk(q, r, jobs, f, d)
    requires LaneOf(q, kind).stage.Live? && l.stage.Live? && l.job == LaneOf(q, kind).job
    requires l.job.Some? && l.job.value < |jobs| && jobs[l.job.value] == Job(r, kind)
    requires LaneOk(l, Job(r, kind), ValueOf(q.input, kind), jobs, f', d')
    requires forall i: nat | i != l.job.value :: f[i] == f'[i] && d[i] == d'[i]
    ensures ReqOk(WithLane(q, kind, l), r, jobs, f', d')
  {
    var other := if kind.GroupsJob? then TenantJob else GroupsJob;
    LaneKeeps(LaneOf(q, other), Job(r, other), ValueOf(q.input, other), jobs, jobs, f, f', d, d');
    assert FateOf(LaneOf(q, other), d) == FateOf(LaneOf(q, other), d');
  }

  lemma SendKeepsReqs(s: State, w: nat)
    requires Inv(s) && Enabled(s, Send(w))
    ensures ReqsOk(Apply(s, Send(w))) && !Apply(s, Send(w)).fault
  {
    var s' := Apply(s, Send(w));
    var j := s.workers[w].job;
    var Job(r, kind) := s.jobs[j];
    BusyJob(s, w);
    assert WorkerOk(s, s.workers[w]);
    assert ReqOk(s.reqs[r], r, s.jobs, s.finished, s.delivered);
    LaneUpdateOk(s.reqs[r], r, kind, LaneOf(s'.reqs[r], kind), s.jobs,
                 s.finished, s'.finished, s.delivered, s'.delivered);
    ReqsAfterWorker(s, s', j);
  }

  lemma SendKeepsInv(s: State, w: nat)
    requires Inv(s) && Enabled(s, Send(w))
    ensures Inv(Apply(s, Send(w)))
  {
    var s' := Apply(s, Send(w));
    SendKeepsReqs(s, w);
    SendKeepsDelivery(s, w);
    MoveConserves(s, s', w);
    OwnersKeep(s, s');
  }

  lemma SendKeepsDelivery(s: State, w: nat)
    requires Inv(s) && Enabled(s, Send(w))
    ensures DeliveryOk(Apply(s, Send(w)))
  {
    var s' := Apply(s, Send(w));
    BusyJob(s, w);
    assert WorkerOk(s, s.workers[w]);
    forall v | 0 <= v < |s'.workers| ensures WorkerOk(s', s'.workers[v]) {
      assert WorkerOk(s, s.workers[v]);
    }
  }

  lemma FinishKeepsReqs(s: State, w: nat)
    requires Inv(s) && Enabled(s, Finish(w))
    ensures ReqsOk(Apply(s, Finish(w))) && !Apply(s, Finish(w)).fault
  {
    var s' := Apply(s, Finish(w));
    var j := s.workers[w].job;
    var Job(r, kind) := s.jobs[j];
    BusyJob(s, w);
    assert ReqOk(s.reqs[r], r, s.jobs, s.finished, s.delivered);
    LaneUpdateOk(s.reqs[r], r, kind, LaneOf(s'.reqs[r], kind), s.jobs,
                 s.finished, s'.finished, s.delivered, s'.delivered);
    ReqsAfterWorker(s, s', j);
  }

  lemma FinishKeepsDelivery(s: State, w: nat)
    requires Inv(s) && Enabled(s, Finish(w))
    ensures DeliveryOk(Apply(s, Finish(w)))
  {
    var s' := Apply(s, Finish(w));
    assert WorkerOk(s, s.workers[w]);
    forall v | 0 <= v < |s'.workers| ensures WorkerOk(s', s'.workers[v]) {
      assert WorkerOk(s, s.workers[v]);
    }
  }

  lemma FinishKeepsInv(s: State, w: nat)
    requires Inv(s) && Enabled(s, Finish(w))
    ensures Inv(Apply(s, Finish(w)))
  {
    var s' := Apply(s, Finish(w));
    FinishKeepsReqs(s, w);
    FinishKeepsDelivery(s, w);
    MoveConserves(s, s', w);
    OwnersKeep(s, s');
  }

  // ---- environment steps ----------------------------------------------------------------

  lemma ArriveKeepsInv(s: State, input: Input)
    requires Inv(s)
    ensures Inv(Apply(s, Arrive(input)))
  {
    var s' := Apply(s, Arrive(input));
    OwnersKeep(s, s');
  }

  lemma StopKeepsInv(s: State)
    requires Inv(s)
    ensures Inv(Apply(s, Stop))
  {
    var s' := Apply(s, Stop);
    OwnersKeep(s, s');
  }

  lemma StepKeepsInv(s: State, step: Step)
    requires Inv(s) && Enabled(s, step)
    ensures Inv(Apply(s, step))
  {
    match step
    case Arrive(input) => ArriveKeepsInv(s, input);
    case Advance(r) => AdvanceKeepsInv(s, r);
    case Dequeue(w) => DequeueKeepsInv(s, w);
    case Begin(w) => PhaseKeepsInv(s, w, step);
    case Send(w) => SendKeepsInv(s, w);
    case Panic(w) => PhaseKeepsInv(s, w, step);
    case Finish(w) => FinishKeepsInv(s, w);
    case Exit(w) => ExitKeepsInv(s, w);
    case Stop => StopKeepsInv(s);
  }

  lemma {:induction false} HeldNothing(ws: seq<Worker>, j: nat)
    requires forall w | 0 <= w < |ws| :: !ws[w].Busy?
    ensures Holders(ws, j) == 0
  {
    if ws != [] {
      HeldNothing(ws[1..], j);
    }
  }

  lemma InitInv(workers: nat)
    ensures Inv(Init(workers))
  {
    var s := Init(workers);
    forall j: nat ensures Places(s.queue, s.workers, s.finished, j) == 0 {
      HeldNothing(s.workers, j);
    }
  }

  /** Whatever every enabled step keeps, every run keeps. */
  lemma {:induction false} RunKeeps(p: State -> bool, s: State, steps: seq<Step>, s': State)
    requires forall x, step {:trigger Apply(x, step)} | p(x) && Enabled(x, step) :: p(Apply(x, step))
    requires p(s) && Run(s, steps, s')
    ensures p(s')
    decreases |steps|
  {
    if steps != [] {
      RunKeeps(p, Apply(s, steps[0]), steps[1..], s');
    }
  }

  lemma ReachableInv(workers: nat, steps: seq<Step>, s: State)
    requires Run(Init(workers), steps, s)
    ensures Inv(s) && |s.workers| == workers
  {
    var p := (x: State) => Inv(x) && |x.workers| == workers;
    forall x, step | p(x) && Enabled(x, step) ensures p(Apply(x, step)) {
      StepKeepsInv(x, step);
    }
    InitInv(workers);
    RunKeeps(p, Init(workers), steps, s);
  }
}
