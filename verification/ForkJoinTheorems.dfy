/**
 What the fork/join protocol guarantees in every reachable state, whatever the
 interleaving, the shutdowns, the panics and the refused submissions.
 */
module ForkJoinTheorems {
  import opened Collections
  import opened HookTypes
  import opened ForkJoin
  import opened ForkJoinInvariant

  /** The lanes of a request together with the kind of job each one forks. */
  ghost predicate IsLane(s: State, r: nat, kind: Kind, l: Lane) {
    r < |s.reqs| && l == LaneOf(s.reqs[r], kind)
  }

  /**
   Every accepted job is at all times in exactly one place, is reported done at
   most once and delivers at most once, and the queue respects its capacity.
   */
  lemma JobsAreConserved(workers: nat, steps: seq<Step>, s: State, j: nat)
    requires Run(Init(workers), steps, s) && j < |s.jobs|
    ensures |s.queue| <= 2 * workers
    ensures multiset(s.queue)[j] + Holders(s.workers, j) + s.finished[j] == 1
    ensures s.delivered[j] <= 1
    ensures s.finished[j] == 1 ==> (s.delivered[j] == 0 <==> j in s.aborted || j in s.panicked)
    ensures j in s.aborted || j in s.panicked ==> s.delivered[j] == 0
    ensures j in s.aborted ==> s.shutdown
  {
    ReachableInv(workers, steps, s);
    assert Places(s.queue, s.workers, s.finished, j) == 1;
    if s.finished[j] == 0 {
      if Holders(s.workers, j) > 0 {
        var w := HeldSomewhere(s.workers, j);
        assert WorkerOk(s, s.workers[w]);
      } else {
        var i :| 0 <= i < |s.queue| && s.queue[i] == j;
      }
    }
  }

  /** A result found in a request's channel comes from that request's own job. */
  lemma ResultsCarryTheirOwnId(workers: nat, steps: seq<Step>, s: State, r: nat, kind: Kind, l: Lane)
    requires Run(Init(workers), steps, s) && IsLane(s, r, kind, l) && l.ch.slot.Some?
    ensures var res := l.ch.slot.value;
            && l.job == Some(res.key) && res.key < |s.jobs|
            && s.jobs[res.key] == Job(r, kind)
            && res.value == ValueOf(s.reqs[r].input, kind)
            && s.delivered[res.key] == 1
  {
    ReachableInv(workers, steps, s);
    assert ReqOk(s.reqs[r], r, s.jobs, s.finished, s.delivered);
    JobsAreConserved(workers, steps, s, l.job.value);
  }

  /**
   No send on a closed channel, no double close, no negative wait group: the
   fault flag is never raised; and a worker with a result never blocks on it.
   */
  lemma ChannelsAreSafe(workers: nat, steps: seq<Step>, s: State)
    requires Run(Init(workers), steps, s)
    ensures !s.fault
    ensures forall w | 0 <= w < |s.workers| && s.workers[w].Busy? && s.workers[w].phase.Running? ::
              Enabled(s, Send(w)) && !TargetLane(s, s.workers[w].job).ch.closed
    ensures forall r | 0 <= r < |s.reqs| ::
              0 <= s.reqs[r].groups.wg <= 1 && 0 <= s.reqs[r].tenant.wg <= 1
  {
    ReachableInv(workers, steps, s);
    forall w | 0 <= w < |s.workers| && s.workers[w].Busy? && s.workers[w].phase.Running?
      ensures Enabled(s, Send(w)) && !TargetLane(s, s.workers[w].job).ch.closed
    {
      BusyJob(s, w);
      assert WorkerOk(s, s.workers[w]);
    }
    forall r | 0 <= r < |s.reqs|
      ensures 0 <= s.reqs[r].groups.wg <= 1 && 0 <= s.reqs[r].tenant.wg <= 1
    {
      LanesAreCounted(s, r);
    }
  }

  lemma LanesAreCounted(s: State, r: nat)
    requires Inv(s) && r < |s.reqs|
    ensures 0 <= s.reqs[r].groups.wg <= 1 && 0 <= s.reqs[r].tenant.wg <= 1
  {
    var q := s.reqs[r];
    assert ReqOk(q, r, s.jobs, s.finished, s.delivered);
    if q.groups.job.Some? {
      assert Places(s.queue, s.workers, s.finished, q.groups.job.value) == 1;
    }
    if q.tenant.job.Some? {
      assert Places(s.queue, s.workers, s.finished, q.tenant.job.value) == 1;
    }
  }

  /** ProcessRequest never leaves a job behind: its jobs are finished when it returns. */
  lemma NoJobOutlivesItsRequest(workers: nat, steps: seq<Step>, s: State, j: nat)
    requires Run(Init(workers), steps, s) && j < |s.jobs|
    ensures s.jobs[j].req < |s.reqs|
    ensures s.reqs[s.jobs[j].req].pc.Returned? ==>
              s.finished[j] == 1 && j !in s.queue
              && forall w | 0 <= w < |s.workers| && s.workers[w].Busy? :: s.workers[w].job != j
  {
    ReachableInv(workers, steps, s);
    assert OwnerOk(s, j);
    var r := s.jobs[j].req;
    assert ReqOk(s.reqs[r], r, s.jobs, s.finished, s.delivered);
    if s.reqs[r].pc.Returned? {
      assert Places(s.queue, s.workers, s.finished, j) == 1;
      forall w | 0 <= w < |s.workers| && s.workers[w].Busy? ensures s.workers[w].job != j {
        HoldersUpdate(s.workers, w, Idle, j);
      }
    }
  }

  /** The points of ProcessRequest between submitting the group fetch and its wait. */
  predicate AwaitsFetch(pc: Pc) {
    pc.AddTenant? || pc.SubmitTenant? || pc.UndoTenant? || pc.WaitGroups?
  }

  /**
   The lazy transaction of a request is used by its group fetch only. While a
   worker holds that fetch no other worker does, and the request itself is still
   at a point where it touches no database and cannot have returned.
   */
  lemma LazyTransactionIsExclusive(workers: nat, steps: seq<Step>, s: State, w: nat, v: nat)
    requires Run(Init(workers), steps, s)
    requires w < |s.workers| && v < |s.workers| && s.workers[w].Busy? && s.workers[v].Busy?
    requires s.workers[w].job < |s.jobs| && s.workers[v].job < |s.jobs|
    requires s.jobs[s.workers[w].job].kind.GroupsJob? && s.jobs[s.workers[v].job] == s.jobs[s.workers[w].job]
    ensures v == w
    ensures s.jobs[s.workers[w].job].req < |s.reqs|
    ensures AwaitsFetch(s.reqs[s.jobs[s.workers[w].job].req].pc)
  {
    ReachableInv(workers, steps, s);
    BusyJob(s, w);
    BusyJob(s, v);
    var r := s.jobs[s.workers[w].job].req;
    assert ReqOk(s.reqs[r], r, s.jobs, s.finished, s.delivered);
  }

  // ---- what a request returns ---------------------------------------------------

  function GroupsFate(s: State, r: nat): Fate
    requires r < |s.reqs|
  {
    FateOf(s.reqs[r].groups, s.delivered)
  }

  function TenantFate(s: State, r: nat): Fate
    requires r < |s.reqs|
  {
    FateOf(s.reqs[r].tenant, s.delivered)
  }

  /** The result depends on the schedule only through the fate of the two jobs. */
  lemma OutcomeIsDetermined(workers: nat, steps: seq<Step>, s: State, r: nat)
    requires Run(Init(workers), steps, s) && r < |s.reqs| && s.reqs[r].pc.Returned?
    ensures s.reqs[r].pc.out == Decide(s.reqs[r].input, GroupsFate(s, r), TenantFate(s, r))
  {
    ReachableInv(workers, steps, s);
    assert ReqOk(s.reqs[r], r, s.jobs, s.finished, s.delivered);
  }

  /** A result is lost if and only if the job was dropped after a shutdown or its own command panicked. */
  lemma LossHasACause(workers: nat, steps: seq<Step>, s: State, r: nat, kind: Kind, l: Lane)
    requires Run(Init(workers), steps, s) && IsLane(s, r, kind, l)
    requires s.reqs[r].pc.Returned? && l.job.Some?
    ensures s.delivered[l.job.value] == 0 <==> l.job.value in s.aborted || l.job.value in s.panicked
    ensures l.job.value in s.aborted ==> s.shutdown
  {
    ReachableInv(workers, steps, s);
    var j := l.job.value;
    assert ReqOk(s.reqs[r], r, s.jobs, s.finished, s.delivered);
    NoJobOutlivesItsRequest(workers, steps, s, j);
    JobsAreConserved(workers, steps, s, j);
  }

  /** The lane's job was accepted, and neither dropped after a shutdown nor hit by a panic. */
  predicate Spared(s: State, l: Lane) {
    l.job.Some? && l.job.value !in s.aborted && l.job.value !in s.panicked
  }

  ghost predicate Undisturbed(s: State, q: Req) {
    Spared(s, q.groups) && (q.input.tenant != "" ==> Spared(s, q.tenant))
  }

  /**
   Schedule independence: a request whose own jobs were accepted, not dropped after a
   shutdown and did not panic returns what the sequential reading returns, whatever
   happens to the pool and to the other requests.
   */
  lemma ScheduleIndependence(workers: nat, steps: seq<Step>, s: State, r: nat)
    requires Run(Init(workers), steps, s) && r < |s.reqs| && s.reqs[r].pc.Returned?
    requires Undisturbed(s, s.reqs[r])
    ensures s.reqs[r].pc.out == Sequential(s.reqs[r].input)
  {
    var q := s.reqs[r];
    OutcomeIsDetermined(workers, steps, s, r);
    if s.delivered[q.groups.job.value] == 0 {
      LossHasACause(workers, steps, s, r, GroupsJob, q.groups);
    }
    if q.input.tenant != "" && s.delivered[q.tenant.job.value] == 0 {
      LossHasACause(workers, steps, s, r, TenantJob, q.tenant);
    }
  }

  /**
   Exactly when a request succeeds. Authorization saw the very groups that are
   returned, and the tenant was validated except when that result was lost.
   */
  lemma SuccessExactly(workers: nat, steps: seq<Step>, s: State, r: nat)
    requires Run(Init(workers), steps, s) && r < |s.reqs| && s.reqs[r].pc.Returned?
    ensures var q := s.reqs[r]; var out := q.pc.out;
            out.Success? <==>
              && GroupsFate(s, r).Arrived? && q.input.fetch.Fetched?
              && q.input.authorize(q.input.fetch.groups).Allowed?
              && (q.input.tenant == ""
                  || (TenantFate(s, r).Arrived? && q.input.validate.Member?) || TenantFate(s, r).Lost?)
    ensures var q := s.reqs[r]; var out := q.pc.out;
            out.Success? ==> out == Success(q.input.fetch.groups, q.input.tenant)
  {
    OutcomeIsDetermined(workers, steps, s, r);
  }

  /** Unless its own tenant job was dropped after a shutdown or panicked, a tenant in the answer was validated. */
  lemma FailClosed(workers: nat, steps: seq<Step>, s: State, r: nat)
    requires Run(Init(workers), steps, s) && r < |s.reqs|
    requires s.reqs[r].pc.Returned? && s.reqs[r].pc.out.Success? && s.reqs[r].pc.out.tenant != ""
    requires s.reqs[r].tenant.job.Some? ==> Spared(s, s.reqs[r].tenant)
    ensures s.reqs[r].input.validate.Member?
    ensures s.reqs[r].input.fetch == Fetched(s.reqs[r].pc.out.groups)
    ensures s.reqs[r].input.authorize(s.reqs[r].pc.out.groups).Allowed?
  {
    SuccessExactly(workers, steps, s, r);
    var q := s.reqs[r];
    if TenantFate(s, r).Lost? {
      LossHasACause(workers, steps, s, r, TenantJob, q.tenant);
    }
  }
}
