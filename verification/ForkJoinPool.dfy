/**
 The pool seen from outside: when a submission is taken, in what order jobs leave
 the queue, when workers go, and what every request is told. Nothing here is stated
 through the definitions of the step relation that it is about.
 */
module ForkJoinPool {
  import opened Collections
  import opened HookTypes
  import opened ForkJoin
  import opened ForkJoinInvariant
  import opened ForkJoinTheorems

  // ---- submission ---------------------------------------------------------------------------

  /** A job is taken while the queue holds fewer than twice the workers, and refused without a trace otherwise. */
  lemma SubmitExactly(s: State, r: nat)
    requires r < |s.reqs| && (s.reqs[r].pc.SubmitGroups? || s.reqs[r].pc.SubmitTenant?)
    ensures Enabled(s, Advance(r))
    ensures var s' := Apply(s, Advance(r));
            var kind := if s.reqs[r].pc.SubmitGroups? then GroupsJob else TenantJob;
            && |s'.reqs| == |s.reqs|
            && if |s.queue| < 2 * |s.workers| then
                 && s'.jobs == s.jobs + [Job(r, kind)] && s'.queue == s.queue + [|s.jobs|]
                 && (if kind.GroupsJob? then s'.reqs[r].groups else s'.reqs[r].tenant).job == Some(|s.jobs|)
               else
                 s'.jobs == s.jobs && s'.queue == s.queue
                 && (if kind.GroupsJob? then s'.reqs[r].pc == UndoGroups else s'.reqs[r].pc == UndoTenant)
  {}

  /** The request got past submitting a job of this kind, and has none. */
  predicate Turned(q: Req, kind: Kind) {
    match kind
    case GroupsJob => !q.pc.AddGroups? && !q.pc.SubmitGroups? && q.groups.job.None?
    case TenantJob =>
      && q.input.tenant != "" && q.groups.job.Some? && q.tenant.job.None?
      && !q.pc.AddTenant? && !q.pc.SubmitTenant?
  }

  lemma TurnedByItself(q: Req, kind: Kind)
    requires !q.pc.SubmitGroups? && !q.pc.SubmitTenant?
    ensures Turned(Local(q).0, kind) ==> Turned(q, kind)
  {}

  /** A request changes itself only, and the queue by at most one new job. */
  lemma AdvanceIsLocal(s: State, r: nat)
    requires r < |s.reqs|
    ensures |StepRequest(s, r).reqs| == |s.reqs|
    ensures forall i | 0 <= i < |s.reqs| && i != r :: StepRequest(s, r).reqs[i] == s.reqs[i]
    ensures var s' := StepRequest(s, r);
            && s'.workers == s.workers && s'.shutdown == s.shutdown && s'.panicked == s.panicked
            && (|| (s'.queue == s.queue && s'.jobs == s.jobs)
                || (s'.queue == s.queue + [|s.jobs|] && |s'.jobs| == |s.jobs| + 1))
  {}

  ghost predicate SamePlace(q: Req, q': Req) {
    q'.pc == q.pc && q'.input == q.input && q'.groups.job == q.groups.job && q'.tenant.job == q.tenant.job
  }

  /** Nobody but the request itself moves its program counter or gives it a job. */
  lemma OthersMoveNothing(s: State, step: Step, r: nat)
    requires Enabled(s, step) && step != Advance(r) && r < |s.reqs|
    ensures |s.reqs| <= |Apply(s, step).reqs| && SamePlace(s.reqs[r], Apply(s, step).reqs[r])
  {
    if step.Advance? {
      AdvanceIsLocal(s, step.req);
    }
  }

  /** Only a submission to a full queue turns a request down. */
  lemma TurnedByAFullQueue(s: State, step: Step, r: nat, kind: Kind)
    requires Enabled(s, step) && r < |Apply(s, step).reqs| && Turned(Apply(s, step).reqs[r], kind)
    requires r < |s.reqs| ==> !Turned(s.reqs[r], kind)
    ensures |s.queue| >= 2 * |s.workers|
  {
    if r < |s.reqs| {
      if step != Advance(r) {
        OthersMoveNothing(s, step, r);
      } else if s.reqs[r].pc.SubmitGroups? || s.reqs[r].pc.SubmitTenant? {
        SubmitExactly(s, r);
      } else {
        TurnedByItself(s.reqs[r], kind);
      }
    }
  }

  lemma {:induction false} TurnedOnTheWay(s: State, steps: seq<Step>, s': State, r: nat, kind: Kind)
    returns (k: nat, mid: State)
    requires Run(s, steps, s') && r < |s'.reqs| && Turned(s'.reqs[r], kind)
    requires r < |s.reqs| ==> !Turned(s.reqs[r], kind)
    ensures k <= |steps| && Run(s, steps[..k], mid) && |mid.queue| >= 2 * |mid.workers|
    decreases |steps|
  {
    var next := Apply(s, steps[0]);
    if r < |next.reqs| && Turned(next.reqs[r], kind) {
      TurnedByAFullQueue(s, steps[0], r, kind);
      k, mid := 0, s;
    } else {
      k, mid := TurnedOnTheWay(next, steps[1..], s', r, kind);
      k := k + 1;
      assert steps[..k][0] == steps[0] && steps[..k][1..] == steps[1..][..k - 1];
    }
  }

  /**
   ErrTooBusy for want of room has a reason: when a returned request has no group
   fetch, or has a fetch and a tenant but no validation, the queue held twice as many
   jobs as there are workers at some moment of the run.
   */
  lemma RefusalMeansFull(workers: nat, steps: seq<Step>, s: State, r: nat) returns (k: nat, mid: State)
    requires Run(Init(workers), steps, s) && r < |s.reqs| && s.reqs[r].pc.Returned?
    requires var q := s.reqs[r]; q.groups.job.None? || (q.input.tenant != "" && q.tenant.job.None?)
    ensures k <= |steps| && Run(Init(workers), steps[..k], mid) && |mid.queue| == 2 * workers
  {
    var kind := if s.reqs[r].groups.job.None? then GroupsJob else TenantJob;
    k, mid := TurnedOnTheWay(Init(workers), steps, s, r, kind);
    ReachableInv(workers, steps[..k], mid);
  }

  // ---- order and staff ----------------------------------------------------------------------

  /** Ids grow along the queue, and all of them have been handed out. */
  ghost predicate Ordered(s: State) {
    && (forall i, j | 0 <= i < j < |s.queue| :: s.queue[i] < s.queue[j])
    && (forall i | 0 <= i < |s.queue| :: s.queue[i] < |s.jobs|)
  }

  /** Workers go only after a shutdown or with a job whose command panicked. */
  ghost predicate Staffed(s: State) {
    && ((exists w | 0 <= w < |s.workers| :: s.workers[w].Exited?) ==> s.shutdown || s.panicked != {})
    && (forall w | 0 <= w < |s.workers| && s.workers[w].Busy? && s.workers[w].phase.Panicked? :: s.panicked != {})
  }

  lemma StepKeepsOrder(s: State, step: Step)
    requires Ordered(s) && Enabled(s, step)
    ensures Ordered(Apply(s, step))
  {
    if step.Advance? {
      AdvanceIsLocal(s, step.req);
    }
  }

  /** How a worker comes to leave or to hold a panicked job. */
  lemma WorkerAfter(s: State, step: Step, w: nat)
    requires Enabled(s, step) && w < |s.workers|
    ensures |Apply(s, step).workers| == |s.workers|
    ensures var x, x' := s.workers[w], Apply(s, step).workers[w];
            && (x'.Exited? ==> x.Exited? || step == Exit(w) || (step == Finish(w) && x.Busy? && x.phase.Panicked?))
            && (x'.Busy? && x'.phase.Panicked? ==> (x.Busy? && x.phase.Panicked?) || step == Panic(w))
  {
    if step.Advance? {
      AdvanceIsLocal(s, step.req);
    }
  }

  lemma StepsRemember(s: State, step: Step)
    requires Enabled(s, step)
    ensures |Apply(s, step).workers| == |s.workers|
    ensures s.shutdown ==> Apply(s, step).shutdown
    ensures s.panicked <= Apply(s, step).panicked && (step.Panic? ==> Apply(s, step).panicked != {})
  {
    if step.Advance? {
      AdvanceIsLocal(s, step.req);
    }
  }

  lemma StepKeepsStaff(s: State, step: Step)
    requires Staffed(s) && Enabled(s, step)
    ensures Staffed(Apply(s, step))
  {
    StepsRemember(s, step);
    forall w: nat | w < |s.workers|
      ensures Apply(s, step).workers[w].Exited? ==> Apply(s, step).shutdown || Apply(s, step).panicked != {}
      ensures Apply(s, step).workers[w].Busy? && Apply(s, step).workers[w].phase.Panicked? ==>
                Apply(s, step).panicked != {}
    {
      WorkerAfter(s, step, w);
    }
  }

  /** Jobs leave the queue in the order in which they were accepted. */
  lemma JobsLeaveInOrder(workers: nat, steps: seq<Step>, s: State, w: nat)
    requires Run(Init(workers), steps, s) && w < |s.workers| && s.workers[w].Idle? && s.queue != []
    ensures Enabled(s, Dequeue(w))
    ensures var s' := Apply(s, Dequeue(w));
            && s'.workers[w].Busy? && s'.workers[w].job in s.queue && |s'.queue| == |s.queue| - 1
            && forall j | j in s'.queue :: j in s.queue && s'.workers[w].job < j
  {
    var p := (x: State) => Ordered(x);
    forall x, step | p(x) && Enabled(x, step) ensures p(Apply(x, step)) {
      StepKeepsOrder(x, step);
    }
    RunKeeps(p, Init(workers), steps, s);
  }

  /** Without a shutdown and without a panic every worker stays. */
  lemma WorkersStay(workers: nat, steps: seq<Step>, s: State, w: nat)
    requires Run(Init(workers), steps, s) && w < |s.workers| && !s.shutdown && s.panicked == {}
    ensures !s.workers[w].Exited?
  {
    var p := (x: State) => Staffed(x);
    forall x, step | p(x) && Enabled(x, step) ensures p(Apply(x, step)) {
      StepKeepsStaff(x, step);
    }
    RunKeeps(p, Init(workers), steps, s);
  }

  /**
   What a worker can do next in any reachable state, and where that leads: it starts
   the command, or drops the job once the pool is stopped; a running command returns
   or panics; only a panic costs the pool the worker; an idle worker takes a job or,
   after a shutdown, goes.
   */
  lemma WorkerMoves(workers: nat, steps: seq<Step>, s: State, w: nat)
    requires Run(Init(workers), steps, s) && w < |s.workers|
    ensures Enabled(s, Stop) && forall input :: Enabled(s, Arrive(input))
    ensures match s.workers[w]
            case Idle => (Enabled(s, Dequeue(w)) <==> s.queue != []) && (Enabled(s, Exit(w)) <==> s.shutdown)
            case Busy(j, Taken) =>
              && Enabled(s, Begin(w))
              && Apply(s, Begin(w)).workers[w] == Busy(j, if s.shutdown then Aborted else Running)
            case Busy(j, Running) =>
              && Enabled(s, Send(w)) && Apply(s, Send(w)).workers[w] == Busy(j, Sent)
              && Enabled(s, Panic(w)) && Apply(s, Panic(w)).workers[w] == Busy(j, Panicked)
            case Busy(j, phase) =>
              Enabled(s, Finish(w)) && Apply(s, Finish(w)).workers[w] == (if phase.Panicked? then Exited else Idle)
            case Exited => true
  {
    ReachableInv(workers, steps, s);
    if s.workers[w].Busy? {
      BusyJob(s, w);
      assert WorkerOk(s, s.workers[w]);
    }
  }

  // ---- answers ------------------------------------------------------------------------------

  /** The result of a lane's job reached its channel. */
  predicate Arrived(s: State, l: Lane) {
    l.job.Some? && s.delivered[l.job.value] > 0
  }

  /**
   What every request is told, case by case and in the order of priority: busy, fetch
   failed, check failed, denied, and only then the tenant.
   */
  lemma AnswerExactly(workers: nat, steps: seq<Step>, s: State, r: nat)
    requires Run(Init(workers), steps, s) && r < |s.reqs| && s.reqs[r].pc.Returned?
    ensures var q := s.reqs[r]; var input, out := q.input, q.pc.out;
            if !Arrived(s, q.groups) || (input.tenant != "" && q.tenant.job.None?) then out == TooBusy
            else if input.fetch.FetchFailed? then out == FetchError
            else
              var groups := input.fetch.groups;
              && (input.authorize(groups) == CheckFailed ==> out == AuthorizeError)
              && (input.authorize(groups) == Denied ==> out == AccessDenied)
              && (input.authorize(groups) == Allowed ==>
                    if input.tenant == "" then out == Success(groups, "")
                    else if !Arrived(s, q.tenant) then out == Success(groups, input.tenant)
                    else
                      && (input.validate == Member ==> out == Success(groups, input.tenant))
                      && (input.validate == NotMember ==> out == NotATenantMember)
                      && (input.validate == LookupFailed ==> out == TenantInternal))
  {
    OutcomeIsDetermined(workers, steps, s, r);
  }
}
