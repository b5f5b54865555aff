/**
 Progress of the fork/join protocol: apart from new arrivals and shutdown there
 are no infinite runs, and a run that gets stuck while a worker is alive has
 answered every request.
 */
module ForkJoinProgress {
  import opened ForkJoin
  import opened ForkJoinInvariant

  /** A step of a request or a worker, as opposed to an arrival or a shutdown. */
  predicate Internal(step: Step) {
    !step.Arrive? && !step.Stop?
  }

  // ---- no deadlock -------------------------------------------------------------------

  lemma BusyWorkerCanStep(s: State, w: nat) returns (step: Step)
    requires Inv(s) && w < |s.workers| && s.workers[w].Busy?
    ensures Internal(step) && Enabled(s, step)
  {
    BusyJob(s, w);
    assert WorkerOk(s, s.workers[w]);
    match s.workers[w].phase
    case Taken => step := Begin(w);
    case Running => step := Send(w);
    case _ => step := Finish(w);
  }

  /** A blocked request waits for one of its own jobs, and that job is unfinished. */
  lemma BlockedOnAJob(s: State, r: nat) returns (j: nat)
    requires Inv(s) && r < |s.reqs| && !s.reqs[r].pc.Returned? && !CanStep(s.reqs[r])
    ensures j < |s.jobs| && s.jobs[j].req == r && s.finished[j] == 0
  {
    var q := s.reqs[r];
    assert ReqOk(q, r, s.jobs, s.finished, s.delivered);
    j := if q.pc.WaitGroups? then q.groups.job.value else q.tenant.job.value;
    assert Places(s.queue, s.workers, s.finished, j) == 1;
  }

  lemma NoDeadlock(workers: nat, steps: seq<Step>, s: State, r: nat, alive: nat) returns (step: Step)
    requires Run(Init(workers), steps, s)
    requires r < |s.reqs| && !s.reqs[r].pc.Returned?
    requires alive < |s.workers| && !s.workers[alive].Exited?
    ensures Internal(step) && Enabled(s, step)
  {
    ReachableInv(workers, steps, s);
    if CanStep(s.reqs[r]) {
      step := Advance(r);
    } else {
      var j := BlockedOnAJob(s, r);
      assert Places(s.queue, s.workers, s.finished, j) == 1;
      if Holders(s.workers, j) > 0 {
        var w := HeldSomewhere(s.workers, j);
        step := BusyWorkerCanStep(s, w);
      } else if s.workers[alive].Idle? {
        assert j in multiset(s.queue);
        step := Dequeue(alive);
      } else {
        step := BusyWorkerCanStep(s, alive);
      }
    }
  }

  // ---- termination -------------------------------------------------------------------

  /** Upper bound on what a request can still cause. */
  function Rank(q: Req): nat {
    match q.pc
    case AddGroups => 31
    case SubmitGroups => 30
    case UndoGroups => 11
    case AddTenant => 24
    case SubmitTenant => 23
    case UndoTenant => 15
    case WaitGroups(_) => 14
    case CloseGroups(_) => 13
    case ReceiveGroups => 12
    case Authorize(_) => 11
    case Join(_) => 10
    case WaitTenant(_) => 9
    case CloseTenant(_) => 8
    case ReceiveTenant(_) => 7
    case Inspect(_) => 2
    case Leaving(_) => if q.once then 1 else 10
    case Returned(_) => 0
  }

  function Weight(x: Worker): nat {
    match x
    case Exited => 0
    case Idle => 1
    case Busy(_, Taken) => 5
    case Busy(_, Running) => 4
    case Busy(_, _) => 2
  }

  function Ranks(qs: seq<Req>): nat {
    if qs == [] then 0 else Rank(qs[0]) + Ranks(qs[1..])
  }

  function Weights(ws: seq<Worker>): nat {
    if ws == [] then 0 else Weight(ws[0]) + Weights(ws[1..])
  }

  function Measure(s: State): nat {
    Ranks(s.reqs) + 5 * |s.queue| + Weights(s.workers)
  }

  lemma {:induction false} RanksUpdate(qs: seq<Req>, r: nat, q: Req)
    requires r < |qs|
    ensures Ranks(qs[r := q]) == Ranks(qs) - Rank(qs[r]) + Rank(q)
  {
    if r == 0 {
      assert qs[r := q][1..] == qs[1..];
    } else {
      RanksUpdate(qs[1..], r - 1, q);
      assert qs[r := q][1..] == qs[1..][r - 1 := q];
    }
  }

  lemma {:induction false} WeightsUpdate(ws: seq<Worker>, w: nat, x: Worker)
    requires w < |ws|
    ensures Weights(ws[w := x]) == Weights(ws) - Weight(ws[w]) + Weight(x)
  {
    if w == 0 {
      assert ws[w := x][1..] == ws[1..];
    } else {
      WeightsUpdate(ws[1..], w - 1, x);
      assert ws[w := x][1..] == ws[1..][w - 1 := x];
    }
  }

  lemma LocalDecreases(q: Req)
    requires !q.pc.SubmitGroups? && !q.pc.SubmitTenant? && CanStep(q) && (q.pc.Inspect? ==> q.once)
    ensures Rank(Local(q).0) < Rank(q)
  {}

  lemma SubmitDecreases(s: State, r: nat)
    requires Enabled(s, Advance(r)) && (s.reqs[r].pc.SubmitGroups? || s.reqs[r].pc.SubmitTenant?)
    ensures Measure(StepRequest(s, r)) < Measure(s)
  {
    var s' := StepRequest(s, r);
    var q' := s'.reqs[r];
    assert s'.workers == s.workers && s'.reqs == s.reqs[r := q'];
    assert Rank(q') + 5 * |s'.queue| < Rank(s.reqs[r]) + 5 * |s.queue|;
    RanksUpdate(s.reqs, r, q');
  }

  lemma AdvanceDecreases(s: State, r: nat)
    requires Enabled(s, Advance(r)) && (s.reqs[r].pc.Inspect? ==> s.reqs[r].once)
    ensures Measure(Apply(s, Advance(r))) < Measure(s)
  {
    var q := s.reqs[r];
    if q.pc.SubmitGroups? || q.pc.SubmitTenant? {
      SubmitDecreases(s, r);
    } else {
      LocalDecreases(q);
      RanksUpdate(s.reqs, r, Local(q).0);
    }
  }

  lemma ShuffleDecreases(s: State, step: Step)
    requires Enabled(s, step) && (step.Dequeue? || step.Begin? || step.Panic? || step.Exit?)
    ensures Measure(Apply(s, step)) < Measure(s)
  {
    WeightsUpdate(s.workers, step.worker, Apply(s, step).workers[step.worker]);
  }

  /** Sending and finishing change a lane, never the rank of the request. */
  lemma RanksKeep(qs: seq<Req>, r: nat, kind: Kind, l: Lane)
    requires r < |qs|
    ensures Ranks(qs[r := WithLane(qs[r], kind, l)]) == Ranks(qs)
  {
    RanksUpdate(qs, r, WithLane(qs[r], kind, l));
  }

  lemma ReportDecreases(s: State, step: Step)
    requires Enabled(s, step) && (step.Send? || step.Finish?)
    ensures Measure(Apply(s, step)) < Measure(s)
  {
    var s' := Apply(s, step);
    var j := s.workers[step.worker].job;
    var Job(r, kind) := s.jobs[j];
    WeightsUpdate(s.workers, step.worker, s'.workers[step.worker]);
    RanksKeep(s.reqs, r, kind, LaneOf(s'.reqs[r], kind));
    assert s'.reqs == s.reqs[r := WithLane(s.reqs[r], kind, LaneOf(s'.reqs[r], kind))];
  }

  lemma StepDecreases(s: State, step: Step)
    requires Inv(s) && Enabled(s, step) && Internal(step)
    ensures Measure(Apply(s, step)) < Measure(s)
  {
    if step.Advance? {
      assert ReqOk(s.reqs[step.req], step.req, s.jobs, s.finished, s.delivered);
      AdvanceDecreases(s, step.req);
    } else if step.Send? || step.Finish? {
      ReportDecreases(s, step);
    } else {
      ShuffleDecreases(s, step);
    }
  }

  /** A run without arrivals and shutdowns is no longer than the measure of its start. */
  lemma {:induction false} RunsAreBounded(s: State, steps: seq<Step>, s': State)
    requires Inv(s) && Run(s, steps, s') && forall i | 0 <= i < |steps| :: Internal(steps[i])
    ensures |steps| + Measure(s') <= Measure(s)
    decreases |steps|
  {
    if steps != [] {
      StepDecreases(s, steps[0]);
      StepKeepsInv(s, steps[0]);
      RunsAreBounded(Apply(s, steps[0]), steps[1..], s');
    }
  }

  /** From any reachable state, without new arrivals, only so many steps are left. */
  lemma ReachableRunsAreBounded(workers: nat, steps: seq<Step>, s: State, more: seq<Step>, s': State)
    requires Run(Init(workers), steps, s) && Run(s, more, s') && forall i | 0 <= i < |more| :: Internal(more[i])
    ensures |more| <= Measure(s)
  {
    ReachableInv(workers, steps, s);
    RunsAreBounded(s, more, s');
  }

  /** A reachable state with a live worker and nothing left to do has answered everyone. */
  lemma StuckMeansAnswered(workers: nat, steps: seq<Step>, s: State, alive: nat)
    requires Run(Init(workers), steps, s) && alive < |s.workers| && !s.workers[alive].Exited?
    requires forall step | Internal(step) :: !Enabled(s, step)
    ensures forall r | 0 <= r < |s.reqs| :: s.reqs[r].pc.Returned?
  {
    forall r | 0 <= r < |s.reqs| ensures s.reqs[r].pc.Returned? {
      if !s.reqs[r].pc.Returned? {
        var step := NoDeadlock(workers, steps, s, r, alive);
      }
    }
  }
}
