/**
 Jobs as their readers see them: workers and late progress ticks publish fresh instances under one
 lock, in any interleaving.
 */
module Jobs {
  import opened Basics

  datatype JobState = Waiting | Fetching | Done | Failed

  /** A published instance; report stands for the result or the error of a finished job. */
  datatype Job = Job(state: JobState, filesDone: int, filesTotal: int, report: Bytes)

  /** How a job is run: with progress ticks (Import, Fill), without (Plain), or decided before it is published. */
  datatype Kind = Import | Fill | Plain | Instant

  datatype Outcome = Outcome(ok: bool, report: Bytes)

  /** Where a worker stands; Ended has its outcome and waits for the job's own lock. */
  datatype Worker =
    | New
    | Queued
    | Running
    | Ended(outcome: Outcome)
    | Locked(outcome: Outcome)
    | Flagged(outcome: Outcome)
    | Published(outcome: Outcome)
    | Finished(outcome: Outcome)

  /** Where one call of the progress function stands. */
  datatype Tick = Calling(done: int, total: int) | Holding(done: int, total: int) | Loaded(next: Job) | Releasing | Over

  datatype Owner = TheWorker | TickOf(n: nat)

  /** One job's closure: the lock and the terminal flag that its worker and its ticks share. */
  datatype Flow = Flow(kind: Kind, job: Job, worker: Worker, ticks: map<nat, Tick>, mu: Option<Owner>, terminal: bool)

  /** jobs is the server's map, which its readers see between any two actions. */
  datatype State = State(jobs: map<nat, Job>, flows: map<nat, Flow>)

  datatype Action =
    | Create(id: nat, kind: Kind, job: Job)
    | Work(id: nat, outcome: Outcome)
    | Call(id: nat, n: nat, done: int, total: int)
    | Go(id: nat, n: nat)

  /** publishJob */
  function Publish(s: State, id: nat, job: Job): State {
    s.(jobs := s.jobs[id := job])
  }

  function SetFlow(s: State, id: nat, flow: Flow): State {
    s.(flows := s.flows[id := flow])
  }

  /** The terminal instance. */
  function Terminal(flow: Flow, o: Outcome): Job {
    flow.job.(state := if o.ok then Done else Failed, report := o.report,
              filesDone := if o.ok || flow.kind == Import then flow.job.filesTotal else flow.job.filesDone)
  }

  /** One step of the worker of runImport, startFillJob or a plain job. */
  function WorkerStep(s: State, id: nat, o: Outcome): State
    requires id in s.flows
  {
    var f := s.flows[id];
    match f.worker
    case New =>
      if f.kind == Instant then Publish(SetFlow(s, id, f.(worker := Finished(o), terminal := true)), id, Terminal(f, o))
      else if f.kind == Fill then Publish(SetFlow(s, id, f.(worker := Running)), id, f.job.(state := Fetching))
      else Publish(SetFlow(s, id, f.(worker := Queued)), id, f.job.(state := Waiting))
    case Queued => Publish(SetFlow(s, id, f.(worker := Running)), id, f.job.(state := Fetching))
    case Running => SetFlow(s, id, f.(worker := Ended(o)))
    case Ended(out) => if f.mu.None? then SetFlow(s, id, f.(worker := Locked(out), mu := Some(TheWorker))) else s
    case Locked(out) => SetFlow(s, id, f.(worker := Flagged(out), terminal := true))
    case Flagged(out) => Publish(SetFlow(s, id, f.(worker := Published(out))), id, Terminal(f, out))
    case Published(out) => SetFlow(s, id, f.(worker := Finished(out), mu := None))
    case Finished(out) => s
  }

  /** One step of a progress call: take the lock, look at the flag, copy an instance, publish, unlock. */
  function TickStep(s: State, id: nat, n: nat): State
    requires id in s.flows && n in s.flows[id].ticks
  {
    var f := s.flows[id];
    match f.ticks[n]
    case Calling(done, total) =>
      if f.mu.None? then SetFlow(s, id, f.(mu := Some(TickOf(n)), ticks := f.ticks[n := Holding(done, total)])) else s
    case Holding(done, total) =>
      if f.terminal then SetFlow(s, id, f.(ticks := f.ticks[n := Releasing]))
      else
        var base := if f.kind == Import && id in s.jobs then s.jobs[id] else f.job;
        SetFlow(s, id, f.(
          ticks := f.ticks[n := Loaded(base.(state := Fetching, filesDone := done, filesTotal := total))]))
    case Loaded(next) => Publish(SetFlow(s, id, f.(ticks := f.ticks[n := Releasing])), id, next)
    case Releasing => SetFlow(s, id, f.(mu := None, ticks := f.ticks[n := Over]))
    case Over => s
  }

  predicate MayTick(f: Flow) {
    (f.kind == Import || f.kind == Fill) && !f.worker.New? && !f.worker.Queued?
  }

  /** An action that is not possible changes nothing. */
  function Apply(s: State, a: Action): State {
    match a
    case Create(id, kind, job) =>
      if id in s.flows then s
      else SetFlow(s, id, Flow(kind, job, New, map[], None, false))
    case Work(id, o) => if id in s.flows then WorkerStep(s, id, o) else s
    case Call(id, n, done, total) =>
      if id in s.flows && MayTick(s.flows[id]) && n !in s.flows[id].ticks
      then SetFlow(s, id, s.flows[id].(ticks := s.flows[id].ticks[n := Calling(done, total)]))
      else s
    case Go(id, n) => if id in s.flows && n in s.flows[id].ticks then TickStep(s, id, n) else s
  }

  /** The state after some actions, in any order whatever. */
  function After(actions: seq<Action>): State {
    if actions == [] then State(map[], map[]) else Apply(After(actions[..|actions| - 1]), actions[|actions| - 1])
  }

  /* ---- The invariant ---- */

  predicate InSection(t: Tick) {
    t.Holding? || t.Loaded? || t.Releasing?
  }

  /** The lock has one owner, and under a set flag no tick has an instance left to publish. */
  ghost predicate LockOk(f: Flow) {
    && (f.worker.Locked? || f.worker.Flagged? || f.worker.Published? ==> f.mu == Some(TheWorker))
    && (forall n :: n in f.ticks && InSection(f.ticks[n]) ==> f.mu == Some(TickOf(n)))
    && (forall n :: n in f.ticks && f.ticks[n].Loaded? ==> !f.terminal && f.ticks[n].next.state == Fetching)
    && (f.terminal <==> f.worker.Flagged? || f.worker.Published? || f.worker.Finished?)
    && (f.worker.New? || f.worker.Queued? ==> f.ticks == map[])
    && OwnerOk(f)
  }

  /** Whoever has the lock is on the way to giving it back. */
  ghost predicate OwnerOk(f: Flow) {
    match f.mu
    case None => true
    case Some(TheWorker) => f.worker.Locked? || f.worker.Flagged? || f.worker.Published?
    case Some(TickOf(n)) => n in f.ticks && InSection(f.ticks[n])
  }

  /** What is visible of a job agrees with where its worker stands. */
  ghost predicate SeenOk(jobs: map<nat, Job>, id: nat, f: Flow) {
    match f.worker
    case New => id !in jobs
    case Queued => id in jobs && jobs[id].state == Waiting
    case Published(o) => id in jobs && jobs[id] == Terminal(f, o)
    case Finished(o) => id in jobs && jobs[id] == Terminal(f, o)
    case _ => id in jobs && jobs[id].state == Fetching
  }

  ghost predicate Inv(s: State) {
    && (forall id :: id in s.flows ==> LockOk(s.flows[id]) && SeenOk(s.jobs, id, s.flows[id]))
    && (forall id :: id in s.jobs ==> id in s.flows)
  }

  /** The moves that a reader may see of one job: forward, and never out of a terminal instance. */
  predicate Forward(before: Job, after: Job) {
    match before.state
    case Waiting => after.state == Waiting || after.state == Fetching
    case Fetching => after.state != Waiting
    case _ => after == before
  }

  lemma OneFlow(s: State, s': State, id: nat)
    requires Inv(s) && id in s.flows && id in s'.flows
    requires s'.flows == s.flows[id := s'.flows[id]]
    requires Moves(s, s', id)
    requires LockOk(s'.flows[id]) && SeenOk(s'.jobs, id, s'.flows[id])
    ensures Inv(s')
  {
    hide LockOk, Forward;
    forall k | k in s'.flows && k != id ensures SeenOk(s'.jobs, k, s'.flows[k]) {
      assert SeenOk(s.jobs, k, s.flows[k]);
    }
  }

  /** What a step of job id does to the readers' view: its own job moves forward, no other changes. */
  ghost predicate Moves(s: State, s': State, id: nat) {
    && (id in s.jobs ==> id in s'.jobs && Forward(s.jobs[id], s'.jobs[id]))
    && (forall k :: k != id ==> (k in s'.jobs <==> k in s.jobs) && (k in s.jobs ==> s'.jobs[k] == s.jobs[k]))
  }

  lemma WorkerLock(s: State, id: nat, o: Outcome)
    requires id in s.flows && LockOk(s.flows[id])
    ensures id in WorkerStep(s, id, o).flows && LockOk(WorkerStep(s, id, o).flows[id])
    ensures WorkerStep(s, id, o).flows == s.flows[id := WorkerStep(s, id, o).flows[id]]
  {
    hide Terminal;
  }

  lemma WorkerSeen(s: State, id: nat, o: Outcome)
    requires id in s.flows && SeenOk(s.jobs, id, s.flows[id])
    ensures id in WorkerStep(s, id, o).flows && SeenOk(WorkerStep(s, id, o).jobs, id, WorkerStep(s, id, o).flows[id])
    ensures Moves(s, WorkerStep(s, id, o), id)
  {
  }

  lemma TickLock(s: State, id: nat, n: nat)
    requires id in s.flows && n in s.flows[id].ticks && LockOk(s.flows[id])
    ensures id in TickStep(s, id, n).flows && LockOk(TickStep(s, id, n).flows[id])
    ensures TickStep(s, id, n).flows == s.flows[id := TickStep(s, id, n).flows[id]]
  {
  }

  lemma TickSeen(s: State, id: nat, n: nat)
    requires id in s.flows && n in s.flows[id].ticks && LockOk(s.flows[id]) && SeenOk(s.jobs, id, s.flows[id])
    ensures id in TickStep(s, id, n).flows && SeenOk(TickStep(s, id, n).jobs, id, TickStep(s, id, n).flows[id])
    ensures Moves(s, TickStep(s, id, n), id)
  {
    assert s.flows[id].ticks != map[];
  }

  lemma WorkerKeeps(s: State, id: nat, o: Outcome)
    requires Inv(s) && id in s.flows
    ensures Inv(WorkerStep(s, id, o)) && Moves(s, WorkerStep(s, id, o), id)
  {
    hide WorkerStep, LockOk, SeenOk, Forward;
    WorkerLock(s, id, o);
    WorkerSeen(s, id, o);
    OneFlow(s, WorkerStep(s, id, o), id);
  }

  lemma TickKeeps(s: State, id: nat, n: nat)
    requires Inv(s) && id in s.flows && n in s.flows[id].ticks
    ensures Inv(TickStep(s, id, n)) && Moves(s, TickStep(s, id, n), id)
  {
    hide TickStep, LockOk, SeenOk, Forward;
    TickLock(s, id, n);
    TickSeen(s, id, n);
    OneFlow(s, TickStep(s, id, n), id);
  }

  lemma CallKeeps(s: State, id: nat, n: nat, done: int, total: int)
    requires Inv(s) && id in s.flows
    ensures Inv(Apply(s, Call(id, n, done, total)))
  {
    hide Forward;
    assert LockOk(s.flows[id]) && SeenOk(s.jobs, id, s.flows[id]);
    var s' := Apply(s, Call(id, n, done, total));
    if s' != s {
      assert Moves(s, s', id) by {
        if id in s.jobs {
          ForwardRefl(s.jobs[id]);
        }
      }
      OneFlow(s, s', id);
    }
  }

  lemma ForwardRefl(job: Job)
    ensures Forward(job, job)
  {
  }

  lemma ApplyKeeps(s: State, a: Action)
    requires Inv(s)
    ensures Inv(Apply(s, a))
    ensures forall k :: k in s.jobs ==> k in Apply(s, a).jobs && Forward(s.jobs[k], Apply(s, a).jobs[k])
  {
    hide WorkerStep, TickStep, Forward;
    forall k | k in s.jobs ensures Forward(s.jobs[k], s.jobs[k]) {
      ForwardRefl(s.jobs[k]);
    }
    match a {
      case Work(id, o) =>
        if id in s.flows {
          WorkerKeeps(s, id, o);
        }
      case Go(id, n) =>
        if id in s.flows && n in s.flows[id].ticks {
          TickKeeps(s, id, n);
        }
      case Call(id, n, done, total) =>
        if id in s.flows {
          CallKeeps(s, id, n, done, total);
        }
      case Create(id, kind, job) =>
    }
  }

  lemma {:induction false} InvAlways(actions: seq<Action>)
    ensures Inv(After(actions))
  {
    if actions != [] {
      InvAlways(actions[..|actions| - 1]);
      ApplyKeeps(After(actions[..|actions| - 1]), actions[|actions| - 1]);
    }
  }

  lemma LastAction(actions: seq<Action>, more: seq<Action>)
    requires more != []
    ensures After(actions + more) == Apply(After(actions + more[..|more| - 1]), more[|more| - 1])
  {
    hide Apply;
    var all := actions + more;
    assert all[..|all| - 1] == actions + more[..|more| - 1] && all[|all| - 1] == more[|more| - 1];
  }

  /**
   Whatever the interleaving of workers and ticks: a visible job stays visible, is never seen to go
   back, and a terminal instance is never replaced.
   */
  lemma {:induction false} NeverBack(actions: seq<Action>, more: seq<Action>, id: nat)
    requires id in After(actions).jobs
    ensures id in After(actions + more).jobs
    ensures var b, a := After(actions).jobs[id], After(actions + more).jobs[id];
      && ((b.state == Done || b.state == Failed) ==> a == b)
      && (b.state == Fetching ==> a.state != Waiting)
  {
    if more == [] {
      assert actions + more == actions;
    } else {
      hide Apply, Inv, After;
      var n := |more| - 1;
      LastAction(actions, more);
      NeverBack(actions, more[..n], id);
      InvAlways(actions + more[..n]);
      ApplyKeeps(After(actions + more[..n]), more[n]);
    }
  }

  /** Each single action moves a visible job along waiting, fetching, done or failed, one stage at a time. */
  lemma OneStage(actions: seq<Action>, a: Action, id: nat)
    requires id in After(actions).jobs
    ensures id in Apply(After(actions), a).jobs && Forward(After(actions).jobs[id], Apply(After(actions), a).jobs[id])
  {
    InvAlways(actions);
    ApplyKeeps(After(actions), a);
  }

  /* ---- How jobs end ---- */

  /** Job, kind and outcome of a flow are those of its actions. */
  ghost predicate FromActions(actions: seq<Action>, id: nat, f: Flow) {
    && Create(id, f.kind, f.job) in actions
    && (f.worker.Ended? || f.worker.Locked? || f.worker.Flagged? || f.worker.Published? || f.worker.Finished? ==>
         Work(id, f.worker.outcome) in actions)
  }

  ghost predicate AllFromActions(actions: seq<Action>, s: State) {
    forall id :: id in s.flows ==> FromActions(actions, id, s.flows[id])
  }

  lemma ApplyFromActions(actions: seq<Action>, s: State, a: Action)
    requires AllFromActions(actions, s)
    ensures AllFromActions(actions + [a], Apply(s, a))
  {
    hide WorkerStep, TickStep, MayTick;
    var all := actions + [a];
    assert a in all && forall b :: b in actions ==> b in all;
    assert AllFromActions(all, s);
    match a {
      case Work(id, o) =>
        if id in s.flows {
          WorkFromActions(all, s, id, o);
        }
      case Go(id, n) =>
        if id in s.flows && n in s.flows[id].ticks {
          GoFromActions(all, s, id, n);
        }
      case _ =>
    }
  }

  lemma WorkFromActions(actions: seq<Action>, s: State, id: nat, o: Outcome)
    requires AllFromActions(actions, s) && id in s.flows && Work(id, o) in actions
    ensures AllFromActions(actions, WorkerStep(s, id, o))
  {
    hide Terminal;
    assert FromActions(actions, id, s.flows[id]);
  }

  lemma GoFromActions(actions: seq<Action>, s: State, id: nat, n: nat)
    requires AllFromActions(actions, s) && id in s.flows && n in s.flows[id].ticks
    ensures AllFromActions(actions, TickStep(s, id, n))
  {
    assert FromActions(actions, id, s.flows[id]);
  }

  lemma {:induction false} FlowsFromActions(actions: seq<Action>)
    ensures AllFromActions(actions, After(actions))
  {
    hide Apply, AllFromActions;
    if actions == [] {
      NoFlows();
    } else {
      var n := |actions| - 1;
      FlowsFromActions(actions[..n]);
      assert actions == actions[..n] + [actions[n]];
      ApplyFromActions(actions[..n], After(actions[..n]), actions[n]);
    }
  }

  lemma NoFlows()
    ensures AllFromActions([], State(map[], map[]))
  {
  }

  /**
   A job that is seen done was reported a success by its worker, and one seen failed a failure; the
   numbers are those it was created with, all files done unless a fill has failed.
   */
  lemma TerminalIsTrue(actions: seq<Action>, id: nat) returns (kind: Kind, created: Job, o: Outcome)
    requires id in After(actions).jobs
    requires After(actions).jobs[id].state == Done || After(actions).jobs[id].state == Failed
    ensures Create(id, kind, created) in actions && Work(id, o) in actions
    ensures var job := After(actions).jobs[id];
      && (o.ok <==> job.state == Done) && o.report == job.report
      && job.filesTotal == created.filesTotal
      && job.filesDone == if o.ok || kind == Import then created.filesTotal else created.filesDone
  {
    InvAlways(actions);
    FlowsFromActions(actions);
    var f := After(actions).flows[id];
    assert SeenOk(After(actions).jobs, id, f) && FromActions(actions, id, f);
    kind, created, o := f.kind, f.job, f.worker.outcome;
  }

  function WorkLeft(w: Worker): nat {
    match w
    case New => 7
    case Queued => 6
    case Running => 5
    case Ended(_) => 4
    case Locked(_) => 3
    case Flagged(_) => 2
    case Published(_) => 1
    case Finished(_) => 0
  }

  /** How far the tick that has the lock is from giving it back. */
  function TickLeft(f: Flow): nat {
    match f.mu
    case Some(TickOf(n)) =>
      if n !in f.ticks then 0
      else if f.ticks[n].Holding? then 3
      else if f.ticks[n].Loaded? then 2
      else if f.ticks[n].Releasing? then 1
      else 0
    case _ => 0
  }

  /** As long as a job has not ended, some action of its own brings it closer. */
  lemma NextAction(s: State, id: nat, o: Outcome) returns (a: Action)
    requires Inv(s) && id in s.flows && WorkLeft(s.flows[id].worker) > 0
    ensures id in Apply(s, a).flows
    ensures var f, g := s.flows[id], Apply(s, a).flows[id];
      WorkLeft(g.worker) < WorkLeft(f.worker) || (WorkLeft(g.worker) == WorkLeft(f.worker) && TickLeft(g) < TickLeft(f))
  {
    hide Terminal;
    var f := s.flows[id];
    assert LockOk(f);
    match f.mu {
      case Some(TickOf(n)) => a := if f.worker.Ended? then Go(id, n) else Work(id, o);
      case _ => a := Work(id, o);
    }
  }

  /** No deadlock: whatever has happened, a job can still end, and then its readers see how. */
  lemma {:induction false} CanEnd(actions: seq<Action>, id: nat, o: Outcome) returns (more: seq<Action>)
    requires id in After(actions).flows
    ensures id in After(actions + more).jobs
    ensures After(actions + more).jobs[id].state == Done || After(actions + more).jobs[id].state == Failed
    decreases WorkLeft(After(actions).flows[id].worker), TickLeft(After(actions).flows[id])
  {
    InvAlways(actions);
    var f := After(actions).flows[id];
    if WorkLeft(f.worker) == 0 {
      more := [];
      assert actions + [] == actions && SeenOk(After(actions).jobs, id, f);
    } else {
      hide Apply, Inv;
      var a := NextAction(After(actions), id, o);
      assert (actions + [a])[..|actions|] == actions;
      more := CanEnd(actions + [a], id, o);
      assert actions + [a] + more == actions + ([a] + more);
      more := [a] + more;
    }
  }

  /* ---- Progress ---- */

  /** Some progress call of the job has reported these numbers. */
  ghost predicate Reported(actions: seq<Action>, id: nat, done: int, total: int) {
    exists n :: Call(id, n, done, total) in actions
  }

  /** The numbers on the way to the readers are those of the job as it was created, or reported ones. */
  ghost predicate FlowReports(actions: seq<Action>, jobs: map<nat, Job>, id: nat, f: Flow) {
    && (forall n :: n in f.ticks ==>
         match f.ticks[n]
         case Calling(done, total) => Reported(actions, id, done, total)
         case Holding(done, total) => Reported(actions, id, done, total)
         case Loaded(next) => Reported(actions, id, next.filesDone, next.filesTotal)
         case _ => true)
    && (id in jobs && (jobs[id].state == Waiting || jobs[id].state == Fetching) ==>
         (jobs[id].filesDone == f.job.filesDone && jobs[id].filesTotal == f.job.filesTotal) ||
         Reported(actions, id, jobs[id].filesDone, jobs[id].filesTotal))
  }

  ghost predicate AllReported(actions: seq<Action>, s: State) {
    && (forall id :: id in s.flows ==> FlowReports(actions, s.jobs, id, s.flows[id]))
    && (forall id :: id in s.jobs ==> id in s.flows)
  }

  lemma MoreReports(actions: seq<Action>, a: Action, s: State)
    requires AllReported(actions, s)
    ensures AllReported(actions + [a], s)
  {
    forall id, done, total | Reported(actions, id, done, total) ensures Reported(actions + [a], id, done, total) {
      var n :| Call(id, n, done, total) in actions;
      assert Call(id, n, done, total) in actions + [a];
    }
  }

  /** A step of one job that keeps its own numbers in order. */
  lemma OneReports(actions: seq<Action>, s: State, s': State, id: nat)
    requires AllReported(actions, s) && id in s.flows && id in s'.flows && s'.flows == s.flows[id := s'.flows[id]]
    requires s'.jobs == s.jobs || (id in s'.jobs && s'.jobs == s.jobs[id := s'.jobs[id]])
    requires FlowReports(actions, s'.jobs, id, s'.flows[id])
    ensures AllReported(actions, s')
  {
    hide Reported;
    forall k | k in s'.flows && k != id ensures FlowReports(actions, s'.jobs, k, s'.flows[k]) {
      assert FlowReports(actions, s.jobs, k, s.flows[k]);
    }
  }

  lemma TerminalEnds(f: Flow, o: Outcome)
    ensures Terminal(f, o).state == Done || Terminal(f, o).state == Failed
  {
  }

  lemma WorkerOwn(actions: seq<Action>, s: State, id: nat, o: Outcome)
    requires id in s.flows && FlowReports(actions, s.jobs, id, s.flows[id])
    ensures var s' := WorkerStep(s, id, o);
      id in s'.flows && FlowReports(actions, s'.jobs, id, s'.flows[id]) && s'.flows == s.flows[id := s'.flows[id]] &&
      (s'.jobs == s.jobs || (id in s'.jobs && s'.jobs == s.jobs[id := s'.jobs[id]]))
  {
    hide Reported, Terminal;
    var f := s.flows[id];
    TerminalEnds(f, o);
    if f.worker.Flagged? {
      TerminalEnds(f, f.worker.outcome);
    }
  }

  lemma WorkerReports(actions: seq<Action>, s: State, id: nat, o: Outcome)
    requires AllReported(actions, s) && id in s.flows
    ensures AllReported(actions, WorkerStep(s, id, o))
  {
    hide Reported, WorkerStep, FlowReports;
    WorkerOwn(actions, s, id, o);
    OneReports(actions, s, WorkerStep(s, id, o), id);
  }

  lemma TickOwn(actions: seq<Action>, s: State, id: nat, n: nat)
    requires id in s.flows && n in s.flows[id].ticks && FlowReports(actions, s.jobs, id, s.flows[id])
    ensures var s' := TickStep(s, id, n);
      id in s'.flows && FlowReports(actions, s'.jobs, id, s'.flows[id]) && s'.flows == s.flows[id := s'.flows[id]] &&
      (s'.jobs == s.jobs || (id in s'.jobs && s'.jobs == s.jobs[id := s'.jobs[id]]))
  {
    hide Reported;
  }

  lemma TickReports(actions: seq<Action>, s: State, id: nat, n: nat)
    requires AllReported(actions, s) && id in s.flows && n in s.flows[id].ticks
    ensures AllReported(actions, TickStep(s, id, n))
  {
    hide Reported, TickStep, FlowReports;
    TickOwn(actions, s, id, n);
    OneReports(actions, s, TickStep(s, id, n), id);
  }

  lemma CallReports(actions: seq<Action>, s: State, id: nat, n: nat, done: int, total: int)
    requires AllReported(actions, s)
    ensures AllReported(actions + [Call(id, n, done, total)], Apply(s, Call(id, n, done, total)))
  {
    hide Reported;
    MoreReports(actions, Call(id, n, done, total), s);
    assert Reported(actions + [Call(id, n, done, total)], id, done, total) by {
      Has(actions, id, n, done, total);
    }
  }

  lemma Has(actions: seq<Action>, id: nat, n: nat, done: int, total: int)
    ensures Reported(actions + [Call(id, n, done, total)], id, done, total)
  {
    assert Call(id, n, done, total) in actions + [Call(id, n, done, total)];
  }

  lemma {:induction false} ReportsAlways(actions: seq<Action>)
    ensures AllReported(actions, After(actions))
  {
    if actions != [] {
      hide Reported, WorkerStep, TickStep, FlowReports;
      var before, a := actions[..|actions| - 1], actions[|actions| - 1];
      assert actions == before + [a];
      ReportsAlways(before);
      MoreReports(before, a, After(before));
      match a {
        case Create(id, kind, job) => CreateReports(actions, After(before), id, kind, job);
        case Work(id, o) =>
          if id in After(before).flows {
            WorkerReports(actions, After(before), id, o);
          }
        case Call(id, n, done, total) => CallReports(before, After(before), id, n, done, total);
        case Go(id, n) =>
          if id in After(before).flows && n in After(before).flows[id].ticks {
            TickReports(actions, After(before), id, n);
          }
      }
    }
  }

  lemma CreateReports(actions: seq<Action>, s: State, id: nat, kind: Kind, job: Job)
    requires AllReported(actions, s)
    ensures AllReported(actions, Apply(s, Create(id, kind, job)))
  {
    hide Reported;
  }

  /** What a reader sees of a running job are the numbers it was created with, or a pair that was reported. */
  lemma ProgressIsReported(actions: seq<Action>, id: nat) returns (kind: Kind, created: Job)
    requires id in After(actions).jobs && After(actions).jobs[id].state == Fetching
    ensures Create(id, kind, created) in actions
    ensures var job := After(actions).jobs[id];
      (job.filesDone == created.filesDone && job.filesTotal == created.filesTotal) ||
      exists n :: Call(id, n, job.filesDone, job.filesTotal) in actions
  {
    hide After;
    ReportsAlways(actions);
    FlowsFromActions(actions);
    var f := After(actions).flows[id];
    assert FlowReports(actions, After(actions).jobs, id, f) && FromActions(actions, id, f);
    kind, created := f.kind, f.job;
  }

  /** A call of a running job that is let through shows its numbers, and gives the lock back. */
  lemma ProgressIsShown(actions: seq<Action>, id: nat, n: nat, done: int, total: int)
    requires var s := After(actions); id in s.flows && MayTick(s.flows[id]) && n !in s.flows[id].ticks
    requires After(actions).flows[id].mu.None? && !After(actions).flows[id].terminal
    ensures var s := After(actions + [Call(id, n, done, total), Go(id, n), Go(id, n), Go(id, n)]);
      && id in s.jobs && s.jobs[id].state == Fetching && s.jobs[id].filesDone == done && s.jobs[id].filesTotal == total
  {
    hide Apply, After, MayTick;
    var call, go := Call(id, n, done, total), Go(id, n);
    LastAction(actions, [call]);
    LastAction(actions, [call, go]);
    LastAction(actions, [call, go, go]);
    LastAction(actions, [call, go, go, go]);
    assert [call][..0] == [] && [call, go][..1] == [call] && [call, go, go][..2] == [call, go];
    assert [call, go, go, go][..3] == [call, go, go] && actions + [] == actions;
    TickThrough(After(actions), id, n, done, total);
  }

  lemma TickThrough(s: State, id: nat, n: nat, done: int, total: int)
    requires id in s.flows && MayTick(s.flows[id]) && n !in s.flows[id].ticks
    requires s.flows[id].mu.None? && !s.flows[id].terminal
    ensures var t := Apply(Apply(Apply(Apply(s, Call(id, n, done, total)), Go(id, n)), Go(id, n)), Go(id, n));
      && id in t.jobs && t.jobs[id].state == Fetching && t.jobs[id].filesDone == done && t.jobs[id].filesTotal == total
  {
    hide MayTick;
  }
}
