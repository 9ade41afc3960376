/** Races on deployments. */
module DeploymentRaces {
  // What makes a deployment run and what takes it down again, in every state and in
  // every run, and when the safety net is the no-op it is meant to be.

  import opened Options
  import opened DeploymentTables
  import opened DeploymentProtocol

  // -------------------------------------------- terminal states do not absorb

  predicate Runs(t: Tables, d: Id) { d in t.deployments && t.deployments[d].status == Running }

  /** Which single writes can make a deployment run. */
  lemma WritesThatRun(t: Tables, x: Id, d: Id)
    requires !Runs(t, d)
    ensures forall status :: status != Running ==> !Runs(SetDeployment(t, x, status), d)
    ensures forall status :: !Runs(SetAppOf(t, x, status), d)
    ensures forall status :: !Runs(SetApp(t, x, status), d)
    ensures forall healthy ::
      Runs(Finalize(t, x, healthy), d) <==> healthy && x == d && d in t.deployments
  {}

  lemma RunWritesThatRun(t: Tables, x: Id, d: Id)
    ensures forall i, stage :: Runs(SetStage(t, x, i, stage), d) == Runs(t, d)
    ensures forall status :: Runs(SetRun(t, x, status), d) == Runs(t, d)
    ensures Runs(CreateRun(t, x), d) == Runs(t, d)
    ensures forall a, status :: status != Running && !Runs(t, d) ==> !Runs(AddDeployment(t, a, x, status), d)
  {}

  lemma WorkerNeverRuns(t: Tables, x: Id, w: Worker, d: Id)
    requires !Runs(t, d)
    ensures !Runs(WorkerWrite(t, x, w), d)
  {
    hide Runs, SetDeployment, SetAppOf, SetRun, SetStage, CreateRun;
    WritesThatRun(t, x, d);
    RunWritesThatRun(t, x, d);
  }

  lemma HandlerRunsExactly(t: Tables, x: Id, o: Option<Outcome>, phase: Phase, d: Id)
    requires !Runs(t, d) && Known(t, d)
    ensures Runs(HandlerWrite(t, x, o, phase), d) <==> x == d && phase == Received && o == Some(Healthy)
  {
    hide Runs, SetDeployment, SetAppOf, SetRun, SetStage, Finalize;
    WritesThatRun(t, x, d);
    RunWritesThatRun(t, x, d);
  }

  /** Whatever state a deployment is in, terminal ones included, the one step that
      makes it run is the finalizing transaction of a healthy report. */
  lemma OnlyHealthyReportsRun(s: State, step: Step, d: Id)
    requires Enabled(s, step) && d in s.t.deployments && !Runs(s.t, d)
    ensures Runs(Next(s, step).t, d) <==>
      step.HandlerStep? && s.handlers[step.h] == Handler(d, Received) && Find(s.outcomes, d) == Some(Healthy)
  {
    hide Runs, WorkerWrite, HandlerWrite, SetDeployment, SetAppOf, SetApp, SetRun, SetStage, AddDeployment,
      PhaseAfter, WorkerAfter, IsTerminal;
    if step.HandlerStep? {
      var Handler(x, phase) := s.handlers[step.h];
      HandlerRunsExactly(s.t, x, Find(s.outcomes, x), phase, d);
    } else if step.WorkerStep? {
      WorkerNeverRuns(s.t, step.d, s.workers[step.d], d);
    } else {
      StepsThatDoNot(s, step, d);
    }
  }

  lemma StepsThatDoNot(s: State, step: Step, d: Id)
    requires Enabled(s, step) && !Runs(s.t, d) && !step.HandlerStep? && !step.WorkerStep?
    ensures !Runs(Next(s, step).t, d)
  {
    hide Runs, SetDeployment, SetAppOf, SetApp, SetRun, SetStage, AddDeployment, WorkerNext, HandlerNext, IsTerminal;
    if step.CreateApp? { AppsDoNotRun(s.t, Next(s, step).t, d); }
    else if step.SetAppStatus? { WritesThatRun(s.t, step.a, d); }
    else {
      var x := if step.HandlerStart? then step.h else step.d;
      WritesThatRun(s.t, x, d);
      RunWritesThatRun(s.t, x, d);
      if step.Trigger? { WritesThatRun(AddDeployment(s.t, step.a, x, Queued), step.a, d); }
    }
  }

  lemma AppsDoNotRun(t: Tables, u: Tables, d: Id)
    requires u.deployments == t.deployments
    ensures Runs(u, d) == Runs(t, d)
  {}

  // A late success and a stale read.

  /** A healthy report is about to be applied; the safety net has read the
      deployment as unfinished and is about to fail it. */
  predicate Racing(s: State, h: Id, d: Id) {
    && h in s.handlers && s.handlers[h] == Handler(d, Received)
    && Find(s.outcomes, d) == Some(Healthy)
    && Find(s.health, d) == Some(TimedOut(0))
    && d in s.t.deployments
  }

  /** The later of the two writes wins: a deployment that has failed runs again,
      and one that runs fails on a stale read. */
  lemma LaterWriteWins(s: State, h: Id, d: Id)
    requires Racing(s, h, d)
    ensures var t := Exec(s, [HealthWrite(d)]).t; d in t.deployments && t.deployments[d].status == Failed
    ensures Runs(Exec(s, [HealthWrite(d), HandlerStep(h)]).t, d)
    ensures Runs(Exec(s, [HandlerStep(h)]).t, d)
    ensures var t := Exec(s, [HandlerStep(h), HealthWrite(d)]).t;
      d in t.deployments && t.deployments[d].status == Failed
  {
    hide Exec, Next, Enabled, Runs, Racing;
    NetThenReport(s, h, d);
    ReportThenNet(s, h, d);
    TwoSteps(s, HealthWrite(d), HandlerStep(h));
    TwoSteps(s, HandlerStep(h), HealthWrite(d));
  }

  lemma NetThenReport(s: State, h: Id, d: Id)
    requires Racing(s, h, d)
    ensures Enabled(s, HealthWrite(d)) && Enabled(Next(s, HealthWrite(d)), HandlerStep(h))
    ensures var t := Next(s, HealthWrite(d)).t; d in t.deployments && t.deployments[d].status == Failed
    ensures Runs(Next(Next(s, HealthWrite(d)), HandlerStep(h)).t, d)
  {
    hide PhaseAfter;
  }

  lemma ReportThenNet(s: State, h: Id, d: Id)
    requires Racing(s, h, d)
    ensures Enabled(s, HandlerStep(h)) && Enabled(Next(s, HandlerStep(h)), HealthWrite(d))
    ensures Runs(Next(s, HandlerStep(h)).t, d)
    ensures var t := Next(Next(s, HandlerStep(h)), HealthWrite(d)).t;
      d in t.deployments && t.deployments[d].status == Failed
  {
    hide PhaseAfter;
  }

  lemma TwoSteps(s: State, a: Step, b: Step)
    requires Enabled(s, a) && Enabled(Next(s, a), b)
    ensures Exec(s, [a]) == Next(s, a) && Exec(s, [a, b]) == Next(Next(s, a), b)
  {
    hide Next, Enabled;
    assert [a] + [b] == [a, b];
    OneStep(s, a, []);
    OneStep(s, a, [b]);
    OneStep(Next(s, a), b, []);
  }

  function WorkerAt(n: nat): Worker { if n == 0 then JobQueued else WorkerAfter(WorkerAt(n - 1)) }

  /** A deployment whose worker has met no trouble so far. */
  predicate OnTrack(s: State, d: Id, w: Worker) {
    && d in s.workers && s.workers[d] == w
    && d in s.t.deployments && !IsTerminal(s.t.deployments[d].status)
    && (w.CommandCreated? || w.CommandSigned? || w.WorkerDone? ==> d in s.commands)
    && (if w.WorkerDone? then Find(s.health, d) == Some(Scheduled) else d !in s.health)
    && d !in s.outcomes && s.handlers == map[]
  }

  lemma TrackGoesOn(s: State, d: Id, w: Worker)
    requires OnTrack(s, d, w) && !w.Catching? && !w.NoNodeMarked? && !w.WorkerDone?
    ensures OnTrack(WorkerNext(s, d), d, WorkerAfter(w))
  {
    hide Reached;
  }

  lemma {:induction false} Track(s: State, d: Id, n: nat)
    requires OnTrack(s, d, JobQueued) && n <= 17
    ensures OnTrack(Exec(s, Repeat(WorkerStep(d), n)), d, WorkerAt(n))
  {
    if n > 0 {
      Track(s, d, n - 1);
      var u := Exec(s, Repeat(WorkerStep(d), n - 1));
      ExecInTwo(s, Repeat(WorkerStep(d), n - 1), [WorkerStep(d)]);
      OneStep(u, WorkerStep(d), []);
      Regular(n - 1);
      TrackGoesOn(u, d, WorkerAt(n - 1));
    }
  }

  lemma Regular(n: nat)
    requires n <= 16
    ensures !WorkerAt(n).Catching? && !WorkerAt(n).NoNodeMarked? && !WorkerAt(n).WorkerDone?
    ensures WorkerAt(17) == WorkerDone
  {
    assert WorkerAt(10) == Ready(PACKAGE);
    assert WorkerAt(16) == CommandSigned;
  }

  function RaceSetUp(): seq<Step> {
    [CreateApp(0)] + ([Trigger(0, 1)]
      + (Repeat(WorkerStep(1), 17) + [Decide(1, Healthy), HandlerStart(0, 1), HealthRead(1)]))
  }

  /** Such a race is reachable. */
  lemma RaceIsReachable()
    ensures Racing(Exec(INIT, RaceSetUp()), 0, 1)
  {
    hide Exec, Repeat, WorkerAt;
    var s1 := Next(INIT, CreateApp(0));
    var s2 := Next(s1, Trigger(0, 1));
    var tail := [Decide(1, Healthy), HandlerStart(0, 1), HealthRead(1)];
    OneStep(INIT, CreateApp(0), [Trigger(0, 1)] + (Repeat(WorkerStep(1), 17) + tail));
    OneStep(s1, Trigger(0, 1), Repeat(WorkerStep(1), 17) + tail);
    ExecInTwo(s2, Repeat(WorkerStep(1), 17), tail);
    Track(s2, 1, 17);
    Regular(0);
    var s3 := Exec(s2, Repeat(WorkerStep(1), 17));
    RaceStarts(s3, 0, 1);
  }

  lemma RaceStarts(s: State, h: Id, d: Id)
    requires OnTrack(s, d, WorkerDone)
    ensures Racing(Exec(s, [Decide(d, Healthy), HandlerStart(h, d), HealthRead(d)]), h, d)
  {
    var s1 := Next(s, Decide(d, Healthy));
    var s2 := Next(s1, HandlerStart(h, d));
    var s3 := Next(s2, HealthRead(d));
    OneStep(s, Decide(d, Healthy), [HandlerStart(h, d), HealthRead(d)]);
    OneStep(s1, HandlerStart(h, d), [HealthRead(d)]);
    OneStep(s2, HealthRead(d), []);
    assert [Decide(d, Healthy)] + [HandlerStart(h, d), HealthRead(d)]
           == [Decide(d, Healthy), HandlerStart(h, d), HealthRead(d)];
    assert [HandlerStart(h, d)] + [HealthRead(d)] == [HandlerStart(h, d), HealthRead(d)];
  }

  // ----------------------------------------------- what takes a deployment down

  predicate Failing(o: Option<Outcome>) { o.Some? && o.value != Healthy }

  /** The steps that take a running deployment out of running: the safety net's first
      write after a read of an unfinished one, a report that it is being deployed, the
      worker's own status writes, a bad report, and a healthy report of another
      deployment of the same app. */
  predicate Stops(s: State, step: Step, d: Id)
    requires Enabled(s, step) && d in s.t.deployments
  {
    match step
    case HealthWrite(x) => x == d && s.health[x] == TimedOut(0)
    case ReportRunning(x) => x == d
    case WorkerNoNode(x) => x == d
    case WorkerStep(x) => x == d && StopsAt(s.workers[x])
    case HandlerStep(h) =>
      && s.handlers[h].phase == Received
      && ReportStops(s.t, s.handlers[h].d, Find(s.outcomes, s.handlers[h].d), d)
    case _ => false
  }

  predicate StopsAt(w: Worker) { w == RunCreated || w == In(PACKAGE) || w == Catching(1) }

  predicate ReportStops(t: Tables, x: Id, o: Option<Outcome>, d: Id)
    requires d in t.deployments
  {
    if x == d then Failing(o)
    else o == Some(Healthy) && x in t.deployments && t.deployments[x].app == t.deployments[d].app
  }

  /** Which single writes leave a running deployment running. */
  lemma WritesThatStop(t: Tables, x: Id, d: Id)
    requires Runs(t, d)
    ensures forall status :: Runs(SetDeployment(t, x, status), d) <==> x != d || status == Running
    ensures forall status :: Runs(SetAppOf(t, x, status), d)
    ensures forall status :: Runs(SetApp(t, x, status), d)
    ensures forall healthy :: Runs(Finalize(t, x, healthy), d) <==>
      if x == d then healthy
      else !(healthy && x in t.deployments && t.deployments[x].app == t.deployments[d].app)
    ensures forall a, status :: x != d ==> Runs(AddDeployment(t, a, x, status), d)
  {}

  lemma WorkerStopsExactly(t: Tables, x: Id, w: Worker, d: Id)
    requires Runs(t, d)
    ensures !Runs(WorkerWrite(t, x, w), d) <==> x == d && StopsAt(w)
  {
    hide Runs, SetDeployment, SetAppOf, SetRun, SetStage, CreateRun;
    WritesThatStop(t, x, d);
    RunWritesThatRun(t, x, d);
  }

  lemma ReportStopsExactly(t: Tables, x: Id, o: Option<Outcome>, phase: Phase, d: Id)
    requires Runs(t, d) && d in t.deployments
    ensures !Runs(HandlerWrite(t, x, o, phase), d) <==> phase == Received && ReportStops(t, x, o, d)
  {
    hide Runs, SetDeployment, SetAppOf, SetRun, SetStage, Finalize;
    WritesThatStop(t, x, d);
    RunWritesThatRun(t, x, d);
    RunsIsKnown(t, d);
  }

  lemma RunsIsKnown(t: Tables, d: Id)
    ensures Runs(t, d) ==> d in t.deployments
  {}

  /** In every state, those are exactly the steps that stop a running deployment. */
  lemma RunningLeavesExactly(s: State, step: Step, d: Id)
    requires Enabled(s, step) && Runs(s.t, d)
    ensures d in s.t.deployments
    ensures !Runs(Next(s, step).t, d) <==> Stops(s, step, d)
  {
    hide Runs, WorkerWrite, HandlerWrite, SetDeployment, SetAppOf, SetApp, SetRun, SetStage, AddDeployment,
      PhaseAfter, WorkerAfter, IsTerminal, StopsAt, ReportStops;
    RunsIsKnown(s.t, d);
    if step.HandlerStep? {
      var Handler(x, phase) := s.handlers[step.h];
      ReportStopsExactly(s.t, x, Find(s.outcomes, x), phase, d);
    } else if step.WorkerStep? {
      WorkerStopsExactly(s.t, step.d, s.workers[step.d], d);
    } else if step.CreateApp? {
      AppsDoNotRun(s.t, Next(s, step).t, d);
    } else if step.SetAppStatus? {
      WritesThatStop(s.t, step.a, d);
    } else {
      OtherStops(s, step, d);
    }
  }

  lemma OtherStops(s: State, step: Step, d: Id)
    requires Enabled(s, step) && Runs(s.t, d) && d in s.t.deployments
    requires !step.HandlerStep? && !step.WorkerStep? && !step.CreateApp? && !step.SetAppStatus?
    ensures !Runs(Next(s, step).t, d) <==> Stops(s, step, d)
  {
    hide Runs, SetDeployment, SetAppOf, SetApp, SetRun, SetStage, AddDeployment, WorkerNext, HandlerNext, IsTerminal,
      StopsAt, ReportStops;
    var x := if step.HandlerStart? then step.h else step.d;
    WritesThatStop(s.t, x, d);
    RunWritesThatRun(s.t, x, d);
    if step.Trigger? { WritesThatStop(AddDeployment(s.t, step.a, x, Queued), step.a, d); }
  }

  // -------------------------------------------------- the same, over all runs

  /** What runs was reported healthy. */
  ghost predicate RunningWasHealthy(s: State) {
    forall d :: Runs(s.t, d) ==> Find(s.outcomes, d) == Some(Healthy)
  }

  lemma StepKeepsHealthy(s: State, step: Step)
    requires RunningWasHealthy(s) && Enabled(s, step)
    ensures RunningWasHealthy(Next(s, step))
  {
    hide Runs, Next, Enabled;
    var u := Next(s, step);
    forall d | Runs(u.t, d) ensures Find(u.outcomes, d) == Some(Healthy) {
      OutcomeStays(s, step, d);
      if !Runs(s.t, d) {
        if d in s.t.deployments { OnlyHealthyReportsRun(s, step, d); } else { NewDoesNotRun(s, step, d); }
      }
    }
  }

  lemma OutcomeStays(s: State, step: Step, d: Id)
    requires Enabled(s, step)
    ensures d in s.outcomes ==> Find(Next(s, step).outcomes, d) == Find(s.outcomes, d)
  {
    hide WorkerWrite, HandlerWrite, PhaseAfter, WorkerAfter, HealthNext, SetApp;
    if step.HealthWrite? { HealthOutcomes(s, step.d); }
  }

  lemma HealthOutcomes(s: State, d: Id)
    requires d in s.health && s.health[d].TimedOut?
    ensures HealthNext(s, d).outcomes == s.outcomes
  {}

  lemma NewDoesNotRun(s: State, step: Step, d: Id)
    requires Enabled(s, step) && d !in s.t.deployments
    ensures !Runs(Next(s, step).t, d)
  {
    hide WorkerWrite, HandlerWrite, PhaseAfter, WorkerAfter, Runs;
    RunsIsKnown(s.t, d);
    if step.HandlerStep? {
      var Handler(x, phase) := s.handlers[step.h];
      ReportOfAnother(s.t, x, Find(s.outcomes, x), phase, d);
    } else if step.WorkerStep? {
      WorkerNeverRuns(s.t, step.d, s.workers[step.d], d);
    } else {
      StepsThatDoNot(s, step, d);
    }
  }

  lemma ReportOfAnother(t: Tables, x: Id, o: Option<Outcome>, phase: Phase, d: Id)
    requires d !in t.deployments
    ensures !Runs(HandlerWrite(t, x, o, phase), d)
  {
    hide Runs, SetDeployment, SetAppOf, SetRun, SetStage, Finalize;
    RunsIsKnown(t, d);
    WritesThatRun(t, x, d);
    RunWritesThatRun(t, x, d);
  }

  lemma {:induction false} RunKeepsHealthy(s: State, steps: seq<Step>)
    requires RunningWasHealthy(s)
    ensures RunningWasHealthy(Exec(s, steps))
    decreases |steps|
  {
    hide RunningWasHealthy, Next, Enabled;
    if steps != [] {
      if Enabled(s, steps[0]) { StepKeepsHealthy(s, steps[0]); }
      RunKeepsHealthy(if Enabled(s, steps[0]) then Next(s, steps[0]) else s, steps[1..]);
    }
  }

  /** In every reachable state just four kinds of step stop a running deployment: the
      safety net's write after a stale read, a late report that it is being deployed,
      the worker's own catch, and a healthy report of another deployment of its app. */
  lemma RunningLeavesInRuns(steps: seq<Step>, step: Step, d: Id)
    requires var s := Exec(INIT, steps); Enabled(s, step) && Runs(s.t, d)
    ensures var s := Exec(INIT, steps);
      !Runs(Next(s, step).t, d) <==>
        || (step == HealthWrite(d) && s.health[d] == TimedOut(0))
        || step == ReportRunning(d)
        || (step == WorkerStep(d) && s.workers[d] == Catching(1))
        || (step.HandlerStep? && s.handlers[step.h].phase == Received
            && var x := s.handlers[step.h].d;
               x != d && Find(s.outcomes, x) == Some(Healthy) && x in s.t.deployments
               && s.t.deployments[x].app == s.t.deployments[d].app)
  {
    hide Exec, ShapeOk, PointersOk, Next, ClosingOk;
    var s := Exec(INIT, steps);
    InitiallyOk();
    RunKeeps(INIT, steps);
    RunKeepsHealthy(INIT, steps);
    RunningLeavesExactly(s, step, d);
    ViewIsOk(s, d);
    SentByThen(ViewOf(s, d));
  }

  /** What becomes of it then: another deployment's healthy report leaves it superseded
      and the app running that other one, the late report leaves it deploying, and the
      safety net and the catch leave it failed. */
  lemma WhatItBecomesInRuns(steps: seq<Step>, step: Step, d: Id)
    requires var s := Exec(INIT, steps); Enabled(s, step) && Runs(s.t, d) && !Runs(Next(s, step).t, d)
    ensures var s := Exec(INIT, steps); var t := Next(s, step).t;
      && d in t.deployments && d in s.t.deployments
      && t.deployments[d] == Deployment(s.t.deployments[d].app,
           if step.HandlerStep? then Superseded else if step.ReportRunning? then Deploying else Failed)
      && (step.HandlerStep? ==>
            && s.handlers[step.h].d in t.deployments
            && t.deployments[s.handlers[step.h].d] == Deployment(t.deployments[d].app, Running)
            && t.deployments[d].app in t.apps
            && t.apps[t.deployments[d].app] == App(AppRunning, Some(s.handlers[step.h].d)))
  {
    hide Exec, ShapeOk, PointersOk, Next, ClosingOk;
    var s := Exec(INIT, steps);
    RunningLeavesInRuns(steps, step, d);
    RunsIsKnown(s.t, d);
    InitiallyOk();
    RunKeeps(INIT, steps);
    if step.HandlerStep? {
      HealthyReportTakesOver(s, step.h);
      TakenOver(s.t, Next(s, step).t, s.handlers[step.h].d, d);
    } else {
      StatusIsWritten(s, step, d);
    }
  }

  /** The step that applies a report of what the node did: a healthy one makes its
      deployment run and supersedes what ran before, any other fails it. */
  lemma HealthyReportTakesOver(s: State, h: Id)
    requires h in s.handlers && s.handlers[h].phase == Received && s.handlers[h].d in s.t.deployments
    ensures var d, t := s.handlers[h].d, Next(s, HandlerStep(h)).t;
      && (Find(s.outcomes, d) == Some(Healthy) ==> RunsAndSupersedes(s.t, t, d) && t.runs == s.t.runs)
      && (Find(s.outcomes, d) == Some(Unhealthy) ==> BothFail(s.t, t, d) && t.runs == s.t.runs)
  {
    hide Finalize, RunsAndSupersedes, BothFail;
    FinalizeRows(s.t, s.handlers[h].d, true);
    FinalizeRows(s.t, s.handlers[h].d, false);
  }

  /** Every way a deployment's status moves, in every state: what can have written the
      new status, and from where. */
  lemma StatusMoves(s: State, step: Step, d: Id)
    requires Enabled(s, step) && d in s.t.deployments && d in Next(s, step).t.deployments
    requires s.t.deployments[d] != Next(s, step).t.deployments[d]
    ensures var was, now := s.t.deployments[d].status, Next(s, step).t.deployments[d].status;
      && Next(s, step).t.deployments[d].app == s.t.deployments[d].app
      && match now
         case Building => step == WorkerStep(d) && s.workers[d] == RunCreated
         case Deploying => step == ReportRunning(d) || (step == WorkerStep(d) && s.workers[d] == In(4))
         case Running =>
           step.HandlerStep? && s.handlers[step.h] == Handler(d, Received) && Find(s.outcomes, d) == Some(Healthy)
         case Superseded =>
           && was == Running && step.HandlerStep? && s.handlers[step.h].phase == Received
           && var x := s.handlers[step.h].d;
              x != d && x in s.t.deployments && s.t.deployments[x].app == s.t.deployments[d].app
              && Find(s.outcomes, x) == Some(Healthy)
         case Failed =>
           || step == WorkerNoNode(d)
           || (step == WorkerStep(d) && s.workers[d] == Catching(1))
           || (step == HealthWrite(d) && s.health[d] == TimedOut(0))
           || (step.HandlerStep? && s.handlers[step.h] == Handler(d, Received) && Failing(Find(s.outcomes, d)))
         case _ => false
  {
    hide HandlerWrite, PhaseAfter, WorkerAfter, SetAppOf, SetRun, SetStage;
    if step.HandlerStep? {
      var Handler(x, phase) := s.handlers[step.h];
      ReportMoves(s.t, x, Find(s.outcomes, x), phase, d);
    } else if step.Trigger? || step.Rollback? {
      NewDeploymentOnly(s, step, d);
    } else if !step.CreateApp? && !step.SetAppStatus? && !step.HandlerStart? {
      AppsAside(s.t, step.d);
      RunsAside(s.t, step.d);
    }
  }

  lemma NewDeploymentOnly(s: State, step: Step, d: Id)
    requires Enabled(s, step) && d in s.t.deployments && (step.Trigger? || step.Rollback?)
    ensures d in Next(s, step).t.deployments && Next(s, step).t.deployments[d] == s.t.deployments[d]
    ensures step.d in Next(s, step).t.deployments
    ensures Next(s, step).t.deployments[step.d] == Deployment(step.a, if step.Trigger? then Queued else Deploying)
  {}

  lemma ReportMoves(t: Tables, x: Id, o: Option<Outcome>, phase: Phase, d: Id)
    requires d in t.deployments
    ensures var u := HandlerWrite(t, x, o, phase);
      && d in u.deployments && u.deployments[d].app == t.deployments[d].app
      && (u.deployments[d].status != t.deployments[d].status ==>
            && phase == Received && x in t.deployments
            && if x == d && o == Some(Healthy) then u.deployments[d].status == Running
               else if x == d then Failing(o) && u.deployments[d].status == Failed
               else && o == Some(Healthy) && t.deployments[x].app == t.deployments[d].app
                    && t.deployments[d].status == Running && u.deployments[d].status == Superseded)
  {
    hide SetAppOf, SetRun, SetStage, Finalize;
    if x in t.deployments { FinalizeRows(t, x, Success(o)); }
    AppsAside(t, x);
    RunsAside(t, x);
  }

  lemma AppsAside(t: Tables, x: Id)
    ensures forall status :: SetAppOf(t, x, status).deployments == t.deployments
  {}

  lemma RunsAside(t: Tables, x: Id)
    ensures forall i, stage :: SetStage(t, x, i, stage).deployments == t.deployments
    ensures forall status :: SetRun(t, x, status).deployments == t.deployments
  {}

  lemma TakenOver(t: Tables, u: Tables, x: Id, d: Id)
    requires x in t.deployments && RunsAndSupersedes(t, u, x) && PointersOk(t)
    requires Runs(t, d) && x != d && t.deployments[x].app == t.deployments[d].app
    ensures d in t.deployments && d in u.deployments && x in u.deployments
    ensures u.deployments[d] == Deployment(t.deployments[d].app, Superseded)
    ensures u.deployments[x] == Deployment(u.deployments[d].app, Running)
    ensures u.deployments[d].app in u.apps && u.apps[u.deployments[d].app] == App(AppRunning, Some(x))
  {}

  lemma StatusIsWritten(s: State, step: Step, d: Id)
    requires Enabled(s, step) && d in s.t.deployments
    requires || (step == HealthWrite(d) && s.health[d] == TimedOut(0))
             || step == ReportRunning(d)
             || (step == WorkerStep(d) && s.workers[d] == Catching(1))
    ensures var t := Next(s, step).t;
      && d in t.deployments
      && t.deployments[d] == Deployment(s.t.deployments[d].app, if step.ReportRunning? then Deploying else Failed)
  {}

  /** After a report the worker is past creating its command. */
  lemma SentByThen(v: View)
    requires ViewOk(v) && v.outcome.Some?
    ensures v.worker.Some? ==> AfterCommand(v.worker.value)
  {}

  // ------------------------------------------------- when the safety net is a no-op

  /** How a step moves a deployment's safety net. */
  lemma HealthMoves(s: State, step: Step, d: Id)
    requires Enabled(s, step)
    ensures var h, h' := Find(s.health, d), Find(Next(s, step).health, d);
      if step == HealthRead(d) then
        && h == Some(Scheduled)
        && h' == Some(if IsTerminal(s.t.deployments[d].status) then HealthDone else TimedOut(0))
      else if step == HealthWrite(d) then
        && h.Some? && h.value.TimedOut?
        && h' == Some(if h.value.write < 2 then TimedOut(h.value.write + 1) else HealthDone)
      else h' == h || (h == None && h' == Some(Scheduled))
  {
    hide WorkerWrite, HandlerWrite, PhaseAfter, WorkerAfter, SetDeployment, SetApp, SetAppOf, SetStage, TimeOutRun,
      IsTerminal;
  }

  predicate Finished(t: Tables, d: Id) { d in t.deployments && IsTerminal(t.deployments[d].status) }

  /** The deployment stays in a terminal status all along the steps. */
  ghost predicate FinishedAlong(s: State, steps: seq<Step>, d: Id)
    decreases |steps|
  {
    Finished(s.t, d) &&
    (steps == [] || FinishedAlong(if Enabled(s, steps[0]) then Next(s, steps[0]) else s, steps[1..], d))
  }

  lemma FinishedAtOnce(s: State, steps: seq<Step>, d: Id)
    requires FinishedAlong(s, steps, d)
    ensures Finished(s.t, d) && d in s.t.deployments
  {}

  lemma AlongNothing(s: State, d: Id)
    requires Finished(s.t, d)
    ensures FinishedAlong(s, [], d)
  {}

  /** However things go on, as long as the deployment stays finished, no write of its
      safety net changes anything: not the deployment, not its app, not its run. */
  ghost predicate LeftAlone(s: State, d: Id) {
    forall steps :: FinishedAlong(s, steps, d) && Enabled(Exec(s, steps), HealthWrite(d)) ==>
      Next(Exec(s, steps), HealthWrite(d)).t == Exec(s, steps).t
  }

  predicate StillMarked(t: Tables, d: Id) { d in t.runs && t.runs[d].status == RunRunning }

  /** The safety net has read the deployment as unfinished and has a write left that
      will do something: the first two always do, the last one if the run is still
      marked running. */
  predicate Pending(s: State, d: Id) {
    var h := Find(s.health, d);
    h.Some? && h.value.TimedOut? && (h.value.write < 2 || StillMarked(s.t, d))
  }

  /** A run is marked running by nothing but the worker that creates it. */
  predicate NoNewRun(s: State, d: Id) { Find(s.workers, d) != Some(JobQueued) }

  lemma RunStatusWrites(t: Tables, x: Id, d: Id)
    ensures forall i, stage :: StillMarked(SetStage(t, x, i, stage), d) == StillMarked(t, d)
    ensures forall status :: status != RunRunning && StillMarked(SetRun(t, x, status), d) ==> StillMarked(t, d)
    ensures StillMarked(TimeOutRun(t, x), d) ==> StillMarked(t, d)
    ensures x != d ==> StillMarked(CreateRun(t, x), d) == StillMarked(t, d)
  {}

  lemma WorkerMarksNothing(t: Tables, x: Id, w: Worker, d: Id)
    requires x != d || w != JobQueued
    ensures StillMarked(WorkerWrite(t, x, w), d) ==> StillMarked(t, d)
  {
    hide StillMarked, SetDeployment, SetAppOf, SetRun, SetStage, CreateRun;
    RunStatusWrites(t, x, d);
    OtherTables(t, x, d);
  }

  lemma HandlerMarksNothing(t: Tables, x: Id, o: Option<Outcome>, phase: Phase, d: Id)
    ensures StillMarked(HandlerWrite(t, x, o, phase), d) ==> StillMarked(t, d)
  {
    hide StillMarked, SetDeployment, SetAppOf, SetRun, SetStage, Finalize;
    RunStatusWrites(t, x, d);
    OtherTables(t, x, d);
  }

  /** Writes to deployments and apps do not mark runs. */
  lemma OtherTables(t: Tables, x: Id, d: Id)
    ensures forall status :: StillMarked(SetDeployment(t, x, status), d) == StillMarked(t, d)
    ensures forall status :: StillMarked(SetAppOf(t, x, status), d) == StillMarked(t, d)
    ensures forall status :: StillMarked(SetApp(t, x, status), d) == StillMarked(t, d)
    ensures forall healthy :: StillMarked(Finalize(t, x, healthy), d) == StillMarked(t, d)
    ensures forall a, status :: StillMarked(AddDeployment(t, a, x, status), d) == StillMarked(t, d)
  {}

  lemma StepMarksNothing(s: State, step: Step, d: Id)
    requires NoNewRun(s, d) && Enabled(s, step) && d in s.t.deployments
    ensures NoNewRun(Next(s, step), d)
    ensures StillMarked(Next(s, step).t, d) ==> StillMarked(s.t, d)
  {
    hide StillMarked, WorkerWrite, HandlerWrite, SetDeployment, SetAppOf, SetApp, SetRun, SetStage, AddDeployment,
      PhaseAfter, TimeOutRun, IsTerminal;
    NoNewWorker(s, step, d);
    if step.WorkerStep? {
      WorkerMarksNothing(s.t, step.d, s.workers[step.d], d);
    } else if step.HandlerStep? {
      var Handler(x, phase) := s.handlers[step.h];
      HandlerMarksNothing(s.t, x, Find(s.outcomes, x), phase, d);
    } else {
      OthersMarkNothing(s, step, d);
    }
  }

  lemma OthersMarkNothing(s: State, step: Step, d: Id)
    requires Enabled(s, step) && !step.WorkerStep? && !step.HandlerStep?
    ensures StillMarked(Next(s, step).t, d) ==> StillMarked(s.t, d)
  {
    hide SetDeployment, SetAppOf, SetApp, SetStage, AddDeployment, TimeOutRun, StillMarked, IsTerminal;
    var t := s.t;
    SameRuns(t, Next(s, step).t, d);
    match step
    case SetAppStatus(a, status) => OtherTables(t, a, d);
    case Trigger(a, x) =>
      OtherTables(t, x, d);
      OtherTables(AddDeployment(t, a, x, Queued), a, d);
    case Rollback(a, x) => OtherTables(t, x, d);
    case WorkerNoNode(x) => OtherTables(t, x, d);
    case WorkerBreaks(x) => RunStatusWrites(t, x, d);
    case ReportRunning(x) => OtherTables(t, x, d);
    case HealthWrite(x) =>
      OtherTables(t, x, d);
      RunStatusWrites(t, x, d);
    case _ =>
  }

  lemma SameRuns(t: Tables, u: Tables, d: Id)
    ensures u.runs == t.runs ==> StillMarked(u, d) == StillMarked(t, d)
  {}

  lemma NoNewWorker(s: State, step: Step, d: Id)
    requires NoNewRun(s, d) && Enabled(s, step) && d in s.t.deployments
    ensures NoNewRun(Next(s, step), d)
  {
    hide WorkerWrite, HandlerWrite, SetDeployment, SetStage, TimeOutRun, SetApp, IsTerminal, PhaseAfter;
    WorkerGoesOn(if step.WorkerStep? then s.workers[step.d] else WorkerDone);
  }

  lemma WorkerGoesOn(w: Worker)
    ensures WorkerAfter(w) != JobQueued
  {}

  /** A safety net that has nothing left to do finds nothing to do while the
      deployment stays finished. */
  lemma {:induction false} NothingToDo(s: State, steps: seq<Step>, d: Id)
    requires FinishedAlong(s, steps, d) && NoNewRun(s, d) && !Pending(s, d)
    ensures NoNewRun(Exec(s, steps), d) && !Pending(Exec(s, steps), d)
    decreases |steps|
  {
    hide Next, Enabled, StillMarked, NoNewRun, Finished;
    if steps != [] {
      var u := if Enabled(s, steps[0]) then Next(s, steps[0]) else s;
      FinishedAtOnce(s, steps, d);
      if Enabled(s, steps[0]) {
        StepMarksNothing(s, steps[0], d);
        NotReadUnfinished(s, steps[0], d);
      }
      NothingToDo(u, steps[1..], d);
    }
  }

  lemma NotReadUnfinished(s: State, step: Step, d: Id)
    requires Enabled(s, step) && Finished(s.t, d) && !Pending(s, d)
    requires StillMarked(Next(s, step).t, d) ==> StillMarked(s.t, d)
    ensures !Pending(Next(s, step), d)
  {
    hide Next, Enabled, StillMarked, IsTerminal;
    HealthMoves(s, step, d);
    ReadIsEnabled(s, step, d);
  }

  lemma ReadIsEnabled(s: State, step: Step, d: Id)
    requires Enabled(s, step)
    ensures step == HealthRead(d) ==> d in s.t.deployments
  {}

  /** An app that runs, as a healthy report leaves it. */
  predicate AppRuns(t: Tables, d: Id) {
    d in t.deployments && t.deployments[d].app in t.apps && t.apps[t.deployments[d].app].status == AppRunning
  }

  lemma WriteChanges(s: State, d: Id)
    requires Runs(s.t, d) && AppRuns(s.t, d) && Enabled(s, HealthWrite(d))
    ensures Next(s, HealthWrite(d)).t != s.t <==> Pending(s, d)
  {
    var t, u := s.t, Next(s, HealthWrite(d)).t;
    var a := t.deployments[d].app;
    if s.health[d].write == 0 {
      assert u.deployments[d].status == Failed;
    } else if s.health[d].write == 1 {
      assert u.apps[a].status == AppFailed;
    } else if StillMarked(t, d) {
      assert u.runs[d].status == RunFailed;
    }
  }

  /** Without anything pending, the write finds nothing to change. */
  lemma WriteIsIdle(s: State, d: Id)
    requires Enabled(s, HealthWrite(d)) && !Pending(s, d)
    ensures Next(s, HealthWrite(d)).t == s.t
  {}

  lemma LeftAloneExactly(s: State, d: Id)
    requires Runs(s.t, d) && AppRuns(s.t, d) && NoNewRun(s, d)
    ensures LeftAlone(s, d) <==> !Pending(s, d)
  {
    hide Next, Pending, NoNewRun, AppRuns, Enabled;
    if Pending(s, d) {
      ExecNone(s);
      AlongNothing(s, d);
      PendingIsEnabled(s, d);
      WriteChanges(s, d);
    } else {
      forall steps | FinishedAlong(s, steps, d) && Enabled(Exec(s, steps), HealthWrite(d))
        ensures Next(Exec(s, steps), HealthWrite(d)).t == Exec(s, steps).t
      {
        NothingToDo(s, steps, d);
        WriteIsIdle(Exec(s, steps), d);
      }
    }
  }

  lemma PendingIsEnabled(s: State, d: Id)
    requires Pending(s, d)
    ensures Enabled(s, HealthWrite(d))
  {}

  // What a run says about its safety net.

  /** Somewhere in the run the safety net reads the deployment as unfinished. */
  ghost predicate ReadsUnfinished(s: State, steps: seq<Step>, d: Id)
    decreases |steps|
  {
    steps != [] &&
    (|| (steps[0] == HealthRead(d) && Enabled(s, steps[0]) && !IsTerminal(s.t.deployments[d].status))
     || ReadsUnfinished(if Enabled(s, steps[0]) then Next(s, steps[0]) else s, steps[1..], d))
  }

  /** How often it writes in the run. */
  ghost function WritesIn(s: State, steps: seq<Step>, d: Id): nat
    decreases |steps|
  {
    if steps == [] then 0
    else
      (if steps[0] == HealthWrite(d) && Enabled(s, steps[0]) then 1 else 0)
      + WritesIn(if Enabled(s, steps[0]) then Next(s, steps[0]) else s, steps[1..], d)
  }

  function NetAfter(writes: nat): Health { if writes < 3 then TimedOut(writes) else HealthDone }

  /** Where the safety net stands after a run. */
  lemma {:induction false} NetExactly(s: State, steps: seq<Step>, d: Id)
    requires Find(s.health, d).Some? && Find(s.health, d).value.TimedOut? ==> Find(s.health, d).value.write < 3
    ensures var h, h' := Find(s.health, d), Find(Exec(s, steps).health, d);
      var r, w := ReadsUnfinished(s, steps, d), WritesIn(s, steps, d);
      if h.Some? && h.value.TimedOut? then
        !r && h.value.write + w <= 3 && h' == Some(NetAfter(h.value.write + w))
      else if h == Some(HealthDone) then !r && w == 0 && h' == h
      else if r then w <= 3 && h' == Some(NetAfter(w))
      else w == 0 && !(h'.Some? && h'.value.TimedOut?)
    decreases |steps|
  {
    hide Next, IsTerminal;
    if steps != [] {
      var u := if Enabled(s, steps[0]) then Next(s, steps[0]) else s;
      if Enabled(s, steps[0]) { HealthMoves(s, steps[0], d); }
      NetExactly(u, steps[1..], d);
    }
  }

  /** In words of the run: the net has read the deployment as unfinished, and has two
      or three of its writes left, or the last one with the run still marked running. */
  ghost predicate NetPending(steps: seq<Step>, d: Id, marked: bool) {
    ReadsUnfinished(INIT, steps, d)
    && (WritesIn(INIT, steps, d) < 2 || (WritesIn(INIT, steps, d) == 2 && marked))
  }

  lemma PendingInRuns(steps: seq<Step>, d: Id)
    ensures var s := Exec(INIT, steps); Pending(s, d) <==> NetPending(steps, d, StillMarked(s.t, d))
  {
    hide Exec, StillMarked, ReadsUnfinished, WritesIn;
    NetExactly(INIT, steps, d);
  }

  /** A step of a request that makes a deployment run. */
  ghost predicate Finalizes(s: State, h: Id, d: Id) {
    Enabled(s, HandlerStep(h)) && !Runs(s.t, d) && Runs(Next(s, HandlerStep(h)).t, d)
  }

  lemma AfterFinalizing(s: State, h: Id, d: Id)
    requires Finalizes(s, h, d) && PointersOk(s.t) && ViewOk(ViewOf(s, d))
    ensures var u := Next(s, HandlerStep(h));
      && AppRuns(u.t, d) && NoNewRun(u, d)
      && Find(u.health, d) == Find(s.health, d) && StillMarked(u.t, d) == StillMarked(s.t, d)
  {
    hide ViewOk, PointersOk, Finalize, PhaseAfter, StillMarked, AppRuns, Runs;
    var Handler(x, phase) := s.handlers[h];
    if d !in s.t.deployments { ReportOfAnother(s.t, x, Find(s.outcomes, x), phase, d); }
    HandlerRunsExactly(s.t, x, Find(s.outcomes, x), phase, d);
    AppOfKnown(s.t, d);
    FinalizeRuns(s.t, d);
    OtherTables(s.t, d, d);
    ReportedIsPastQueue(s, d);
  }

  lemma AppOfKnown(t: Tables, d: Id)
    requires PointersOk(t)
    ensures d in t.deployments ==> t.deployments[d].app in t.apps
  {}

  lemma FinalizeRuns(t: Tables, d: Id)
    requires d in t.deployments && t.deployments[d].app in t.apps
    ensures AppRuns(Finalize(t, d, true), d) && d in Finalize(t, d, true).deployments
  {}

  lemma ReportedIsPastQueue(s: State, d: Id)
    requires ViewOk(ViewOf(s, d)) && Find(s.outcomes, d).Some?
    ensures Find(s.workers, d) != Some(JobQueued)
  {}

  /** When a healthy report makes a deployment run, its safety net is a no-op from then
      on, whatever happens while the deployment stays finished, exactly unless it had
      read the deployment as unfinished before and has a write left that does something:
      for every run up to the finalizing write. */
  lemma SafetyNetIsNoOpExactly(steps: seq<Step>, h: Id, d: Id)
    requires Finalizes(Exec(INIT, steps), h, d)
    ensures var s := Exec(INIT, steps);
      LeftAlone(Next(s, HandlerStep(h)), d) <==> !NetPending(steps, d, StillMarked(s.t, d))
  {
    hide Exec, ShapeOk, PointersOk, ViewOk, Finalizes, LeftAlone, NetPending, StillMarked, Next;
    var s := Exec(INIT, steps);
    InitiallyOk();
    RunKeeps(INIT, steps);
    ViewIsOk(s, d);
    AfterFinalizing(s, h, d);
    LeftAloneWhenRunning(s, h, d);
    PendingInRuns(steps, d);
  }

  lemma LeftAloneWhenRunning(s: State, h: Id, d: Id)
    requires Finalizes(s, h, d)
    requires var u := Next(s, HandlerStep(h));
      && AppRuns(u.t, d) && NoNewRun(u, d)
      && Find(u.health, d) == Find(s.health, d) && StillMarked(u.t, d) == StillMarked(s.t, d)
    ensures LeftAlone(Next(s, HandlerStep(h)), d) <==> !Pending(s, d)
  {
    hide Next, LeftAlone, StillMarked, AppRuns, NoNewRun, Runs;
    LeftAloneExactly(Next(s, HandlerStep(h)), d);
  }

  // The deployment's status alone, while nothing else takes it down.

  /** The deployment runs all along the steps. */
  ghost predicate RunsAlong(s: State, steps: seq<Step>, d: Id)
    decreases |steps|
  {
    Runs(s.t, d) &&
    (steps == [] || RunsAlong(if Enabled(s, steps[0]) then Next(s, steps[0]) else s, steps[1..], d))
  }

  /** As long as nothing else stops the deployment, its safety net does not either. */
  ghost predicate KeptRunning(s: State, d: Id) {
    forall steps :: RunsAlong(s, steps, d) && Enabled(Exec(s, steps), HealthWrite(d)) ==>
      Runs(Next(Exec(s, steps), HealthWrite(d)).t, d)
  }

  /** While a deployment runs, its safety net neither comes to a stale read nor acts
      on one. */
  lemma StaleStays(s: State, step: Step, d: Id)
    requires Enabled(s, step) && Runs(s.t, d) && Runs(Next(s, step).t, d)
    ensures Find(Next(s, step).health, d) == Some(TimedOut(0)) <==> Find(s.health, d) == Some(TimedOut(0))
  {
    RunningLeavesExactly(s, step, d);
    HealthMoves(s, step, d);
  }

  lemma {:induction false} StaleAlong(s: State, steps: seq<Step>, d: Id)
    requires RunsAlong(s, steps, d)
    ensures Find(Exec(s, steps).health, d) == Some(TimedOut(0)) <==> Find(s.health, d) == Some(TimedOut(0))
    ensures Runs(Exec(s, steps).t, d)
    decreases |steps|
  {
    hide Runs, Next, Enabled;
    if steps != [] {
      var u := if Enabled(s, steps[0]) then Next(s, steps[0]) else s;
      StaleAlong(u, steps[1..], d);
      RunsAtOnce(u, steps[1..], d);
      if Enabled(s, steps[0]) { StaleStays(s, steps[0], d); }
    }
  }

  lemma RunsAtOnce(s: State, steps: seq<Step>, d: Id)
    ensures RunsAlong(s, steps, d) ==> Runs(s.t, d)
    ensures RunsAlong(s, [], d) <==> Runs(s.t, d)
  {}

  lemma KeptRunningExactly(s: State, d: Id)
    requires Runs(s.t, d)
    ensures KeptRunning(s, d) <==> Find(s.health, d) != Some(TimedOut(0))
  {
    hide Runs, Next;
    if Find(s.health, d) == Some(TimedOut(0)) {
      ExecNone(s);
      RunsAtOnce(s, [], d);
      RunningLeavesExactly(s, HealthWrite(d), d);
    } else {
      forall steps | RunsAlong(s, steps, d) && Enabled(Exec(s, steps), HealthWrite(d))
        ensures Runs(Next(Exec(s, steps), HealthWrite(d)).t, d)
      {
        StaleAlong(s, steps, d);
        RunningLeavesExactly(Exec(s, steps), HealthWrite(d), d);
      }
    }
  }

  /** A deployment that a healthy report has just made run is never failed by its safety
      net exactly unless the net has read it as unfinished and not written yet. */
  lemma SafetyNetKeepsRunningExactly(steps: seq<Step>, h: Id, d: Id)
    requires Finalizes(Exec(INIT, steps), h, d)
    ensures KeptRunning(Next(Exec(INIT, steps), HandlerStep(h)), d)
      <==> !(ReadsUnfinished(INIT, steps, d) && WritesIn(INIT, steps, d) == 0)
  {
    hide Exec, Runs, Next, KeptRunning, ReadsUnfinished, WritesIn;
    var s := Exec(INIT, steps);
    KeptRunningExactly(Next(s, HandlerStep(h)), d);
    HealthMoves(s, HandlerStep(h), d);
    NetExactly(INIT, steps, d);
  }

  /** The second of its writes: with the first one made before the healthy report, the
      next one fails the app whose deployment goes on running. */
  lemma HalfDoneNetFailsTheApp()
    ensures var s := Exec(INIT, RaceSetUp() + [HealthWrite(1), HandlerStep(0)]);
      && Runs(s.t, 1) && AppRuns(s.t, 1) && Enabled(s, HealthWrite(1))
      && var u := Next(s, HealthWrite(1)).t;
         Runs(u, 1) && u.deployments[1].app in u.apps
         && u.apps[u.deployments[1].app] == App(AppFailed, Some(1))
  {
    hide Exec, RaceSetUp, PointersOk, ShapeOk;
    var s := Exec(INIT, RaceSetUp());
    RaceIsReachable();
    InitiallyOk();
    RunKeeps(INIT, RaceSetUp());
    AppOfKnown(s.t, 1);
    ExecInTwo(INIT, RaceSetUp(), [HealthWrite(1), HandlerStep(0)]);
    OneStep(s, HealthWrite(1), [HandlerStep(0)]);
    OneStep(HealthNext(s, 1), HandlerStep(0), []);
    assert [HealthWrite(1)] + [HandlerStep(0)] == [HealthWrite(1), HandlerStep(0)];
  }
}
