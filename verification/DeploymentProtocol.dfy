/** Deployments as steps. */
module DeploymentProtocol {
  // The deployment protocol: worker, agent reports, result handlers and the
  // safety-net job as interleaved steps over the shared tables. Every database
  // write or transaction is one step.

  import opened Options
  import opened DeploymentTables

  // --------------------------------------------------------------- processes

  /** Where the deploy job of one deployment stands. */
  datatype Worker =
    | JobQueued
    | NoNodeMarked           // no node: the deployment is failed, the app is not yet
    | RunCreated
    | Ready(stage: nat)      // about to start this stage
    | In(stage: nat)         // this stage is running
    | Packaged               // the packaging stage has moved the deployment on
    | Dispatching            // the deploy stage is running, no command yet
    | CommandCreated         // inserted as queued, not signed
    | CommandSigned
    | Catching(write: nat)   // the next of the catch's three writes
    | WorkerDone

  /** What the node finally reports for the one command of a deployment. */
  datatype Outcome = Healthy | Unhealthy | NotDeployed

  /** A request that applies the final report; retries make several of them. */
  datatype Phase = Received | DeploymentFailed | ClosingStage(k: nat) | Handled

  datatype Handler = Handler(d: Id, phase: Phase)

  datatype Health = Scheduled | TimedOut(write: nat) | HealthDone

  datatype State = State(
    t: Tables,
    workers: map<Id, Worker>,
    commands: set<Id>,           // deployments whose command row exists
    outcomes: map<Id, Outcome>,
    handlers: map<Id, Handler>,
    health: map<Id, Health>)

  const INIT := State(Tables(map[], map[], map[]), map[], {}, map[], map[], map[])

  datatype Step =
    | CreateApp(a: Id)
    | SetAppStatus(a: Id, status: AppStatus)  // stop, restart, delete, and a rollback's second write
    | Trigger(a: Id, d: Id)
    | Rollback(a: Id, d: Id)
    | RollbackCommand(d: Id)
    | WorkerNoNode(d: Id)
    | WorkerStep(d: Id)
    | WorkerBreaks(d: Id)    // the body of the running stage throws
    | WorkerThrows(d: Id)    // anything else inside the try block throws
    | ReportRunning(d: Id)
    | Decide(d: Id, o: Outcome)
    | HandlerStart(h: Id, d: Id)
    | HandlerStep(h: Id)
    | HealthRead(d: Id)
    | HealthWrite(d: Id)

  // ------------------------------------------------------------- transitions

  /** What the next regular write of the worker does to the tables. */
  function WorkerWrite(t: Tables, d: Id, w: Worker): Tables {
    match w
    case JobQueued => CreateRun(t, d)
    case NoNodeMarked => SetAppOf(t, d, AppFailed)
    case RunCreated => SetDeployment(t, d, Building)
    case Ready(i) => SetStage(t, d, i, STARTED)
    case In(i) => if i == PACKAGE then SetDeployment(t, d, Deploying) else SetStage(t, d, i, PASSED)
    case Packaged => SetStage(t, d, PACKAGE, PASSED)
    case Catching(k) =>
      if k == 0 then SetRun(t, d, RunFailed)
      else if k == 1 then SetDeployment(t, d, Failed)
      else SetAppOf(t, d, AppFailed)
    case _ => t
  }

  function WorkerAfter(w: Worker): Worker {
    match w
    case JobQueued => RunCreated
    case RunCreated => Ready(0)
    case Ready(i) => if i == DEPLOY then Dispatching else In(i)
    case In(i) => if i == PACKAGE then Packaged else Ready(i + 1)
    case Packaged => Ready(DEPLOY)
    case Dispatching => CommandCreated
    case CommandCreated => CommandSigned
    case Catching(k) => if k < 2 then Catching(k + 1) else WorkerDone
    case NoNodeMarked => WorkerDone
    case CommandSigned => WorkerDone
    case WorkerDone => WorkerDone
  }

  /** The next regular step of the worker; dispatching inserts the command, and
      the last step schedules the safety net. */
  function WorkerNext(s: State, d: Id): State
    requires d in s.workers
  {
    var w := s.workers[d];
    s.(t := WorkerWrite(s.t, d, w),
       workers := s.workers[d := WorkerAfter(w)],
       commands := if w == Dispatching then s.commands + {d} else s.commands,
       health := if w == CommandSigned && d !in s.health then s.health[d := Scheduled] else s.health)
  }

  predicate InTry(w: Worker) {
    w.Ready? || w.In? || w.Packaged? || w.Dispatching? || w.CommandCreated? || w.CommandSigned?
  }

  function StageOf(w: Worker): nat { if w.In? then w.stage else PACKAGE }

  predicate Success(o: Option<Outcome>) { o == Some(Healthy) }

  /** The next write of a request that applies the final report `o`. */
  function HandlerWrite(t: Tables, d: Id, o: Option<Outcome>, phase: Phase): Tables {
    match phase
    case Received =>
      if o == None || d !in t.deployments then t
      else if o == Some(NotDeployed) then SetDeployment(t, d, Failed)
      else Finalize(t, d, Success(o))
    case DeploymentFailed => SetAppOf(t, d, AppFailed)
    case ClosingStage(k) =>
      if o == None then t
      else if k < 3 then CloseStage(t, d, k, Success(o))
      else CloseRun(t, d, Success(o))
    case Handled => t
  }

  function PhaseAfter(known: bool, hasRun: bool, o: Option<Outcome>, phase: Phase): Phase {
    match phase
    case Received =>
      if o == None || !known then Handled
      else if o == Some(NotDeployed) then DeploymentFailed else ClosingStage(0)
    case DeploymentFailed => ClosingStage(0)
    case ClosingStage(k) => if hasRun && o.Some? && k < 3 then ClosingStage(k + 1) else Handled
    case Handled => Handled
  }

  function HandlerNext(s: State, h: Id): State
    requires h in s.handlers
  {
    var Handler(d, phase) := s.handlers[h];
    var o := Find(s.outcomes, d);
    s.(t := HandlerWrite(s.t, d, o, phase),
       handlers := s.handlers[h := Handler(d, PhaseAfter(d in s.t.deployments, d in s.t.runs, o, phase))])
  }

  predicate Enabled(s: State, step: Step) {
    match step
    case CreateApp(a) => a !in s.t.apps
    case SetAppStatus(a, _) => a in s.t.apps
    case Trigger(a, d) => a in s.t.apps && d !in s.t.deployments
    case Rollback(a, d) => a in s.t.apps && d !in s.t.deployments
    case RollbackCommand(d) => d in s.t.deployments && d !in s.workers
    case WorkerNoNode(d) => d in s.workers && s.workers[d] == JobQueued
    case WorkerStep(d) => d in s.workers
    case WorkerBreaks(d) => d in s.workers && (s.workers[d].In? || s.workers[d].Packaged?)
    case WorkerThrows(d) => d in s.workers && InTry(s.workers[d])
    case ReportRunning(d) => d in s.commands
    case Decide(d, _) => d in s.commands && d !in s.outcomes
    case HandlerStart(h, d) => h !in s.handlers && d in s.outcomes
    case HandlerStep(h) => h in s.handlers
    case HealthRead(d) => d in s.health && s.health[d] == Scheduled && d in s.t.deployments
    case HealthWrite(d) => d in s.health && s.health[d].TimedOut?
  }

  function HealthNext(s: State, d: Id): State
    requires d in s.health && s.health[d].TimedOut?
  {
    var k := s.health[d].write;
    if k == 0 then s.(t := SetDeployment(s.t, d, Failed), health := s.health[d := TimedOut(1)])
    else if k == 1 then s.(t := SetAppOf(s.t, d, AppFailed), health := s.health[d := TimedOut(2)])
    else s.(t := TimeOutRun(s.t, d), health := s.health[d := HealthDone])
  }

  function Next(s: State, step: Step): State
    requires Enabled(s, step)
  {
    match step
    case CreateApp(a) => s.(t := s.t.(apps := s.t.apps[a := App(AppIdle, None)]))
    case SetAppStatus(a, status) => s.(t := SetApp(s.t, a, status))
    case Trigger(a, d) =>
      s.(t := SetApp(AddDeployment(s.t, a, d, Queued), a, AppBuilding),
         workers := s.workers[d := JobQueued])
    case Rollback(a, d) =>
      s.(t := AddDeployment(s.t, a, d, Deploying))
    case RollbackCommand(d) => s.(commands := s.commands + {d})
    case WorkerNoNode(d) =>
      s.(t := SetDeployment(s.t, d, Failed), workers := s.workers[d := NoNodeMarked])
    case WorkerStep(d) => WorkerNext(s, d)
    case WorkerBreaks(d) =>
      s.(t := SetStage(s.t, d, StageOf(s.workers[d]), BROKEN), workers := s.workers[d := Catching(0)])
    case WorkerThrows(d) => s.(workers := s.workers[d := Catching(0)])
    case ReportRunning(d) => s.(t := SetDeployment(s.t, d, Deploying))
    case Decide(d, o) => s.(outcomes := s.outcomes[d := o])
    case HandlerStart(h, d) => s.(handlers := s.handlers[h := Handler(d, Received)])
    case HandlerStep(h) => HandlerNext(s, h)
    case HealthRead(d) =>
      s.(health := s.health[d := if IsTerminal(s.t.deployments[d].status) then HealthDone else TimedOut(0)])
    case HealthWrite(d) => HealthNext(s, d)
  }

  /** A run: the steps in order, those not enabled skipped. */
  function Exec(s: State, steps: seq<Step>): State
    decreases |steps|
  {
    if steps == [] then s
    else Exec(if Enabled(s, steps[0]) then Next(s, steps[0]) else s, steps[1..])
  }

  // --------------------------------------- which deployment an app is running

  /** The app of every deployment exists; every app points to a deployment of its
      own, never to a superseded one; and whatever is running is pointed to. */
  ghost predicate PointersOk(t: Tables) {
    && (forall d :: d in t.deployments ==> t.deployments[d].app in t.apps)
    && (forall a :: a in t.apps && t.apps[a].current.Some? ==>
          var d := t.apps[a].current.value;
          d in t.deployments && t.deployments[d].app == a && t.deployments[d].status != Superseded)
    && (forall d :: d in t.deployments && t.deployments[d].status == Running ==>
          t.apps[t.deployments[d].app].current == Some(d))
  }

  lemma SetDeploymentKeepsPointers(t: Tables, d: Id, status: DeploymentStatus)
    requires PointersOk(t) && status != Running && status != Superseded
    ensures PointersOk(SetDeployment(t, d, status))
  {}

  lemma SetAppKeepsPointers(t: Tables, a: Id, status: AppStatus)
    requires PointersOk(t)
    ensures PointersOk(SetApp(t, a, status))
  {}

  lemma SetAppOfKeepsPointers(t: Tables, d: Id, status: AppStatus)
    requires PointersOk(t)
    ensures PointersOk(SetAppOf(t, d, status))
  {
    hide PointersOk, SetApp;
    match AppOf(t, d)
    case Some(a) => SetAppKeepsPointers(t, a, status);
    case None =>
  }

  lemma FinalizeKeepsPointers(t: Tables, d: Id, healthy: bool)
    requires PointersOk(t)
    ensures PointersOk(Finalize(t, d, healthy))
  {
    if d in t.deployments && !healthy {
      SetDeploymentKeepsPointers(t, d, Failed);
      SetAppKeepsPointers(SetDeployment(t, d, Failed), t.deployments[d].app, AppFailed);
    }
  }

  /** Writes to runs concern neither apps nor deployments. */
  ghost predicate SamePointers(t: Tables, u: Tables) { t.apps == u.apps && t.deployments == u.deployments }

  lemma WorkerKeepsPointers(s: State, d: Id)
    requires PointersOk(s.t) && d in s.workers
    ensures PointersOk(WorkerNext(s, d).t)
  {
    hide PointersOk, SetDeployment, SetAppOf;
    var t := s.t;
    SetDeploymentKeepsPointers(t, d, Building);
    SetDeploymentKeepsPointers(t, d, Deploying);
    SetDeploymentKeepsPointers(t, d, Failed);
    SetAppOfKeepsPointers(t, d, AppFailed);
    SameKeeps(t, WorkerNext(s, d).t);
  }

  lemma SameKeeps(t: Tables, u: Tables)
    requires PointersOk(t)
    ensures SamePointers(t, u) ==> PointersOk(u)
  {}

  lemma HandlerKeepsPointers(t: Tables, d: Id, o: Option<Outcome>, phase: Phase)
    requires PointersOk(t)
    ensures PointersOk(HandlerWrite(t, d, o, phase))
  {
    hide PointersOk, SetDeployment, SetAppOf, Finalize;
    SetDeploymentKeepsPointers(t, d, Failed);
    SetAppOfKeepsPointers(t, d, AppFailed);
    FinalizeKeepsPointers(t, d, Success(o));
    SameKeeps(t, HandlerWrite(t, d, o, phase));
  }

  lemma StepKeepsPointers(s: State, step: Step)
    requires PointersOk(s.t) && Enabled(s, step)
    ensures PointersOk(Next(s, step).t)
  {
    hide PointersOk, SetDeployment, SetApp, SetAppOf, AddDeployment, WorkerNext, HandlerWrite, PhaseAfter;
    match step
    case CreateApp(a) => NewAppKeeps(s.t, a);
    case SetAppStatus(a, status) => SetAppKeepsPointers(s.t, a, status);
    case Trigger(a, d) =>
      AddDeploymentKeeps(s.t, a, d, Queued);
      SetAppKeepsPointers(AddDeployment(s.t, a, d, Queued), a, AppBuilding);
    case Rollback(a, d) => AddDeploymentKeeps(s.t, a, d, Deploying);
    case WorkerNoNode(d) => SetDeploymentKeepsPointers(s.t, d, Failed);
    case WorkerStep(d) => WorkerKeepsPointers(s, d);
    case WorkerBreaks(d) => SameKeeps(s.t, Next(s, step).t);
    case ReportRunning(d) => SetDeploymentKeepsPointers(s.t, d, Deploying);
    case HandlerStep(h) =>
      var Handler(d, phase) := s.handlers[h];
      HandlerKeepsPointers(s.t, d, Find(s.outcomes, d), phase);
    case HealthWrite(d) =>
      SetDeploymentKeepsPointers(s.t, d, Failed);
      SetAppOfKeepsPointers(s.t, d, AppFailed);
      SameKeeps(s.t, Next(s, step).t);
    case _ =>
  }

  lemma NewAppKeeps(t: Tables, a: Id)
    requires PointersOk(t) && a !in t.apps
    ensures PointersOk(t.(apps := t.apps[a := App(AppIdle, None)]))
  {}

  lemma AddDeploymentKeeps(t: Tables, a: Id, d: Id, status: DeploymentStatus)
    requires PointersOk(t) && a in t.apps && d !in t.deployments
    requires status != Running && status != Superseded
    ensures PointersOk(AddDeployment(t, a, d, status))
  {}

  // ---------------------------------------------------- the pipeline's shape

  /** Everything about one deployment that bears on its pipeline run. */
  datatype View = View(
    run: Option<PipelineRun>, worker: Option<Worker>, sent: bool, outcome: Option<Outcome>, known: bool)

  function RunOf(t: Tables, d: Id): Option<PipelineRun> { Find(t.runs, d) }

  predicate Known(t: Tables, d: Id) { d in t.deployments }

  function ViewOf(s: State, d: Id): View {
    View(RunOf(s.t, d), Find(s.workers, d), d in s.commands, Find(s.outcomes, d), Known(s.t, d))
  }

  /** A run the worker has given up: some stages passed, the next one is still
      pending, still running, or broken. */
  ghost predicate Stopped(stages: seq<Stage>) {
    exists i: nat :: i <= DEPLOY && StoppedAt(stages, i)
  }

  predicate StoppedAt(stages: seq<Stage>, i: nat) {
    stages == Reached(i, PENDING) || stages == Reached(i, STARTED) || stages == Reached(i, BROKEN)
  }

  /** The stages while no command has been created, by where the worker stands. */
  ghost predicate BeforeCommand(w: Worker, stages: seq<Stage>) {
    match w
    case RunCreated => stages == Reached(0, PENDING)
    case Ready(i) => i <= DEPLOY && stages == Reached(i, PENDING)
    case In(i) => i <= PACKAGE && stages == Reached(i, STARTED)
    case Packaged => stages == Reached(PACKAGE, STARTED)
    case Dispatching => stages == Reached(DEPLOY, STARTED)
    case Catching(_) => Stopped(stages)
    case WorkerDone => Stopped(stages)
    case _ => false
  }

  predicate AfterCommand(w: Worker) { w.CommandCreated? || w.CommandSigned? || w.Catching? || w.WorkerDone? }

  /** How many of the last three stages have been closed. */
  function ClosedCount(stages: seq<Stage>): (c: nat)
    requires |stages| == STAGE_COUNT
  {
    if stages[DEPLOY] == STARTED then 0
    else if stages[DEPLOY + 1] == PENDING then 1
    else if stages[DEPLOY + 2] == PENDING then 2
    else 3
  }

  ghost predicate ClosingOk(v: View, stages: seq<Stage>) {
    && |stages| == STAGE_COUNT
    && stages == Closing(Success(v.outcome), ClosedCount(stages))
    && (v.outcome == None ==> ClosedCount(stages) == 0)
  }

  ghost predicate RunOk(v: View, run: PipelineRun) {
    && v.worker.Some?
    && (if v.sent then ClosingOk(v, run.stages) else BeforeCommand(v.worker.value, run.stages))
    && (run.status == RunSucceeded ==> v.sent && Success(v.outcome) && run.stages == Closing(true, 3))
  }

  predicate NoRunYet(w: Worker) { w == JobQueued || w == NoNodeMarked }

  predicate MustHaveRun(w: Worker) { !NoRunYet(w) && w != WorkerDone }

  ghost predicate ViewOk(v: View) {
    && (v.worker.Some? || v.sent ==> v.known)
    && (v.outcome.Some? ==> v.sent)
    && (v.sent && v.worker.Some? ==> AfterCommand(v.worker.value) && v.run.Some?)
    && (v.run.Some? ==> RunOk(v, v.run.value))
    && (v.worker.Some? && NoRunYet(v.worker.value) ==> v.run == None)
    && (v.worker.Some? && MustHaveRun(v.worker.value) ==> v.run.Some?)
  }

  /** A request closing stage `k` has seen every earlier one closed, and a handled
      one all three. */
  ghost predicate PhaseOk(v: View, phase: Phase) {
    (phase.ClosingStage? || phase.Handled?) && v.run.Some? && v.sent ==>
      && |v.run.value.stages| == STAGE_COUNT
      && (if phase.Handled? then 3 else phase.k) <= ClosedCount(v.run.value.stages)
  }

  ghost predicate HandlerOk(s: State, h: Id)
    requires h in s.handlers
  {
    var v := ViewOf(s, s.handlers[h].d);
    v.outcome.Some? && PhaseOk(v, s.handlers[h].phase)
  }

  ghost predicate ShapeOk(s: State) {
    (forall d :: ViewOk(ViewOf(s, d))) && (forall h :: h in s.handlers ==> HandlerOk(s, h))
  }

  lemma CountOfClosing(success: bool, c: nat)
    requires c <= 3
    ensures ClosedCount(Closing(success, c)) == c
  {
    var x := Closing(success, c);
    assert x[DEPLOY] == if c > 0 then ClosedStage(success, 0) else STARTED;
    assert x[DEPLOY + 1] == if c > 1 then ClosedStage(success, 1) else PENDING;
    assert x[DEPLOY + 2] == if c > 2 then ClosedStage(success, 2) else PENDING;
  }

  function PutStage(run: Option<PipelineRun>, i: nat, stage: Stage): Option<PipelineRun> {
    if run.Some? && i < |run.value.stages| then
      Some(run.value.(stages := run.value.stages[i := stage]))
    else run
  }

  function PutStatus(run: Option<PipelineRun>, status: RunStatus): Option<PipelineRun> {
    if run.Some? then Some(run.value.(status := status)) else run
  }

  /** What each write shows of run `x`. */
  lemma WritesSeen(t: Tables, d: Id, x: Id)
    ensures forall status :: RunOf(SetDeployment(t, d, status), x) == RunOf(t, x)
    ensures forall status :: Known(SetDeployment(t, d, status), x) == Known(t, x)
    ensures forall status :: RunOf(SetAppOf(t, d, status), x) == RunOf(t, x)
    ensures forall status :: Known(SetAppOf(t, d, status), x) == Known(t, x)
    ensures forall healthy :: RunOf(Finalize(t, d, healthy), x) == RunOf(t, x)
    ensures forall healthy :: Known(Finalize(t, d, healthy), x) == Known(t, x)
    ensures forall a, status :: RunOf(SetApp(t, a, status), x) == RunOf(t, x)
    ensures forall a, status :: Known(SetApp(t, a, status), x) == Known(t, x)
  {}

  lemma RunWritesSeen(t: Tables, d: Id, x: Id)
    ensures forall i, stage :: RunOf(SetStage(t, d, i, stage), x) ==
              if x == d then PutStage(RunOf(t, d), i, stage) else RunOf(t, x)
    ensures forall i, stage :: Known(SetStage(t, d, i, stage), x) == Known(t, x)
    ensures forall status :: RunOf(SetRun(t, d, status), x) ==
              if x == d then PutStatus(RunOf(t, d), status) else RunOf(t, x)
    ensures forall status :: Known(SetRun(t, d, status), x) == Known(t, x)
    ensures RunOf(CreateRun(t, d), x) ==
              if x == d then Some(PipelineRun(RunRunning, Reached(0, PENDING))) else RunOf(t, x)
    ensures Known(CreateRun(t, d), x) == Known(t, x)
  {}

  function WorkerWriteSeen(run: Option<PipelineRun>, w: Worker): Option<PipelineRun> {
    match w
    case JobQueued => Some(PipelineRun(RunRunning, Reached(0, PENDING)))
    case Ready(i) => PutStage(run, i, STARTED)
    case In(i) => if i == PACKAGE then run else PutStage(run, i, PASSED)
    case Packaged => PutStage(run, PACKAGE, PASSED)
    case Catching(k) => if k == 0 then PutStatus(run, RunFailed) else run
    case _ => run
  }

  lemma WorkerWriteIsSeen(t: Tables, d: Id, w: Worker, x: Id)
    ensures RunOf(WorkerWrite(t, d, w), x) == if x == d then WorkerWriteSeen(RunOf(t, d), w) else RunOf(t, x)
    ensures Known(WorkerWrite(t, d, w), x) == Known(t, x)
  {
    hide RunOf, Known, SetStage, SetRun, CreateRun, SetDeployment, SetAppOf, PutStage, PutStatus, Reached;
    WritesSeen(t, d, x);
    RunWritesSeen(t, d, x);
  }

  /** The worker's next step, seen from its own deployment. */
  function WorkerSees(v: View): View
    requires v.worker.Some?
  {
    var w := v.worker.value;
    v.(run := WorkerWriteSeen(v.run, w), worker := Some(WorkerAfter(w)), sent := v.sent || w == Dispatching)
  }

  lemma WorkerIsSeen(s: State, d: Id, x: Id)
    requires d in s.workers
    ensures ViewOf(WorkerNext(s, d), x) == if x == d then WorkerSees(ViewOf(s, d)) else ViewOf(s, x)
  {
    hide RunOf, Known, WorkerWrite, WorkerAfter, WorkerWriteSeen;
    WorkerWriteIsSeen(s.t, d, s.workers[d], x);
  }

  /** The view of one deployment moves from good to good, and no request that
      works on it is left behind. */
  ghost predicate GoodMove(v: View, u: View) {
    && ViewOk(u)
    && (v.outcome.Some? ==> u.outcome.Some? && forall phase :: PhaseOk(v, phase) ==> PhaseOk(u, phase))
  }

  lemma StageMoves(v: View, i: nat)
    requires ViewOk(v) && v.worker == Some(Ready(i))
    ensures GoodMove(v, WorkerSees(v))
  {
    ReachNext(i, PENDING, STARTED);
  }

  lemma StageEnds(v: View, i: nat)
    requires ViewOk(v)
    requires v.worker == Some(In(i)) || (v.worker == Some(Packaged) && i == PACKAGE)
    ensures v.worker != Some(In(PACKAGE)) ==> GoodMove(v, WorkerSees(v))
    ensures GoodMove(v, v.(run := PutStage(v.run, i, BROKEN), worker := Some(Catching(0))))
  {
    ReachNext(i, STARTED, PASSED);
    ReachNext(i, STARTED, BROKEN);
    assert StoppedAt(Reached(i, BROKEN), i);
  }

  lemma WorkerGivesUp(v: View, w: Worker)
    requires ViewOk(v) && v.worker.Some?
    requires InTry(v.worker.value) || v.worker.value.Catching?
    requires w.Catching? || w == WorkerDone
    ensures GoodMove(v, v.(worker := Some(w)))
    ensures GoodMove(v, v.(run := PutStatus(v.run, RunFailed), worker := Some(w)))
  {
    if !v.sent {
      var stages := v.run.value.stages;
      match v.worker.value
      case Ready(i) => assert StoppedAt(stages, i);
      case In(i) => assert StoppedAt(stages, i);
      case Packaged => assert StoppedAt(stages, PACKAGE);
      case Dispatching => assert StoppedAt(stages, DEPLOY);
      case _ =>
    }
  }

  lemma CommandGoesOut(v: View)
    requires ViewOk(v) && v.worker == Some(Dispatching)
    ensures GoodMove(v, WorkerSees(v))
  {
    ClosingNone(Success(v.outcome));
    CountOfClosing(Success(v.outcome), 0);
  }

  lemma WorkerMoves(v: View)
    requires ViewOk(v) && v.worker.Some?
    requires v.worker.value in {JobQueued, NoNodeMarked, RunCreated, CommandCreated, CommandSigned, WorkerDone}
             || v.worker == Some(In(PACKAGE))
    ensures GoodMove(v, WorkerSees(v))
  {}

  lemma WorkerMovesWell(v: View)
    requires ViewOk(v) && v.worker.Some?
    ensures GoodMove(v, WorkerSees(v))
  {
    hide GoodMove, ViewOk, Reached;
    match v.worker.value
    case Ready(i) => StageMoves(v, i);
    case In(i) => if i == PACKAGE { WorkerMoves(v); } else { StageEnds(v, i); }
    case Packaged => StageEnds(v, PACKAGE);
    case Dispatching => CommandGoesOut(v);
    case Catching(k) =>
      WorkerGivesUp(v, if k < 2 then Catching(k + 1) else WorkerDone);
    case _ => WorkerMoves(v);
  }

  /** Only deployment `d` looks different afterwards. */
  lemma ShapeByView(s: State, u: State, d: Id)
    requires ShapeOk(s) && GoodMove(ViewOf(s, d), ViewOf(u, d))
    requires forall x :: x != d ==> ViewOf(u, x) == ViewOf(s, x)
    requires u.handlers == s.handlers
    ensures ShapeOk(u)
  {
    hide ViewOk, PhaseOk, ViewOf;
    forall h | h in u.handlers ensures HandlerOk(u, h) {
      assert HandlerOk(s, h);
    }
  }

  lemma SameShape(s: State, u: State)
    requires ShapeOk(s) && u.handlers == s.handlers
    requires forall x :: ViewOf(u, x) == ViewOf(s, x)
    ensures ShapeOk(u)
  {
    hide ViewOk, PhaseOk, ViewOf;
    forall h | h in u.handlers ensures HandlerOk(u, h) {
      assert HandlerOk(s, h);
    }
  }

  lemma ViewIsOk(s: State, d: Id)
    requires ShapeOk(s)
    ensures ViewOk(ViewOf(s, d))
  {
    hide ViewOk;
  }

  lemma WorkerHandlers(s: State, d: Id)
    requires d in s.workers
    ensures WorkerNext(s, d).handlers == s.handlers
  {}

  // The requests that apply a report.

  function HandlerSees(v: View, phase: Phase): View {
    if phase.ClosingStage? && v.outcome.Some? then
      v.(run := if phase.k < 3 then PutStage(v.run, DEPLOY + phase.k, ClosedStage(Success(v.outcome), phase.k))
                else PutStatus(v.run, if Success(v.outcome) then RunSucceeded else RunFailed))
    else v
  }

  lemma HandlerIsSeen(s: State, h: Id, x: Id)
    requires h in s.handlers
    ensures var Handler(d, phase) := s.handlers[h];
      ViewOf(HandlerNext(s, h), x) ==
        if x == d then HandlerSees(ViewOf(s, d), phase) else ViewOf(s, x)
  {
    hide RunOf, Known, HandlerWrite, PhaseAfter;
    var Handler(d, phase) := s.handlers[h];
    HandlerWriteIsSeen(s.t, d, ViewOf(s, d), phase, x);
  }

  lemma HandlerWriteIsSeen(t: Tables, d: Id, v: View, phase: Phase, x: Id)
    requires v.run == RunOf(t, d)
    ensures var u := HandlerWrite(t, d, v.outcome, phase);
      && Known(u, x) == Known(t, x)
      && RunOf(u, x) == if x == d then HandlerSees(v, phase).run else RunOf(t, x)
  {
    hide RunOf, Known, SetStage, SetRun, SetDeployment, SetAppOf, ClosedStage, Finalize, PutStage, PutStatus;
    WritesSeen(t, d, x);
    RunWritesSeen(t, d, x);
  }

  function SeenPhase(v: View, phase: Phase): Phase { PhaseAfter(v.known, v.run.Some?, v.outcome, phase) }

  lemma HandlerMovesWell(v: View, phase: Phase)
    requires ViewOk(v) && v.outcome.Some? && PhaseOk(v, phase)
    ensures GoodMove(v, HandlerSees(v, phase))
    ensures PhaseOk(HandlerSees(v, phase), SeenPhase(v, phase))
  {
    hide Closing, ClosedCount, ClosedStage;
    if phase.ClosingStage? && v.run.Some? {
      var stages, ok, k := v.run.value.stages, Success(v.outcome), phase.k;
      var c := ClosedCount(stages);
      CountBound(stages);
      CountOfClosing(ok, c);
      CountOfClosing(ok, 3);
      if k < 3 {
        CloseNext(ok, c, k);
        CountOfClosing(ok, if k == c then c + 1 else c);
      }
    }
  }

  lemma CountBound(stages: seq<Stage>)
    requires |stages| == STAGE_COUNT
    ensures ClosedCount(stages) <= 3
  {}

  lemma HandlerKeepsShape(s: State, h: Id)
    requires ShapeOk(s) && h in s.handlers
    ensures ShapeOk(HandlerNext(s, h))
  {
    hide ViewOk, ViewOf, PhaseOk, PhaseAfter, HandlerSees, HandlerNext;
    var u, d, phase := HandlerNext(s, h), s.handlers[h].d, s.handlers[h].phase;
    var v := ViewOf(s, d);
    assert ViewOk(v) && HandlerOk(s, h);
    HandlerMovesWell(v, phase);
    HandlerGoesOn(s, h);
    forall x ensures ViewOf(u, x) == if x == d then HandlerSees(v, phase) else ViewOf(s, x) {
      HandlerIsSeen(s, h, x);
    }
    forall g | g in u.handlers ensures HandlerOk(u, g) {
      if g != h { assert HandlerOk(s, g); }
    }
  }

  lemma HandlerGoesOn(s: State, h: Id)
    requires h in s.handlers
    ensures var Handler(d, phase) := s.handlers[h];
      HandlerNext(s, h).handlers == s.handlers[h := Handler(d, SeenPhase(ViewOf(s, d), phase))]
  {
    hide HandlerWrite, PhaseAfter;
  }

  lemma HandlerStartKeepsShape(s: State, h: Id, d: Id)
    requires ShapeOk(s) && h !in s.handlers && d in s.outcomes
    ensures ShapeOk(s.(handlers := s.handlers[h := Handler(d, Received)]))
  {
    hide ViewOk;
    var u := s.(handlers := s.handlers[h := Handler(d, Received)]);
    assert forall x :: ViewOf(u, x) == ViewOf(s, x);
    forall g | g in u.handlers ensures HandlerOk(u, g) {
      if g != h { assert HandlerOk(s, g); }
    }
  }

  // Every other step, seen from the deployment it concerns.

  function Sees(v: View, step: Step): View {
    match step
    case Trigger(_, _) => v.(known := true, worker := Some(JobQueued))
    case Rollback(_, _) => v.(known := true)
    case RollbackCommand(_) => v.(sent := true)
    case WorkerNoNode(_) => v.(worker := Some(NoNodeMarked))
    case WorkerStep(_) => if v.worker.Some? then WorkerSees(v) else v
    case WorkerBreaks(_) =>
      if v.worker.Some? then
        v.(run := PutStage(v.run, StageOf(v.worker.value), BROKEN), worker := Some(Catching(0)))
      else v
    case WorkerThrows(_) => v.(worker := Some(Catching(0)))
    case Decide(_, o) => v.(outcome := Some(o))
    case _ => v
  }

  lemma SeesWell(v: View, step: Step)
    requires ViewOk(v)
    requires step.Trigger? || step.Rollback? ==> !v.known
    requires step.RollbackCommand? ==> v.known && v.worker == None
    requires step.WorkerNoNode? ==> v.worker == Some(JobQueued)
    requires step.WorkerBreaks? ==> v.worker.Some? && (v.worker.value.In? || v.worker.value.Packaged?)
    requires step.WorkerThrows? ==> v.worker.Some? && InTry(v.worker.value)
    requires step.Decide? ==> v.sent && v.outcome == None
    ensures GoodMove(v, Sees(v, step))
  {
    hide WorkerSees, Closing, Reached, InTry;
    if step.WorkerStep? && v.worker.Some? { WorkerMovesWell(v); }
    if step.WorkerThrows? { WorkerGivesUp(v, Catching(0)); }
    if step.WorkerBreaks? { StageEnds(v, StageOf(v.worker.value)); }
    if step.Decide? {
      ClosingNone(true);
      ClosingNone(false);
    }
  }

  lemma AddingSeen(t: Tables, d: Id, x: Id)
    ensures forall a, status :: RunOf(AddDeployment(t, a, d, status), x) == RunOf(t, x)
    ensures forall a, status :: Known(AddDeployment(t, a, d, status), x) == (x == d || Known(t, x))
  {}

  predicate OfOneDeployment(step: Step) {
    match step
    case CreateApp(_) => false
    case SetAppStatus(_, _) => false
    case HandlerStart(_, _) => false
    case HandlerStep(_) => false
    case HealthWrite(_) => false
    case _ => true
  }

  lemma StepIsSeen(s: State, step: Step, x: Id)
    requires Enabled(s, step) && OfOneDeployment(step)
    ensures ViewOf(Next(s, step), x) == if x == step.d then Sees(ViewOf(s, x), step) else ViewOf(s, x)
    ensures Next(s, step).handlers == s.handlers
  {
    hide RunOf, Known, WorkerNext, WorkerSees, SetStage, SetApp, SetDeployment, AddDeployment, PutStage;
    if step.Trigger? { WritesSeen(AddDeployment(s.t, step.a, step.d, Queued), step.d, x); }
    WritesSeen(s.t, step.d, x);
    RunWritesSeen(s.t, step.d, x);
    AddingSeen(s.t, step.d, x);
    EnabledSeen(s, step);
    if step.WorkerStep? {
      WorkerIsSeen(s, step.d, x);
      WorkerHandlers(s, step.d);
    }
  }

  lemma EnabledSeen(s: State, step: Step)
    requires Enabled(s, step)
    ensures step.Trigger? || step.Rollback? ==> !Known(s.t, step.d)
    ensures step.RollbackCommand? ==> Known(s.t, step.d)
  {}

  lemma OneDeploymentKeepsShape(s: State, step: Step)
    requires ShapeOk(s) && Enabled(s, step) && OfOneDeployment(step)
    ensures ShapeOk(Next(s, step))
  {
    hide ShapeOk, ViewOk, GoodMove, Next, Sees;
    var d, u := step.d, Next(s, step);
    ViewIsOk(s, d);
    EnabledSeen(s, step);
    SeesWell(ViewOf(s, d), step);
    forall x ensures ViewOf(u, x) == if x == d then Sees(ViewOf(s, d), step) else ViewOf(s, x) {
      StepIsSeen(s, step, x);
    }
    StepIsSeen(s, step, d);
    ShapeByView(s, u, d);
  }

  lemma FailingMovesWell(v: View)
    requires ViewOk(v)
    ensures GoodMove(v, v)
    ensures GoodMove(v, v.(run := PutStatus(v.run, RunFailed)))
  {}

  lemma HealthKeepsShape(s: State, d: Id)
    requires ShapeOk(s) && d in s.health && s.health[d].TimedOut?
    ensures ShapeOk(HealthNext(s, d))
  {
    hide ShapeOk, ViewOk, GoodMove, RunOf, Known, SetDeployment, SetAppOf, SetRun, PutStatus;
    var v, u := ViewOf(s, d), HealthNext(s, d);
    ViewIsOk(s, d);
    FailingMovesWell(v);
    forall x
      ensures ViewOf(u, x) ==
        if x == d && u.t == SetRun(s.t, d, RunFailed) then v.(run := PutStatus(v.run, RunFailed))
        else ViewOf(s, x)
    {
      WritesSeen(s.t, d, x);
      RunWritesSeen(s.t, d, x);
    }
    ShapeByView(s, u, d);
  }

  lemma StepKeepsShape(s: State, step: Step)
    requires ShapeOk(s) && Enabled(s, step)
    ensures ShapeOk(Next(s, step))
  {
    hide ShapeOk, HandlerNext, HealthNext;
    if OfOneDeployment(step) { OneDeploymentKeepsShape(s, step); }
    else if step.HandlerStart? { HandlerStartKeepsShape(s, step.h, step.d); }
    else if step.HandlerStep? { HandlerKeepsShape(s, step.h); }
    else if step.HealthWrite? { HealthKeepsShape(s, step.d); }
    else {
      AppsUnseen(s, step);
      SameShape(s, Next(s, step));
    }
  }

  lemma AppsUnseen(s: State, step: Step)
    requires Enabled(s, step) && (step.CreateApp? || step.SetAppStatus?)
    ensures forall x :: ViewOf(Next(s, step), x) == ViewOf(s, x)
  {
    hide WorkerNext, HandlerNext, HealthNext;
  }

  // ------------------------------------------------------------ over all runs

  lemma {:induction false} RunKeeps(s: State, steps: seq<Step>)
    requires PointersOk(s.t) && ShapeOk(s)
    ensures PointersOk(Exec(s, steps).t) && ShapeOk(Exec(s, steps))
    decreases |steps|
  {
    hide PointersOk, ShapeOk, Next, Enabled;
    if steps != [] {
      if Enabled(s, steps[0]) {
        StepKeepsPointers(s, steps[0]);
        StepKeepsShape(s, steps[0]);
        RunKeeps(Next(s, steps[0]), steps[1..]);
      } else {
        RunKeeps(s, steps[1..]);
      }
    }
  }

  lemma InitiallyOk()
    ensures PointersOk(INIT.t) && ShapeOk(INIT)
  {}

  /** In every reachable state a running deployment is the one its app points to,
      and no app has two. */
  lemma RunningIsCurrent(steps: seq<Step>, d: Id, e: Id)
    requires var ds := Exec(INIT, steps).t.deployments;
      d in ds && ds[d].status == Running && e in ds && ds[e].status == Running && ds[e].app == ds[d].app
    ensures var t := Exec(INIT, steps).t;
      t.deployments[d].app in t.apps && t.apps[t.deployments[d].app].current == Some(d) && d == e
  {
    hide Exec, ShapeOk;
    InitiallyOk();
    RunKeeps(INIT, steps);
  }

  /** The shapes a run can have: some stages passed and the next one pending,
      running or broken; or all five control-plane stages passed and `k` of the
      last three closed, successfully or not. */
  ghost predicate PipelineShape(stages: seq<Stage>) {
    Stopped(stages) || (exists ok: bool, k: nat :: k <= 3 && stages == Closing(ok, k))
  }

  /** In every reachable state every run has one of those shapes, and a run marked
      succeeded has all eight stages passed, on a healthy report. */
  lemma PipelineShapeHolds(steps: seq<Step>, d: Id)
    requires d in Exec(INIT, steps).t.runs
    ensures var s := Exec(INIT, steps);
      && PipelineShape(s.t.runs[d].stages)
      && (s.t.runs[d].status == RunSucceeded ==>
            && d in s.outcomes && s.outcomes[d] == Healthy
            && |s.t.runs[d].stages| == STAGE_COUNT
            && forall i :: 0 <= i < STAGE_COUNT ==> s.t.runs[d].stages[i] == PASSED)
  {
    hide Exec, PointersOk, Reached, Closing;
    InitiallyOk();
    RunKeeps(INIT, steps);
    var s := Exec(INIT, steps);
    var v, run := ViewOf(s, d), s.t.runs[d];
    assert ViewOk(v) && RunOk(v, run);
    if v.sent {
      CountBound(run.stages);
      assert run.stages == Closing(Success(v.outcome), ClosedCount(run.stages));
    } else {
      UnsentIsStopped(v.worker.value, run.stages);
    }
    AllPassed();
  }

  lemma AllPassed()
    ensures |Closing(true, 3)| == STAGE_COUNT
    ensures forall i :: 0 <= i < STAGE_COUNT ==> Closing(true, 3)[i] == PASSED
  {
    forall i: nat | i < STAGE_COUNT ensures Closing(true, 3)[i] == PASSED {
      ClosedForms(true, 3, i);
    }
  }

  lemma UnsentIsStopped(w: Worker, stages: seq<Stage>)
    requires BeforeCommand(w, stages)
    ensures Stopped(stages)
  {
    match w
    case RunCreated => assert StoppedAt(stages, 0);
    case Ready(i) => assert StoppedAt(stages, i);
    case In(i) => assert StoppedAt(stages, i);
    case Packaged => assert StoppedAt(stages, PACKAGE);
    case Dispatching => assert StoppedAt(stages, DEPLOY);
    case _ =>
  }

  /** Once a report's request has finished, the run it belongs to is closed: all
      eight stages passed if the report was healthy; otherwise five passed, deploy
      broken, and the last two skipped. */
  lemma HandledIsClosed(steps: seq<Step>, h: Id)
    requires var s := Exec(INIT, steps);
      h in s.handlers && s.handlers[h].phase == Handled && s.handlers[h].d in s.t.runs
    ensures var s := Exec(INIT, steps);
      var d := s.handlers[h].d;
      && d in s.outcomes && |s.t.runs[d].stages| == STAGE_COUNT
      && forall j :: 0 <= j < STAGE_COUNT ==>
           s.t.runs[d].stages[j] ==
             if s.outcomes[d] == Healthy || j < DEPLOY then PASSED
             else if j == DEPLOY then BROKEN else SKIPPED
  {
    hide Exec, PointersOk, Reached, Closing;
    InitiallyOk();
    RunKeeps(INIT, steps);
    var s := Exec(INIT, steps);
    var d := s.handlers[h].d;
    var v, stages := ViewOf(s, d), s.t.runs[d].stages;
    assert ViewOk(v) && HandlerOk(s, h);
    CountBound(stages);
    assert stages == Closing(Success(v.outcome), ClosedCount(stages));
    forall j | 0 <= j < STAGE_COUNT
      ensures stages[j] == if s.outcomes[d] == Healthy || j < DEPLOY then PASSED
                           else if j == DEPLOY then BROKEN else SKIPPED
    {
      ClosedForms(Success(v.outcome), ClosedCount(stages), j);
    }
  }

  /** What a step of one deployment does to the status of a succeeded run. */
  lemma SeesStatus(v: View, step: Step)
    requires ViewOk(v) && v.run.Some? && v.run.value.status == RunSucceeded
    ensures Sees(v, step).run.Some?
    ensures Sees(v, step).run.value.status != RunSucceeded <==>
      step.WorkerStep? && v.worker == Some(Catching(0))
  {
    hide Reached, Closing, ClosingOk, BeforeCommand;
  }

  lemma HandlerSeesStatus(v: View, phase: Phase)
    requires ViewOk(v) && v.run.Some? && v.run.value.status == RunSucceeded
    ensures HandlerSees(v, phase).run.Some? && HandlerSees(v, phase).run.value.status == RunSucceeded
  {
    hide Reached, Closing, ClosingOk, BeforeCommand;
  }

  lemma HealthSeesStatus(s: State, d: Id, x: Id)
    requires d in s.health && s.health[d].TimedOut?
    requires RunOf(s.t, x).Some? && RunOf(s.t, x).value.status == RunSucceeded
    ensures RunOf(HealthNext(s, d).t, x) == RunOf(s.t, x)
  {
    hide SetDeployment, SetAppOf;
    WritesSeen(s.t, d, x);
  }

  /** A run marked succeeded stays so under every step of every process, the safety
      net included, but one: the worker that sent its command and then failed. */
  lemma SucceededLeavesExactly(steps: seq<Step>, step: Step, d: Id)
    requires var s := Exec(INIT, steps);
      Enabled(s, step) && d in s.t.runs && s.t.runs[d].status == RunSucceeded
    ensures var s := Exec(INIT, steps);
      && d in Next(s, step).t.runs
      && (Next(s, step).t.runs[d].status != RunSucceeded <==>
            step == WorkerStep(d) && s.workers[d] == Catching(0))
  {
    hide Exec, ShapeOk, PointersOk, ViewOk, Sees, HandlerSees, HandlerNext, WorkerNext, HealthNext;
    InitiallyOk();
    RunKeeps(INIT, steps);
    var s := Exec(INIT, steps);
    var v, u := ViewOf(s, d), Next(s, step);
    ViewIsOk(s, d);
    if OfOneDeployment(step) {
      StepIsSeen(s, step, d);
      SeesStatus(v, step);
    } else if step.HandlerStep? {
      HandlerIsSeen(s, step.h, d);
      HandlerSeesStatus(v, s.handlers[step.h].phase);
    } else if step.HealthWrite? {
      HealthSeesStatus(s, step.d, d);
    } else if !step.HandlerStart? {
      AppsUnseen(s, step);
      assert ViewOf(u, d) == v;
    }
    assert RunOf(u.t, d) == ViewOf(u, d).run;
  }

  // ------------------------------------------------------------ runs in pieces

  lemma OneStep(s: State, step: Step, rest: seq<Step>)
    requires Enabled(s, step)
    ensures Exec(s, [step] + rest) == Exec(Next(s, step), rest)
    ensures rest == [] ==> Exec(s, [step]) == Next(s, step)
  {
    assert ([step] + rest)[1..] == rest;
    assert rest == [] ==> [step] + rest == [step];
  }

  lemma {:induction false} ExecInTwo(s: State, a: seq<Step>, b: seq<Step>)
    ensures Exec(s, a + b) == Exec(Exec(s, a), b)
    decreases |a|
  {
    hide Next, Enabled;
    if a == [] {
      assert a + b == b;
    } else {
      assert (a + b)[1..] == a[1..] + b;
      ExecInTwo(if Enabled(s, a[0]) then Next(s, a[0]) else s, a[1..], b);
    }
  }

  function Repeat(step: Step, n: nat): seq<Step> {
    if n == 0 then [] else Repeat(step, n - 1) + [step]
  }

  // -------------------------------------------- a request that runs undisturbed

  function At(s: State, t: Tables, h: Id, d: Id, phase: Phase): State {
    s.(t := t, handlers := s.handlers[h := Handler(d, phase)])
  }

  lemma HandlerOnce(s: State, t: Tables, h: Id, d: Id, phase: Phase, n: nat)
    ensures var o := Find(s.outcomes, d);
      Exec(At(s, t, h, d, phase), Repeat(HandlerStep(h), n + 1))
      == Exec(At(s, HandlerWrite(t, d, o, phase), h, d, PhaseAfter(d in t.deployments, d in t.runs, o, phase)),
              Repeat(HandlerStep(h), n))
  {
    hide HandlerWrite, PhaseAfter, Repeat;
    var u := At(s, t, h, d, phase);
    var o := Find(s.outcomes, d);
    assert Next(u, HandlerStep(h))
      == At(s, HandlerWrite(t, d, o, phase), h, d, PhaseAfter(d in t.deployments, d in t.runs, o, phase));
    RepeatFromFront(HandlerStep(h), n);
    OneStep(u, HandlerStep(h), Repeat(HandlerStep(h), n));
  }

  lemma {:induction false} RepeatFromFront(step: Step, n: nat)
    ensures Repeat(step, n + 1) == [step] + Repeat(step, n)
  {
    if n > 0 {
      RepeatFromFront(step, n - 1);
    }
  }

  lemma {:induction false} HandledStays(s: State, t: Tables, h: Id, d: Id, n: nat)
    ensures Exec(At(s, t, h, d, Handled), Repeat(HandlerStep(h), n)) == At(s, t, h, d, Handled)
  {
    hide Exec;
    if n == 0 {
      ExecNone(At(s, t, h, d, Handled));
    } else {
      HandlerOnce(s, t, h, d, Handled, n - 1);
      HandledStays(s, t, h, d, n - 1);
    }
  }

  lemma ExecNone(s: State)
    ensures Exec(s, []) == s
  {}

  lemma ClosingAlone(s: State, t: Tables, h: Id, d: Id, n: nat)
    requires d in s.outcomes && n >= 4
    ensures Exec(At(s, t, h, d, ClosingStage(0)), Repeat(HandlerStep(h), n))
            == At(s, Closed(t, d, Success(Some(s.outcomes[d]))), h, d, Handled)
  {
    hide Exec, Repeat, CloseStage, CloseRun, Success, Known, ClosedStages;
    var ok := Success(Some(s.outcomes[d]));
    HandlerOnce(s, t, h, d, ClosingStage(0), n - 1);
    ClosingWrites(t, d, ok);
    if d in t.runs {
      HandlerOnce(s, ClosedStages(t, d, 1, ok), h, d, ClosingStage(1), n - 2);
      HandlerOnce(s, ClosedStages(t, d, 2, ok), h, d, ClosingStage(2), n - 3);
      HandlerOnce(s, ClosedStages(t, d, 3, ok), h, d, ClosingStage(3), n - 4);
      HandledStays(s, CloseRun(ClosedStages(t, d, 3, ok), d, ok), h, d, n - 4);
    } else {
      HandledStays(s, t, h, d, n - 1);
    }
  }

  lemma ClosingWrites(t: Tables, d: Id, ok: bool)
    ensures d !in t.runs ==> CloseStage(t, d, 0, ok) == t
    ensures ClosedStages(t, d, 1, ok) == CloseStage(t, d, 0, ok)
    ensures ClosedStages(t, d, 2, ok) == CloseStage(ClosedStages(t, d, 1, ok), d, 1, ok)
    ensures ClosedStages(t, d, 3, ok) == CloseStage(ClosedStages(t, d, 2, ok), d, 2, ok)
    ensures d in t.runs ==> d in ClosedStages(t, d, 1, ok).runs
    ensures d in t.runs ==> d in ClosedStages(t, d, 2, ok).runs
    ensures d in t.runs ==> d in ClosedStages(t, d, 3, ok).runs
  {
    hide ClosedStage;
    assert ClosedStages(t, d, 0, ok) == t;
  }

  /** Six steps of a request with nothing in between do what its handler does. */
  lemma HandlerAlone(s: State, h: Id, d: Id)
    requires h in s.handlers && s.handlers[h] == Handler(d, Received) && d in s.outcomes
    ensures var o := s.outcomes[d];
      var t := if d !in s.t.deployments then s.t
               else if o == NotDeployed then
                 Closed(SetAppOf(SetDeployment(s.t, d, Failed), d, AppFailed), d, false)
               else Closed(Finalize(s.t, d, o == Healthy), d, o == Healthy);
      Exec(s, Repeat(HandlerStep(h), 6)) == At(s, t, h, d, Handled)
  {
    hide Exec, Repeat, SetDeployment, SetAppOf, Finalize, Closed;
    assert s == At(s, s.t, h, d, Received);
    var o, six := s.outcomes[d], 6;
    HandlerOnce(s, s.t, h, d, Received, six - 1);
    if d !in s.t.deployments {
      HandledStays(s, s.t, h, d, six - 1);
    } else if o == NotDeployed {
      var t := SetDeployment(s.t, d, Failed);
      HandlerOnce(s, t, h, d, DeploymentFailed, six - 2);
      ClosingAlone(s, SetAppOf(t, d, AppFailed), h, d, six - 2);
    } else {
      ClosingAlone(s, Finalize(s.t, d, o == Healthy), h, d, six - 1);
    }
  }
}
