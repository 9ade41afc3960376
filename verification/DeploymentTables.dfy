/** Deployment rows. */
module DeploymentTables {
  // The rows that a deployment touches, the single writes that the control plane
  // makes on them, and its handlers as sequences of those writes.

  import opened Options

  type Id = nat

  datatype DeploymentStatus =
    Queued | Building | Deploying | Running | Failed | Stopped | RolledBack | Superseded

  datatype AppStatus = AppIdle | AppBuilding | AppDeploying | AppRunning | AppFailed | AppStopped

  datatype Deployment = Deployment(app: Id, status: DeploymentStatus)

  datatype App = App(status: AppStatus, current: Option<Id>)

  datatype StageStatus = StagePending | StageRunning | StageSucceeded | StageFailed | StageSkipped

  datatype Stage = Stage(status: StageStatus, exitCode: Option<int>)

  datatype RunStatus = RunRunning | RunSucceeded | RunFailed

  /** A pipeline run with its stages in pipeline order. */
  datatype PipelineRun = PipelineRun(status: RunStatus, stages: seq<Stage>)

  /** Checkout, install, test, build, package, deploy, healthcheck, finalize. */
  const STAGE_COUNT := 8
  const BUILD: nat := 3
  const PACKAGE: nat := 4
  const DEPLOY: nat := 5

  const PENDING := Stage(StagePending, None)
  const STARTED := Stage(StageRunning, None)
  const PASSED := Stage(StageSucceeded, Some(0))
  const BROKEN := Stage(StageFailed, Some(1))
  const SKIPPED := Stage(StageSkipped, Some(1))

  /** Runs are keyed by the deployment they belong to. */
  datatype Tables = Tables(
    apps: map<Id, App>, deployments: map<Id, Deployment>, runs: map<Id, PipelineRun>)

  predicate IsTerminal(s: DeploymentStatus) {
    s == Running || s == Failed || s == Stopped || s == RolledBack || s == Superseded
  }

  // ---------------------------------------------------------- single writes

  function SetDeployment(t: Tables, d: Id, status: DeploymentStatus): Tables {
    if d in t.deployments then
      t.(deployments := t.deployments[d := t.deployments[d].(status := status)])
    else t
  }

  function SetApp(t: Tables, a: Id, status: AppStatus): Tables {
    if a in t.apps then t.(apps := t.apps[a := t.apps[a].(status := status)]) else t
  }

  function SetRun(t: Tables, d: Id, status: RunStatus): Tables {
    if d in t.runs then t.(runs := t.runs[d := t.runs[d].(status := status)]) else t
  }

  function SetStage(t: Tables, d: Id, i: nat, stage: Stage): Tables {
    if d in t.runs && i < |t.runs[d].stages| then
      t.(runs := t.runs[d := t.runs[d].(stages := t.runs[d].stages[i := stage])])
    else t
  }

  function AddDeployment(t: Tables, a: Id, d: Id, status: DeploymentStatus): Tables {
    t.(deployments := t.deployments[d := Deployment(a, status)])
  }

  function CreateRun(t: Tables, d: Id): Tables {
    t.(runs := t.runs[d := PipelineRun(RunRunning, Reached(0, PENDING))])
  }

  /** `updateMany` on runs that are still running. */
  function TimeOutRun(t: Tables, d: Id): Tables {
    if d in t.runs && t.runs[d].status == RunRunning then SetRun(t, d, RunFailed) else t
  }

  /** The finalizing transaction: the reported deployment runs or fails; when it
      runs, every other running one of its app is superseded and the app points
      to it. */
  function Finalize(t: Tables, d: Id, healthy: bool): Tables {
    if d !in t.deployments then t
    else
      var a := t.deployments[d].app;
      if healthy then
        var ds := map x | x in t.deployments ::
          if x == d then t.deployments[x].(status := Running)
          else if t.deployments[x].app == a && t.deployments[x].status == Running then
            t.deployments[x].(status := Superseded)
          else t.deployments[x];
        var t' := t.(deployments := ds);
        if a in t.apps then t'.(apps := t.apps[a := App(AppRunning, Some(d))]) else t'
      else SetApp(SetDeployment(t, d, Failed), a, AppFailed)
  }

  /** What closing gives the `k`-th of deploy, healthcheck and finalize. */
  function ClosedStage(success: bool, k: nat): Stage {
    if success then PASSED else if k == 0 then BROKEN else SKIPPED
  }

  function CloseStage(t: Tables, d: Id, k: nat, success: bool): Tables {
    SetStage(t, d, DEPLOY + k, ClosedStage(success, k))
  }

  function CloseRun(t: Tables, d: Id, success: bool): Tables {
    SetRun(t, d, if success then RunSucceeded else RunFailed)
  }

  function AppOf(t: Tables, d: Id): Option<Id> {
    if d in t.deployments then Some(t.deployments[d].app) else None
  }

  function SetAppOf(t: Tables, d: Id, status: AppStatus): Tables {
    match AppOf(t, d) case Some(a) => SetApp(t, a, status) case None => t
  }

  /** What the eight stages look like after the worker has passed `i` of them and
      the next one is `x`. */
  function Reached(i: nat, x: Stage): seq<Stage> {
    seq(STAGE_COUNT, j => if j < i then PASSED else if j == i then x else PENDING)
  }

  /** What they look like once `k` of the last three have been closed. */
  function Closing(success: bool, k: nat): seq<Stage> {
    seq(STAGE_COUNT, j =>
      if j < DEPLOY then PASSED
      else if j < DEPLOY + k then ClosedStage(success, j - DEPLOY)
      else if j == DEPLOY then STARTED
      else PENDING)
  }

  lemma ClosingNone(success: bool)
    ensures Closing(success, 0) == Reached(DEPLOY, STARTED)
  {}

  /** The two closed forms: all eight passed, or five passed, deploy broken and
      the last two skipped. */
  lemma ClosedForms(success: bool, all: nat, j: nat)
    requires all == 3 && j < STAGE_COUNT
    ensures Closing(success, all)[j] ==
      if success || j < DEPLOY then PASSED else if j == DEPLOY then BROKEN else SKIPPED
  {
    assert j >= DEPLOY ==> Closing(success, all)[j] == ClosedStage(success, j - DEPLOY);
  }

  /** Closing stage `k` when `c` are closed already. */
  lemma CloseNext(success: bool, c: nat, k: nat)
    requires k <= c <= 3 && k < 3
    ensures Closing(success, c)[DEPLOY + k := ClosedStage(success, k)]
            == Closing(success, if k == c then c + 1 else c)
  {}

  lemma ReachNext(i: nat, x: Stage, y: Stage)
    requires i < STAGE_COUNT
    ensures Reached(i, x)[i := y] == Reached(i, y)
    ensures Reached(i, PASSED) == Reached(i + 1, PENDING)
  {}

  lemma LastWrite(ds: map<Id, Deployment>, d: Id, x: DeploymentStatus, y: DeploymentStatus)
    requires d in ds
    ensures ds[d := ds[d].(status := x)][d := ds[d].(status := y)] == ds[d := ds[d].(status := y)]
  {}

  // --------------------------------------------------------------- closing a run

  function ClosedStages(t: Tables, d: Id, k: nat, success: bool): Tables {
    if k == 0 then t else CloseStage(ClosedStages(t, d, k - 1, success), d, k - 1, success)
  }

  function Closed(t: Tables, d: Id, success: bool): Tables {
    if d !in t.runs then t else CloseRun(ClosedStages(t, d, 3, success), d, success)
  }

  // ------------------------------------------------- row by row, before and after

  /** The reported deployment runs and its app points to it; every other running one of
      the app is superseded; no other row changes. */
  ghost predicate RunsAndSupersedes(before: Tables, after: Tables, d: Id)
    requires d in before.deployments
  {
    var a := before.deployments[d].app;
    && after.deployments.Keys == before.deployments.Keys && after.apps.Keys == before.apps.Keys
    && (forall x :: x in before.deployments ==>
          var was := before.deployments[x];
          after.deployments[x] == Deployment(was.app,
            if x == d then Running
            else if was.app == a && was.status == Running then Superseded
            else was.status))
    && (forall b :: b in before.apps ==>
          after.apps[b] == if b == a then App(AppRunning, Some(d)) else before.apps[b])
  }

  /** The deployment and its app are failed, the app still pointing where it did; no
      other row changes. */
  ghost predicate BothFail(before: Tables, after: Tables, d: Id)
    requires d in before.deployments
  {
    var a := before.deployments[d].app;
    && after.deployments.Keys == before.deployments.Keys && after.apps.Keys == before.apps.Keys
    && (forall x :: x in before.deployments ==>
          after.deployments[x] == if x == d then Deployment(a, Failed) else before.deployments[x])
    && (forall b :: b in before.apps ==>
          after.apps[b] == if b == a then App(AppFailed, before.apps[b].current) else before.apps[b])
  }

  /** The run of the deployment is closed: its first five stages as they were, the last
      three passed, or one failed and two skipped; no other run changes. */
  ghost predicate RunCloses(before: Tables, after: Tables, d: Id, success: bool) {
    && after.runs.Keys == before.runs.Keys
    && (forall x :: x in before.runs && x != d ==> after.runs[x] == before.runs[x])
    && (d in before.runs ==>
          && after.runs[d].status == (if success then RunSucceeded else RunFailed)
          && |after.runs[d].stages| == |before.runs[d].stages|
          && forall i :: 0 <= i < |before.runs[d].stages| ==>
               after.runs[d].stages[i] ==
                 if i < 5 || i > 7 then before.runs[d].stages[i]
                 else if success then Stage(StageSucceeded, Some(0))
                 else if i == 5 then Stage(StageFailed, Some(1))
                 else Stage(StageSkipped, Some(1)))
  }

  lemma ClosedRowByRow(t: Tables, d: Id, success: bool)
    requires d in t.runs ==> |t.runs[d].stages| == STAGE_COUNT
    ensures var u := Closed(t, d, success);
      u.deployments == t.deployments && u.apps == t.apps && RunCloses(t, u, d, success)
  {
    if d in t.runs {
      var t0 := ClosedStages(t, d, 0, success);
      var t1 := ClosedStages(t, d, 1, success);
      var t2 := ClosedStages(t, d, 2, success);
      assert t1 == CloseStage(t0, d, 0, success) && t2 == CloseStage(t1, d, 1, success);
    }
  }

  lemma FinalizeRows(t: Tables, d: Id, healthy: bool)
    requires d in t.deployments
    ensures var u := Finalize(t, d, healthy);
      u.runs == t.runs && if healthy then RunsAndSupersedes(t, u, d) else BothFail(t, u, d)
  {}

  lemma FinalizeRowByRow(t: Tables, d: Id, healthy: bool)
    requires d in t.deployments && (d in t.runs ==> |t.runs[d].stages| == STAGE_COUNT)
    ensures var u := Closed(Finalize(t, d, healthy), d, healthy);
      && RunCloses(t, u, d, healthy)
      && if healthy then RunsAndSupersedes(t, u, d) else BothFail(t, u, d)
  {
    var f := Finalize(t, d, healthy);
    assert f.runs == t.runs;
    ClosedRowByRow(f, d, healthy);
    SameRuns(t, f, Closed(f, d, healthy), d, healthy);
  }

  lemma FailRowByRow(t: Tables, d: Id)
    requires d in t.deployments && (d in t.runs ==> |t.runs[d].stages| == STAGE_COUNT)
    ensures var u := Closed(SetAppOf(SetDeployment(t, d, Failed), d, AppFailed), d, false);
      RunCloses(t, u, d, false) && BothFail(t, u, d)
  {
    var f := SetAppOf(SetDeployment(t, d, Failed), d, AppFailed);
    assert f == Finalize(t, d, false);
    FinalizeRowByRow(t, d, false);
  }

  /** A run that still runs is failed, its stages as they were; no other run changes. */
  ghost predicate RunTimesOut(before: Tables, after: Tables, d: Id) {
    && after.runs.Keys == before.runs.Keys
    && forall x :: x in before.runs ==>
         after.runs[x] == if x == d && before.runs[x].status == RunRunning
                          then PipelineRun(RunFailed, before.runs[x].stages) else before.runs[x]
  }

  lemma TimeOutRowByRow(t: Tables, d: Id)
    requires d in t.deployments
    ensures var u := TimeOutRun(SetAppOf(SetDeployment(t, d, Failed), d, AppFailed), d);
      BothFail(t, u, d) && RunTimesOut(t, u, d)
  {}

  lemma SameRuns(t: Tables, f: Tables, u: Tables, d: Id, success: bool)
    requires f.runs == t.runs && RunCloses(f, u, d, success)
    ensures RunCloses(t, u, d, success)
  {}

  // --------------------------------------------------------------- handlers

  /** The database as the services see it. Each method runs without anyone else
      writing in between; interleavings are the protocol's business. */
  class Database {
    var apps: map<Id, App>
    var deployments: map<Id, Deployment>
    var runs: map<Id, PipelineRun>

    ghost function Now(): Tables
      reads this
    {
      Tables(apps, deployments, runs)
    }

    method UpdateDeployment(d: Id, status: DeploymentStatus)
      modifies this
      ensures Now() == SetDeployment(old(Now()), d, status)
    {
      if d in deployments { deployments := deployments[d := deployments[d].(status := status)]; }
    }

    method UpdateApp(a: Id, status: AppStatus)
      modifies this
      ensures Now() == SetApp(old(Now()), a, status)
    {
      if a in apps { apps := apps[a := apps[a].(status := status)]; }
    }

    method UpdateRun(d: Id, status: RunStatus)
      modifies this
      ensures Now() == SetRun(old(Now()), d, status)
    {
      if d in runs { runs := runs[d := runs[d].(status := status)]; }
    }

    method UpdateStage(d: Id, i: nat, stage: Stage)
      modifies this
      ensures Now() == SetStage(old(Now()), d, i, stage)
    {
      if d in runs && i < |runs[d].stages| {
        runs := runs[d := runs[d].(stages := runs[d].stages[i := stage])];
      }
    }

    /** `closePipelineRun` */
    method ClosePipelineRun(d: Id, success: bool)
      requires d in runs ==> |runs[d].stages| == STAGE_COUNT
      modifies this
      ensures Now() == Closed(old(Now()), d, success)
    {
      if d !in runs { return; }
      for k := 0 to 3
        invariant Now() == ClosedStages(old(Now()), d, k, success)
        invariant d in runs
      {
        UpdateStage(d, DEPLOY + k, ClosedStage(success, k));
      }
      UpdateRun(d, if success then RunSucceeded else RunFailed);
    }

    /** `finalizeSuccessfulDeploy` */
    method FinalizeSuccessfulDeploy(d: Id, healthy: bool)
      requires d in runs ==> |runs[d].stages| == STAGE_COUNT
      modifies this
      ensures Now() == if d in old(deployments)
                       then Closed(Finalize(old(Now()), d, healthy), d, healthy) else old(Now())
      ensures d in old(deployments) && healthy ==> RunsAndSupersedes(old(Now()), Now(), d)
      ensures d in old(deployments) && !healthy ==> BothFail(old(Now()), Now(), d)
      ensures d in old(deployments) ==> RunCloses(old(Now()), Now(), d, healthy)
    {
      hide RunsAndSupersedes, BothFail, RunCloses;
      if d !in deployments { return; }
      var a := deployments[d].app;
      if healthy {
        deployments := deployments[d := deployments[d].(status := Running)];
        deployments := map x | x in deployments ::
          if x != d && deployments[x].app == a && deployments[x].status == Running then
            deployments[x].(status := Superseded)
          else deployments[x];
        if a in apps { apps := apps[a := App(AppRunning, Some(d))]; }
        assert Now() == Finalize(old(Now()), d, healthy);
      } else {
        UpdateDeployment(d, Failed);
        UpdateApp(a, AppFailed);
      }
      ClosePipelineRun(d, healthy);
      FinalizeRowByRow(old(Now()), d, healthy);
    }

    /** `failDeploy` */
    method FailDeploy(d: Id)
      requires d in runs ==> |runs[d].stages| == STAGE_COUNT
      modifies this
      ensures Now() == if d in old(deployments)
                       then Closed(SetAppOf(SetDeployment(old(Now()), d, Failed), d, AppFailed), d, false)
                       else old(Now())
      ensures d in old(deployments) ==> BothFail(old(Now()), Now(), d)
      ensures d in old(deployments) ==> RunCloses(old(Now()), Now(), d, false)
    {
      hide BothFail, RunCloses;
      if d !in deployments { return; }
      UpdateDeployment(d, Failed);
      UpdateApp(deployments[d].app, AppFailed);
      ClosePipelineRun(d, false);
      FailRowByRow(old(Now()), d);
    }

    /** `processHealthcheck`, when nothing happens between its read and its writes. */
    method ProcessHealthcheck(d: Id)
      modifies this
      ensures Now() == if d in old(deployments) && !IsTerminal(old(deployments)[d].status)
                       then TimeOutRun(SetAppOf(SetDeployment(old(Now()), d, Failed), d, AppFailed), d)
                       else old(Now())
      ensures d in old(deployments) && !IsTerminal(old(deployments)[d].status) ==>
        BothFail(old(Now()), Now(), d) && RunTimesOut(old(Now()), Now(), d)
    {
      if d !in deployments { return; }
      if IsTerminal(deployments[d].status) { return; }
      UpdateDeployment(d, Failed);
      UpdateApp(deployments[d].app, AppFailed);
      if d in runs && runs[d].status == RunRunning { UpdateRun(d, RunFailed); }
      TimeOutRowByRow(old(Now()), d);
    }

    /** `runStage`: started, then passed or broken by its body. */
    method RunStage(d: Id, i: nat, ok: bool)
      requires d in runs && |runs[d].stages| == STAGE_COUNT && i < STAGE_COUNT
      modifies this
      ensures Now() == SetStage(old(Now()), d, i, if ok then PASSED else BROKEN)
    {
      var end := if ok then PASSED else BROKEN;
      ghost var stages := runs[d].stages;
      UpdateStage(d, i, STARTED);
      UpdateStage(d, i, end);
      assert stages[i := STARTED][i := end] == stages[i := end];
    }

    /** The control-plane stages: `passing` of them succeed before one breaks;
        packaging also moves the deployment on. */
    method RunStages(d: Id, passing: nat)
      requires d in deployments && passing <= DEPLOY
      requires d in runs && runs[d] == PipelineRun(RunRunning, Reached(0, PENDING))
      modifies this
      ensures apps == old(apps)
      ensures runs == old(runs)[d := PipelineRun(RunRunning, Reached(passing, PENDING))]
      ensures Now().deployments == if passing > PACKAGE
                                   then SetDeployment(old(Now()), d, Deploying).deployments
                                   else old(deployments)
    {
      for i := 0 to passing
        invariant apps == old(apps)
        invariant runs == old(runs)[d := PipelineRun(RunRunning, Reached(i, PENDING))]
        invariant deployments == if i > PACKAGE then SetDeployment(old(Now()), d, Deploying).deployments
                                 else old(deployments)
      {
        ReachNext(i, PENDING, PASSED);
        RunStage(d, i, true);
        if i == PACKAGE { UpdateDeployment(d, Deploying); }
      }
    }

    /** `processDeploy`. Without a node it fails at once. `passing` control-plane stages
        succeed; building the spec, after the third, may throw; with all five passed,
        the command goes out if `dispatched`. Anything else ends in the catch. */
    method ProcessDeploy(d: Id, hasNode: bool, passing: nat, specBuilt: bool, dispatched: bool)
      requires d in deployments && passing <= DEPLOY
      modifies this
      ensures !hasNode ==> Now() == SetAppOf(SetDeployment(old(Now()), d, Failed), d, AppFailed)
      ensures hasNode ==> d in runs
      ensures hasNode ==>
        var sent := passing == 5 && specBuilt && dispatched;
        && runs[d].stages ==
           (if passing >= 3 && !specBuilt then Reached(3, PENDING)
            else Reached(passing, if passing == 5 then STARTED else BROKEN))
        && runs[d].status == (if sent then RunRunning else RunFailed)
        && Now().deployments == SetDeployment(old(Now()), d, if sent then Deploying else Failed).deployments
        && Now().apps == (if sent then old(apps) else SetAppOf(old(Now()), d, AppFailed).apps)
    {
      if !hasNode {
        UpdateDeployment(d, Failed);
        UpdateApp(deployments[d].app, AppFailed);
        return;
      }
      runs := runs[d := PipelineRun(RunRunning, seq(STAGE_COUNT, _ => PENDING))];
      assert runs[d].stages == Reached(0, PENDING);
      UpdateDeployment(d, Building);
      label built:
      LastWrite(old(deployments), d, Building, Deploying);
      LastWrite(old(deployments), d, Building, Failed);
      if passing >= BUILD && !specBuilt {
        RunStages(d, BUILD);
        CatchDeploy(d);
      } else {
        RunStages(d, passing);
        if passing < DEPLOY {
          BreakStage(d, passing);
        } else {
          ReachNext(DEPLOY, PENDING, STARTED);
          UpdateStage(d, DEPLOY, STARTED);
          LastWrite(old@built(deployments), d, Deploying, Failed);
          if !dispatched { CatchDeploy(d); }
        }
      }
    }

    method BreakStage(d: Id, i: nat)
      requires d in deployments && i < DEPLOY
      requires d in runs && runs[d].stages == Reached(i, PENDING)
      modifies this
      ensures d in runs && runs[d] == PipelineRun(RunFailed, Reached(i, BROKEN))
      ensures Now().deployments == SetDeployment(old(Now()), d, Failed).deployments
      ensures Now().apps == SetAppOf(old(Now()), d, AppFailed).apps
    {
      ReachNext(i, PENDING, BROKEN);
      RunStage(d, i, false);
      CatchDeploy(d);
    }

    /** The worker's catch: run, deployment and app are marked failed. */
    method CatchDeploy(d: Id)
      requires d in deployments
      modifies this
      ensures Now() == SetAppOf(SetDeployment(SetRun(old(Now()), d, RunFailed), d, Failed), d, AppFailed)
    {
      UpdateRun(d, RunFailed);
      UpdateDeployment(d, Failed);
      UpdateApp(deployments[d].app, AppFailed);
    }
  }
}
