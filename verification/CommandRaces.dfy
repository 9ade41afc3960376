/** Races on commands. */
module CommandRaces {
  // A report that was sent again and lands late.

  import opened Options
  import opened Json
  import opened CommandDelivery
  import Signing

  // ----------------------------------------------------- the story of one command

  lemma OneStep(cfg: Config, s: State, step: Step, rest: seq<Step>)
    requires Enabled(cfg, s, step)
    ensures Exec(cfg, s, [step] + rest) == Exec(cfg, Next(cfg, s, step), rest)
  {
    hide Next, Enabled;
    assert ([step] + rest)[1..] == rest;
  }

  lemma NoStep(cfg: Config, s: State)
    ensures Exec(cfg, s, []) == s
  {}

  function Claiming(): seq<Step> { [PollRead([0])] + ([PollUpdate] + ([PollRespond(false)] + ([Take] + []))) }

  /** One command from its creation to its execution. */
  function Delivery(c: Signing.Command, stored: Json): seq<Step> {
    [Create(0, c, stored, 0)] + ([Sign(0)] + Claiming())
  }

  function Reports(): seq<Step> {
    [Report(0, Accepted, false)] + ([Report(0, Running, false)] + ([Report(0, Succeeded, false)] + []))
  }

  /** The agent has executed the one command there is, and told nothing yet. */
  predicate Executed(s: State, row: Row) {
    s.rows == map[0 := row] && s.executed == [0] && s.rejected == [] && s.told == map[]
  }

  lemma ClaimingRuns(cfg: Config, row: Row)
    requires row.status == Queued && Runs(cfg, ReadOf(cfg, row, row.signature))
    ensures Executed(Exec(cfg, INIT.(rows := map[0 := row]), Claiming()), row.(status := Accepted))
  {
    hide Exec, Enabled, Next, Runs, ReadOf;
    var claim := Claim(0, row.signature);
    var s := INIT.(rows := map[0 := row]);
    var s1 := s.(poll := Read([claim]));
    var s2 := s1.(rows := map[0 := row.(status := Accepted)], poll := Updated([claim]));
    var s3 := s2.(poll := Idle, handed := [claim], received := [claim]);
    ReadsOne(cfg, row);
    UpdatesOne(cfg, row);
    HandsOutOne(cfg, row);
    TakesOne(cfg, row);
    OneStep(cfg, s, PollRead([0]), [PollUpdate] + ([PollRespond(false)] + ([Take] + [])));
    OneStep(cfg, s1, PollUpdate, [PollRespond(false)] + ([Take] + []));
    OneStep(cfg, s2, PollRespond(false), [Take] + []);
    OneStep(cfg, s3, Take, []);
    NoStep(cfg, s3.(taken := 1, executed := [0]));
  }

  lemma ReadsOne(cfg: Config, row: Row)
    requires row.status == Queued
    ensures var s := INIT.(rows := map[0 := row]);
      && Enabled(cfg, s, PollRead([0]))
      && Next(cfg, s, PollRead([0])) == s.(poll := Read([Claim(0, row.signature)]))
  {
    OnlyOldest(map[0 := row], 0);
  }

  lemma UpdatesOne(cfg: Config, row: Row)
    requires row.status == Queued
    ensures var s := INIT.(rows := map[0 := row], poll := Read([Claim(0, row.signature)]));
      && Enabled(cfg, s, PollUpdate)
      && Next(cfg, s, PollUpdate)
         == s.(rows := map[0 := row.(status := Accepted)], poll := Updated([Claim(0, row.signature)]))
  {
    OnlyAccepted(row, Claim(0, row.signature));
  }

  lemma HandsOutOne(cfg: Config, row: Row)
    ensures var claim := Claim(0, row.signature);
      var s := INIT.(rows := map[0 := row.(status := Accepted)], poll := Updated([claim]));
      && Enabled(cfg, s, PollRespond(false))
      && Next(cfg, s, PollRespond(false)) == s.(poll := Idle, handed := [claim], received := [claim])
  {
    assert [] + [Claim(0, row.signature)] == [Claim(0, row.signature)];
  }

  lemma TakesOne(cfg: Config, row: Row)
    requires Runs(cfg, ReadOf(cfg, row, row.signature))
    ensures var claim := Claim(0, row.signature);
      var s := INIT.(rows := map[0 := row.(status := Accepted)], handed := [claim], received := [claim]);
      && Enabled(cfg, s, Take)
      && Next(cfg, s, Take) == s.(taken := 1, executed := [0])
  {
    hide Runs, ReadOf;
    StatusIsNotSent(cfg, row, row.signature);
    assert [] + [0] == [0];
  }

  lemma OnlyOldest(rows: map<Id, Row>, id: Id)
    requires rows.Keys == {id} && rows[id].status == Queued
    ensures Oldest(rows, [id]) && ClaimsOf(rows, [id]) == [Claim(id, rows[id].signature)]
  {
    assert [id][1..] == [];
  }

  lemma OnlyAccepted(row: Row, claim: Claim)
    requires claim.id == 0 && row.status == Queued
    ensures AcceptAll(map[0 := row], [claim]) == map[0 := row.(status := Accepted)]
  {
    assert [claim][0].id == 0;
  }

  lemma StatusIsNotSent(cfg: Config, row: Row, signature: string)
    ensures ReadOf(cfg, row.(status := Accepted), signature) == ReadOf(cfg, row, signature)
  {
    assert RawOf(row.(status := Accepted), signature) == RawOf(row, signature);
  }

  lemma DeliveryRuns(cfg: Config, c: Signing.Command, stored: Json)
    requires Signing.Signable(c) && Signing.StoredAs(c.payload, stored)
    requires Runs(cfg, ReadOf(cfg, SignRow(cfg, Row(c, stored, 0, Queued, "")), Signing.SignCommand(cfg.mac, c, cfg.key)))
    ensures Executed(Exec(cfg, INIT, Delivery(c, stored)), SignRow(cfg, Row(c, stored, 0, Accepted, "")))
  {
    hide Signing.Signable, Signing.StoredAs, Signing.SignCommand, Exec, Runs, ReadOf, Claiming;
    var row := Row(c, stored, 0, Queued, "");
    var s1 := INIT.(rows := map[0 := row]);
    OneStep(cfg, INIT, Create(0, c, stored, 0), [Sign(0)] + Claiming());
    assert Next(cfg, INIT, Create(0, c, stored, 0)) == s1;
    OneStep(cfg, s1, Sign(0), Claiming());
    assert Next(cfg, s1, Sign(0)) == INIT.(rows := map[0 := SignRow(cfg, row)]);
    ClaimingRuns(cfg, SignRow(cfg, row));
  }

  lemma ReportsRun(cfg: Config, s: State, row: Row)
    requires Executed(s, row)
    ensures Exec(cfg, s, Reports()) == s.(rows := map[0 := row.(status := Succeeded)], told := map[0 := Succeeded])
  {
    hide Exec, Enabled, Next, NextReport;
    var s1 := s.(rows := map[0 := row.(status := Accepted)], told := map[0 := Accepted]);
    var s2 := s.(rows := map[0 := row.(status := Running)], told := map[0 := Running]);
    var s3 := s.(rows := map[0 := row.(status := Succeeded)], told := map[0 := Succeeded]);
    InThatOrder();
    ReportsOnce(cfg, s, row, Accepted);
    ReportsOnce(cfg, s1, row.(status := Accepted), Running);
    ReportsOnce(cfg, s2, row.(status := Running), Succeeded);
    OneStep(cfg, s, Report(0, Accepted, false), [Report(0, Running, false)] + ([Report(0, Succeeded, false)] + []));
    OneStep(cfg, s1, Report(0, Running, false), [Report(0, Succeeded, false)] + []);
    OneStep(cfg, s2, Report(0, Succeeded, false), []);
    NoStep(cfg, s3);
  }

  lemma InThatOrder()
    ensures NextReport(true, None, Accepted) && NextReport(true, Some(Accepted), Running)
    ensures NextReport(true, Some(Running), Succeeded)
  {}

  lemma ReportsOnce(cfg: Config, s: State, row: Row, status: Status)
    requires s.rows == map[0 := row] && s.executed == [0] && s.told.Keys <= {0}
    requires NextReport(true, Find(s.told, 0), status)
    ensures Enabled(cfg, s, Report(0, status, false))
    ensures Next(cfg, s, Report(0, status, false))
            == s.(rows := map[0 := row.(status := status)], told := map[0 := status])
  {
    hide NextReport;
    assert 0 in s.executed;
    assert s.told[0 := status] == map[0 := status];
  }

  /** The row shows that its command succeeded, and a late report makes it show that
      the command is merely accepted. */
  ghost predicate IsRewritten(cfg: Config, s: State) {
    && 0 in s.rows && s.rows[0].status == Succeeded
    && Enabled(cfg, s, LateReport(0, Accepted))
    && 0 in Next(cfg, s, LateReport(0, Accepted)).rows
    && Next(cfg, s, LateReport(0, Accepted)).rows[0].status == Accepted
  }

  /** For every command that the agent runs there is a run in which its row shows that
      it succeeded and then, on a late report, that it is merely accepted. */
  lemma EndedCanBeRewritten(cfg: Config, c: Signing.Command, stored: Json)
    requires Signing.Signable(c) && Signing.StoredAs(c.payload, stored)
    requires Runs(cfg, ReadOf(cfg, SignRow(cfg, Row(c, stored, 0, Queued, "")), Signing.SignCommand(cfg.mac, c, cfg.key)))
    ensures IsRewritten(cfg, Exec(cfg, Exec(cfg, INIT, Delivery(c, stored)), Reports()))
  {
    hide Signing.Signable, Signing.StoredAs, Signing.SignCommand, Exec, Runs, ReadOf, Delivery, SignRow, Reports,
      IsRewritten;
    var row := SignRow(cfg, Row(c, stored, 0, Accepted, ""));
    DeliveryRuns(cfg, c, stored);
    ReportsRun(cfg, Exec(cfg, INIT, Delivery(c, stored)), row);
    LateAfterSuccess(cfg, Exec(cfg, Exec(cfg, INIT, Delivery(c, stored)), Reports()), row);
  }

  lemma LateAfterSuccess(cfg: Config, s: State, row: Row)
    requires s.rows == map[0 := row.(status := Succeeded)] && s.told == map[0 := Succeeded] && s.executed == [0]
    ensures IsRewritten(cfg, s)
  {
    assert 0 in s.executed;
  }
}
