/** Node commands as steps. */
module CommandDelivery {
  // Delivery of node commands: the control plane inserts and signs them, the
  // node's poll reads and claims them in two writes, and the agent verifies each
  // before it runs it. One node, whose polls do not overlap.

  import opened Options
  import opened Json
  import ParsedNumbers
  import Signing

  type Id = nat

  datatype Status = Queued | Accepted | Running | Succeeded | Failed | TimedOut

  predicate Terminal(s: Status) { s == Succeeded || s == Failed || s == TimedOut }

  /** A command row. `stored` is the payload as the database gives it back, and
      `issued` the instant whose text the command carries. */
  datatype Row = Row(
    command: Signing.Command, stored: Json, issued: int, status: Status, signature: string)

  /** One entry of a poll's answer: the row, with the signature it had when read. */
  datatype Claim = Claim(id: Id, signature: string)

  /** Where the node's current poll stands. */
  datatype Poll = Idle | Read(batch: seq<Claim>) | Updated(batch: seq<Claim>)

  datatype State = State(
    rows: map<Id, Row>,
    poll: Poll,
    handed: seq<Claim>,    // everything `claimCommands` has returned
    received: seq<Claim>,  // what of it has reached the agent
    taken: nat,            // how much of that the agent has looked at
    executed: seq<Id>,
    rejected: seq<Id>,
    told: map<Id, Status>) // the agent's last report

  const INIT := State(map[], Idle, [], [], 0, [], [], map[])

  /** The node's key, HMAC-SHA256, the agent's spelling of floats and its typed
      decoding of an envelope. */
  datatype Config = Config(
    mac: Signing.Mac, key: string, float: ParsedNumbers.Spelling, decodes: Json -> bool)

  const BATCH := 10

  datatype Step =
    | Create(id: Id, command: Signing.Command, stored: Json, issued: int)
    | Sign(id: Id)
    | PollRead(found: seq<Id>)
    | PollUpdate
    | PollRespond(lost: bool)
    | Take
    | Report(id: Id, status: Status, lost: bool)
    | LateReport(id: Id, status: Status)  // a report that timed out and was sent again, applied late

  // ------------------------------------------------------------- the queries

  predicate IsQueued(rows: map<Id, Row>, id: Id) { id in rows && rows[id].status == Queued }

  function Issued(rows: map<Id, Row>, id: Id): int { if id in rows then rows[id].issued else 0 }

  /** What the query for the ten oldest queued commands may return; rows issued at
      the same instant come in any order. */
  ghost predicate Oldest(rows: map<Id, Row>, found: seq<Id>) {
    && |found| <= BATCH
    && (forall i, j :: 0 <= i < j < |found| ==> found[i] != found[j])
    && (forall i :: 0 <= i < |found| ==> IsQueued(rows, found[i]))
    && (forall i, j :: 0 <= i < j < |found| ==> Issued(rows, found[i]) <= Issued(rows, found[j]))
    && (forall i, q :: 0 <= i < |found| && IsQueued(rows, q) && q !in found ==>
          Issued(rows, found[i]) <= Issued(rows, q))
    && (|found| < BATCH ==> forall q :: IsQueued(rows, q) ==> q in found)
  }

  function ClaimsOf(rows: map<Id, Row>, found: seq<Id>): (claims: seq<Claim>)
    requires forall i :: 0 <= i < |found| ==> found[i] in rows
    ensures |claims| == |found|
    ensures forall i :: 0 <= i < |found| ==> claims[i] == Claim(found[i], rows[found[i]].signature)
  {
    if found == [] then [] else [Claim(found[0], rows[found[0]].signature)] + ClaimsOf(rows, found[1..])
  }

  predicate Has(claims: seq<Claim>, id: Id) { exists i :: 0 <= i < |claims| && claims[i].id == id }

  /** `updateMany` on the claimed rows that are still queued. */
  function AcceptAll(rows: map<Id, Row>, claims: seq<Claim>): map<Id, Row> {
    map id | id in rows ::
      if Has(claims, id) && rows[id].status == Queued then rows[id].(status := Accepted) else rows[id]
  }

  /** The envelope as it goes over the wire. */
  function RawOf(row: Row, signature: string): Json {
    Obj([Field("id", Str(row.command.id)), Field("nodeId", Str(row.command.nodeId)),
         Field("payload", row.stored), Field("timeoutMs", Int(row.command.timeoutMs)),
         Field("issuedAt", Str(row.command.issuedAt)), Field("signature", Str(signature))])
  }

  /** The envelope as the agent reads it. */
  function ReadOf(cfg: Config, row: Row, signature: string): Json {
    ParsedNumbers.AsParsed(cfg.float, RawOf(row, signature))
  }

  /** The agent runs a command if its signature verifies and it decodes. */
  predicate Runs(cfg: Config, raw: Json) {
    Signing.VerifyCommand(cfg.mac, raw, cfg.key) == Signing.Accepted && cfg.decodes(raw)
  }

  // ------------------------------------------------------------- transitions

  /** Reports follow each other: accepted, running, then how it ended; a rejected
      command has the one report that it failed. */
  predicate NextReport(ran: bool, told: Option<Status>, status: Status) {
    if ran then
      match told
      case None => status == Accepted
      case Some(last) =>
        if last == Accepted then status == Running else last == Running && Terminal(status)
    else told == None && status == Failed
  }

  /** What the agent has told so far, and so may have sent more than once. */
  predicate HasTold(ran: bool, told: Option<Status>, status: Status) {
    && told.Some? && status != Queued
    && (|| status == told.value
        || (ran && status == Accepted)
        || (ran && status == Running && Terminal(told.value)))
  }

  ghost predicate Enabled(cfg: Config, s: State, step: Step) {
    match step
    case Create(id, command, stored, _) =>
      id !in s.rows && Signing.Signable(command) && Signing.StoredAs(command.payload, stored)
    case Sign(id) => id in s.rows
    case PollRead(found) => s.poll == Idle && Oldest(s.rows, found)
    case PollUpdate => s.poll.Read?
    case PollRespond(_) => s.poll.Updated?
    case Take => s.taken < |s.received| && s.received[s.taken].id in s.rows
    case Report(id, status, _) =>
      && id in s.rows && (id in s.executed || id in s.rejected)
      && NextReport(id in s.executed, Find(s.told, id), status)
    case LateReport(id, status) =>
      && id in s.rows && (id in s.executed || id in s.rejected)
      && HasTold(id in s.executed, Find(s.told, id), status)
  }

  function SignRow(cfg: Config, row: Row): Row {
    row.(signature := Signing.SignCommand(cfg.mac, row.command, cfg.key))
  }

  ghost function Next(cfg: Config, s: State, step: Step): State
    requires Enabled(cfg, s, step)
  {
    match step
    case Create(id, command, stored, issued) =>
      s.(rows := s.rows[id := Row(command, stored, issued, Queued, "")])
    case Sign(id) => s.(rows := s.rows[id := SignRow(cfg, s.rows[id])])
    case PollRead(found) => s.(poll := Read(ClaimsOf(s.rows, found)))
    case PollUpdate => s.(rows := AcceptAll(s.rows, s.poll.batch), poll := Updated(s.poll.batch))
    case PollRespond(lost) =>
      s.(poll := Idle, handed := s.handed + s.poll.batch,
         received := if lost then s.received else s.received + s.poll.batch)
    case Take =>
      var c := s.received[s.taken];
      if Runs(cfg, ReadOf(cfg, s.rows[c.id], c.signature)) then
        s.(taken := s.taken + 1, executed := s.executed + [c.id])
      else s.(taken := s.taken + 1, rejected := s.rejected + [c.id])
    case Report(id, status, lost) =>
      s.(told := s.told[id := status],
         rows := if lost then s.rows else s.rows[id := s.rows[id].(status := status)])
    case LateReport(id, status) => s.(rows := s.rows[id := s.rows[id].(status := status)])
  }

  ghost function Exec(cfg: Config, s: State, steps: seq<Step>): State
    decreases |steps|
  {
    if steps == [] then s
    else Exec(cfg, if Enabled(cfg, s, steps[0]) then Next(cfg, s, steps[0]) else s, steps[1..])
  }

  // ---------------------------------------------- each command is handed out once

  function InFlight(s: State): seq<Claim> { if s.poll.Updated? then s.poll.batch else [] }

  /** Every command that has left the queue, in order. */
  function Left(s: State): seq<Claim> { s.handed + InFlight(s) }

  predicate DistinctIds(cs: seq<Claim>) { forall i, j :: 0 <= i < j < |cs| ==> cs[i].id != cs[j].id }

  /** A row is queued or has left the queue, never both, and has left once. */
  ghost predicate DeliveryOk(s: State) {
    && DistinctIds(Left(s))
    && (forall id :: Has(Left(s), id) <==> id in s.rows && s.rows[id].status != Queued)
    && (s.poll.Read? ==>
          DistinctIds(s.poll.batch) && forall i :: 0 <= i < |s.poll.batch| ==> IsQueued(s.rows, s.poll.batch[i].id))
  }

  predicate DistinctNats(s: seq<Id>) { forall i, j :: 0 <= i < j < |s| ==> s[i] != s[j] }

  /** What the agent has looked at, it has executed or rejected, once. */
  ghost predicate AgentOk(s: State) {
    && DistinctIds(s.received)
    && (forall i :: 0 <= i < |s.received| ==> Has(s.handed, s.received[i].id))
    && s.taken <= |s.received|
    && DistinctNats(s.executed) && DistinctNats(s.rejected)
    && (forall id :: id in s.executed ==> Has(s.received[..s.taken], id) && id !in s.rejected)
    && (forall id :: id in s.rejected ==> Has(s.received[..s.taken], id))
    && (forall id :: Has(s.received[..s.taken], id) ==> id in s.executed || id in s.rejected)
  }

  lemma HasPart(a: seq<Claim>, b: seq<Claim>, id: Id)
    ensures Has(a + b, id) <==> Has(a, id) || Has(b, id)
  {
    if Has(a, id) {
      var i :| 0 <= i < |a| && a[i].id == id;
      assert (a + b)[i].id == id;
    }
    if Has(b, id) {
      var i :| 0 <= i < |b| && b[i].id == id;
      assert (a + b)[|a| + i].id == id;
    }
  }

  lemma DistinctParts(a: seq<Claim>, b: seq<Claim>)
    requires DistinctIds(a) && DistinctIds(b)
    requires forall i :: 0 <= i < |b| ==> !Has(a, b[i].id)
    ensures DistinctIds(a + b)
  {
    forall i, j | 0 <= i < j < |a + b| ensures (a + b)[i].id != (a + b)[j].id {
      if i < |a| <= j { assert !Has(a, b[j - |a|].id); }
    }
  }

  /** Steps of neither the poll nor the table leave the queue alone. */
  lemma DeliveryFrame(s: State, u: State)
    requires DeliveryOk(s) && Left(u) == Left(s)
    requires forall id :: id in u.rows && u.rows[id].status != Queued <==> id in s.rows && s.rows[id].status != Queued
    requires forall id :: IsQueued(s.rows, id) ==> IsQueued(u.rows, id)
    requires u.poll.Read? ==> u.poll == s.poll
    ensures DeliveryOk(u)
  {}

  lemma UpdateKeepsDelivery(cfg: Config, s: State)
    requires DeliveryOk(s) && s.poll.Read?
    ensures DeliveryOk(Next(cfg, s, PollUpdate))
  {
    var u, b := Next(cfg, s, PollUpdate), s.poll.batch;
    assert Left(s) == s.handed && Left(u) == s.handed + b;
    forall i | 0 <= i < |b| ensures !Has(s.handed, b[i].id) {
      assert IsQueued(s.rows, b[i].id);
    }
    DistinctParts(s.handed, b);
    forall id ensures Has(Left(u), id) <==> id in u.rows && u.rows[id].status != Queued {
      HasPart(s.handed, b, id);
    }
  }

  lemma StepKeepsDelivery(cfg: Config, s: State, step: Step)
    requires DeliveryOk(s) && AgentOk(s) && Enabled(cfg, s, step)
    ensures DeliveryOk(Next(cfg, s, step))
  {
    hide Oldest, ClaimsOf, Runs, NextReport, HasTold, Has, AcceptAll, DistinctIds;
    var u := Next(cfg, s, step);
    match step
    case PollUpdate => UpdateKeepsDelivery(cfg, s);
    case PollRespond(lost) =>
      assert Left(u) == Left(s);
      DeliveryFrame(s, u);
    case PollRead(found) => ReadKeepsDelivery(cfg, s, found);
    case Report(id, status, lost) =>
      ReportedHasLeft(s, id);
      ReportIsNotQueued(s, step);
      DeliveryFrame(s, u);
    case LateReport(id, status) =>
      ReportedHasLeft(s, id);
      LateIsNotQueued(s, step);
      DeliveryFrame(s, u);
    case _ => DeliveryFrame(s, u);
  }

  lemma ReadKeepsDelivery(cfg: Config, s: State, found: seq<Id>)
    requires DeliveryOk(s) && Enabled(cfg, s, PollRead(found))
    ensures DeliveryOk(Next(cfg, s, PollRead(found)))
  {
    assert Left(Next(cfg, s, PollRead(found))) == Left(s);
  }

  lemma ReportIsNotQueued(s: State, step: Step)
    requires step.Report? && NextReport(step.id in s.executed, Find(s.told, step.id), step.status)
    ensures step.status != Queued
  {}

  lemma LateIsNotQueued(s: State, step: Step)
    requires step.LateReport? && HasTold(step.id in s.executed, Find(s.told, step.id), step.status)
    ensures step.status != Queued
  {}

  lemma ReportedHasLeft(s: State, id: Id)
    requires DeliveryOk(s) && AgentOk(s) && (id in s.executed || id in s.rejected)
    ensures Has(s.handed, id) && Has(Left(s), id)
  {
    var i :| 0 <= i < |s.received[..s.taken]| && s.received[..s.taken][i].id == id;
    assert s.received[i].id == id;
    HasPart(s.handed, InFlight(s), id);
  }

  lemma HasPrefix(cs: seq<Claim>, n: nat)
    requires n < |cs|
    ensures forall id :: Has(cs[..n + 1], id) <==> Has(cs[..n], id) || cs[n].id == id
  {
    assert cs[..n + 1] == cs[..n] + [cs[n]];
    forall id ensures Has(cs[..n + 1], id) <==> Has(cs[..n], id) || cs[n].id == id {
      HasPart(cs[..n], [cs[n]], id);
      assert Has([cs[n]], id) <==> cs[n].id == id by { assert [cs[n]][0].id == cs[n].id; }
    }
  }

  lemma TakeKeepsAgent(cfg: Config, s: State)
    requires AgentOk(s) && Enabled(cfg, s, Take)
    ensures AgentOk(Next(cfg, s, Take))
  {
    hide Runs, Has;
    var c := s.received[s.taken];
    HasPrefix(s.received, s.taken);
    assert !Has(s.received[..s.taken], c.id) by { NotYet(s.received, s.taken); }
  }

  lemma NotYet(cs: seq<Claim>, n: nat)
    requires DistinctIds(cs) && n < |cs|
    ensures !Has(cs[..n], cs[n].id)
  {}

  lemma RespondKeepsAgent(cfg: Config, s: State, lost: bool)
    requires DeliveryOk(s) && AgentOk(s) && s.poll.Updated?
    ensures AgentOk(Next(cfg, s, PollRespond(lost)))
  {
    hide Has;
    var b, u := s.poll.batch, Next(cfg, s, PollRespond(lost));
    PartsOfDistinct(s.handed, b);
    forall id ensures Has(u.handed, id) <==> Has(s.handed, id) || Has(b, id) {
      HasPart(s.handed, b, id);
    }
    forall i | 0 <= i < |b| ensures Has(b, b[i].id) && !Has(s.received, b[i].id) {
      HasItem(b, i);
      NotReceived(s.handed, s.received, b[i].id);
    }
    DistinctParts(s.received, b);
    assert u.received[..u.taken] == s.received[..s.taken];
  }

  lemma HasItem(cs: seq<Claim>, i: nat)
    requires i < |cs|
    ensures Has(cs, cs[i].id)
  {}

  lemma NotReceived(handed: seq<Claim>, received: seq<Claim>, id: Id)
    requires forall i :: 0 <= i < |received| ==> Has(handed, received[i].id)
    requires !Has(handed, id)
    ensures !Has(received, id)
  {}

  lemma PartsOfDistinct(a: seq<Claim>, b: seq<Claim>)
    requires DistinctIds(a + b)
    ensures DistinctIds(b) && forall i :: 0 <= i < |b| ==> !Has(a, b[i].id)
  {
    forall i, j | 0 <= i < j < |b| ensures b[i].id != b[j].id {
      assert (a + b)[|a| + i] == b[i] && (a + b)[|a| + j] == b[j];
    }
    forall i | 0 <= i < |b| ensures !Has(a, b[i].id) {
      forall j | 0 <= j < |a| ensures a[j].id != b[i].id {
        assert (a + b)[j] == a[j] && (a + b)[|a| + i] == b[i];
      }
    }
  }

  lemma StepKeepsAgent(cfg: Config, s: State, step: Step)
    requires DeliveryOk(s) && AgentOk(s) && Enabled(cfg, s, step)
    ensures AgentOk(Next(cfg, s, step))
  {
    hide Oldest, ClaimsOf, Runs, NextReport, HasTold, DeliveryOk, Has, DistinctIds, DistinctNats, AcceptAll;
    if step.Take? { TakeKeepsAgent(cfg, s); }
    if step.PollRespond? { RespondKeepsAgent(cfg, s, step.lost); }
  }

  // ------------------------------------------------- what leaves leaves in order

  /** The rows are created in the order in which they are issued. */
  predicate InOrder(steps: seq<Step>, last: int) {
    steps == [] ||
    (if steps[0].Create? then last <= steps[0].issued && InOrder(steps[1..], steps[0].issued)
     else InOrder(steps[1..], last))
  }

  ghost predicate Ascending(rows: map<Id, Row>, cs: seq<Claim>) {
    forall i, j :: 0 <= i < j < |cs| ==> Issued(rows, cs[i].id) <= Issued(rows, cs[j].id)
  }

  /** No command in `cs` was issued later than a queued one outside `batch`. */
  ghost predicate Before(rows: map<Id, Row>, cs: seq<Claim>, batch: seq<Claim>) {
    forall i, q :: 0 <= i < |cs| && IsQueued(rows, q) && !Has(batch, q) ==>
      Issued(rows, cs[i].id) <= Issued(rows, q)
  }

  /** What has left is in order and before everything queued; a batch that has
      been read is in order and before everything else queued. */
  ghost predicate OrderOk(s: State, last: int) {
    && (forall id :: id in s.rows ==> s.rows[id].issued <= last)
    && Ascending(s.rows, Left(s)) && Before(s.rows, Left(s), [])
    && (s.poll.Read? ==> Ascending(s.rows, s.poll.batch) && Before(s.rows, s.poll.batch, s.poll.batch))
  }

  /** The poll is where it was and nobody has joined the queue. */
  lemma OrderFrame(s: State, u: State, last: int)
    requires OrderOk(s, last) && Left(u) == Left(s)
    requires u.poll.Read? ==> u.poll == s.poll
    requires forall id :: Issued(u.rows, id) == Issued(s.rows, id)
    requires u.rows.Keys == s.rows.Keys
    requires forall id :: IsQueued(u.rows, id) ==> IsQueued(s.rows, id)
    ensures OrderOk(u, last)
  {
    hide Left, Has;
    forall id | id in u.rows ensures u.rows[id].issued <= last {
      assert Issued(u.rows, id) == Issued(s.rows, id);
    }
  }

  lemma CreateKeepsOrder(cfg: Config, s: State, step: Step, last: int)
    requires DeliveryOk(s) && OrderOk(s, last) && step.Create? && Enabled(cfg, s, step)
    requires last <= step.issued
    ensures OrderOk(Next(cfg, s, step), step.issued)
  {
    hide Has;
    var u := Next(cfg, s, step);
    assert Left(u) == Left(s);
    forall i | 0 <= i < |Left(s)| ensures Left(s)[i].id in s.rows {
      HasItem(Left(s), i);
    }
  }

  lemma ReadKeepsOrder(cfg: Config, s: State, found: seq<Id>, last: int)
    requires OrderOk(s, last) && Enabled(cfg, s, PollRead(found))
    ensures OrderOk(Next(cfg, s, PollRead(found)), last)
  {
    var u := Next(cfg, s, PollRead(found));
    var b := u.poll.batch;
    assert Left(u) == Left(s);
    FoundAreClaimed(s.rows, found);
  }

  lemma FoundAreClaimed(rows: map<Id, Row>, found: seq<Id>)
    requires forall i :: 0 <= i < |found| ==> found[i] in rows
    ensures forall q :: q in found ==> Has(ClaimsOf(rows, found), q)
  {
    forall q | q in found ensures Has(ClaimsOf(rows, found), q) {
      var i :| 0 <= i < |found| && found[i] == q;
      assert ClaimsOf(rows, found)[i].id == q;
    }
  }

  lemma UpdateKeepsOrder(cfg: Config, s: State, last: int)
    requires DeliveryOk(s) && OrderOk(s, last) && s.poll.Read?
    ensures OrderOk(Next(cfg, s, PollUpdate), last)
  {
    hide Has;
    var u, b := Next(cfg, s, PollUpdate), s.poll.batch;
    assert Left(s) == s.handed && Left(u) == s.handed + b;
    assert forall id :: Issued(u.rows, id) == Issued(s.rows, id);
    assert forall id :: IsQueued(u.rows, id) ==> IsQueued(s.rows, id) && !Has(b, id);
    assert forall q :: !Has([], q) by { NothingHas(); }
  }

  lemma NothingHas()
    ensures forall q :: !Has([], q)
  {}

  lemma StepKeepsOrder(cfg: Config, s: State, step: Step, last: int)
    requires DeliveryOk(s) && OrderOk(s, last) && Enabled(cfg, s, step)
    requires step.Create? ==> last <= step.issued
    ensures OrderOk(Next(cfg, s, step), if step.Create? then step.issued else last)
  {
    hide Oldest, ClaimsOf, Runs, NextReport, HasTold, DeliveryOk, OrderOk, Has, AcceptAll, IsQueued, Issued;
    var u := Next(cfg, s, step);
    match step
    case Create(_, _, _, _) => CreateKeepsOrder(cfg, s, step, last);
    case PollRead(found) => ReadKeepsOrder(cfg, s, found, last);
    case PollUpdate => UpdateKeepsOrder(cfg, s, last);
    case PollRespond(lost) =>
      assert Left(u) == Left(s);
      OrderFrame(s, u, last);
    case Report(id, status, lost) =>
      ReportIsNotQueued(s, step);
      StatusIsNotTime(s.rows, id, status);
      OrderFrame(s, u, last);
    case LateReport(id, status) =>
      LateIsNotQueued(s, step);
      StatusIsNotTime(s.rows, id, status);
      OrderFrame(s, u, last);
    case Sign(id) =>
      SignatureIsNotTime(cfg, s.rows, id);
      OrderFrame(s, u, last);
    case Take => OrderFrame(s, u, last);
  }

  lemma StatusIsNotTime(rows: map<Id, Row>, id: Id, status: Status)
    requires id in rows && status != Queued
    ensures var u := rows[id := rows[id].(status := status)];
      forall x :: Issued(u, x) == Issued(rows, x) && (IsQueued(u, x) ==> IsQueued(rows, x))
  {}

  lemma SignatureIsNotTime(cfg: Config, rows: map<Id, Row>, id: Id)
    requires id in rows
    ensures var u := rows[id := SignRow(cfg, rows[id])];
      forall x :: Issued(u, x) == Issued(rows, x) && (IsQueued(u, x) <==> IsQueued(rows, x))
  {}

  // ------------------------------------------------ only signed commands are run

  /** A signature is the empty one of a fresh row or the one made for the command. */
  predicate SignatureOk(cfg: Config, row: Row, signature: string) {
    signature == "" || signature == Signing.SignCommand(cfg.mac, row.command, cfg.key)
  }

  ghost predicate ClaimsOk(cfg: Config, rows: map<Id, Row>, cs: seq<Claim>) {
    forall i :: 0 <= i < |cs| ==> cs[i].id in rows && SignatureOk(cfg, rows[cs[i].id], cs[i].signature)
  }

  ghost predicate RowsOk(cfg: Config, rows: map<Id, Row>) {
    forall id :: id in rows ==>
      && Signing.Signable(rows[id].command) && Signing.StoredAs(rows[id].command.payload, rows[id].stored)
      && SignatureOk(cfg, rows[id], rows[id].signature)
  }

  predicate Decides(cfg: Config, s: State, c: Claim)
    requires c.id in s.rows
  {
    c.id in s.executed <==> Runs(cfg, ReadOf(cfg, s.rows[c.id], c.signature))
  }

  function Batch(p: Poll): seq<Claim> { if p.Idle? then [] else p.batch }

  ghost predicate SignedOk(cfg: Config, s: State) {
    && RowsOk(cfg, s.rows)
    && ClaimsOk(cfg, s.rows, Batch(s.poll)) && ClaimsOk(cfg, s.rows, s.received)
    && s.taken <= |s.received|
    && (forall i :: 0 <= i < s.taken ==> Decides(cfg, s, s.received[i]))
  }

  /** Steps change a row's status and signature, never the command. */
  predicate SameCommands(rows: map<Id, Row>, rows': map<Id, Row>) {
    forall id :: id in rows ==>
      id in rows' && rows'[id].command == rows[id].command && rows'[id].stored == rows[id].stored
  }

  lemma StepKeepsCommands(cfg: Config, s: State, step: Step)
    requires Enabled(cfg, s, step)
    ensures SameCommands(s.rows, Next(cfg, s, step).rows)
  {
    hide Oldest, ClaimsOf, Runs, NextReport, HasTold, Has;
  }

  lemma ClaimsFollow(cfg: Config, rows: map<Id, Row>, rows': map<Id, Row>, cs: seq<Claim>)
    requires ClaimsOk(cfg, rows, cs) && SameCommands(rows, rows')
    ensures ClaimsOk(cfg, rows', cs)
  {}

  lemma StepKeepsRows(cfg: Config, s: State, step: Step)
    requires RowsOk(cfg, s.rows) && Enabled(cfg, s, step)
    ensures RowsOk(cfg, Next(cfg, s, step).rows)
  {
    hide Oldest, ClaimsOf, Runs, NextReport, HasTold, Has, Signing.Signable, Signing.StoredAs, Signing.SignCommand;
  }

  lemma DecisionsFollow(cfg: Config, s: State, u: State)
    requires SignedOk(cfg, s) && SameCommands(s.rows, u.rows)
    requires u.executed == s.executed && u.taken == s.taken
    requires |u.received| >= |s.received| && u.received[..|s.received|] == s.received
    ensures forall i :: 0 <= i < u.taken ==> u.received[i].id in u.rows && Decides(cfg, u, u.received[i])
  {
    hide Runs;
    forall i | 0 <= i < u.taken ensures u.received[i].id in u.rows && Decides(cfg, u, u.received[i]) {
      assert u.received[i] == u.received[..|s.received|][i];
      var id := s.received[i].id;
      assert id in s.rows && Decides(cfg, s, s.received[i]);
      assert RawOf(u.rows[id], s.received[i].signature) == RawOf(s.rows[id], s.received[i].signature);
      assert ReadOf(cfg, u.rows[id], s.received[i].signature) == ReadOf(cfg, s.rows[id], s.received[i].signature);
    }
  }

  lemma TakeKeepsSigned(cfg: Config, s: State)
    requires AgentOk(s) && SignedOk(cfg, s) && Enabled(cfg, s, Take)
    ensures SignedOk(cfg, Next(cfg, s, Take))
  {
    hide Runs, RowsOk, Has, SignatureOk;
    var u, c := Next(cfg, s, Take), s.received[s.taken];
    NotYet(s.received, s.taken);
    forall i | 0 <= i < u.taken ensures Decides(cfg, u, u.received[i]) {
      if i < s.taken {
        assert Decides(cfg, s, s.received[i]);
        assert s.received[i].id != c.id;
      }
    }
  }

  lemma StepKeepsSigned(cfg: Config, s: State, step: Step)
    requires AgentOk(s) && SignedOk(cfg, s) && Enabled(cfg, s, step)
    ensures SignedOk(cfg, Next(cfg, s, step))
  {
    hide Runs, RowsOk, ClaimsOk, Has, AcceptAll, Oldest, ClaimsOf, NextReport, HasTold, Decides, RawOf, SignRow, AgentOk,
      SameCommands;
    var u := Next(cfg, s, step);
    StepKeepsCommands(cfg, s, step);
    StepKeepsRows(cfg, s, step);
    ClaimsFollow(cfg, s.rows, u.rows, Batch(s.poll));
    ClaimsFollow(cfg, s.rows, u.rows, s.received);
    NoClaims(cfg, u.rows);
    if step.Take? {
      TakeKeepsSigned(cfg, s);
    } else {
      if step.PollRead? { ReadClaimsOk(cfg, s.rows, step.found); }
      if step.PollRespond? { MoreClaims(cfg, u.rows, s.received, s.poll.batch); }
      assert u.received[..|s.received|] == s.received;
      DecisionsFollow(cfg, s, u);
    }
  }

  lemma NoClaims(cfg: Config, rows: map<Id, Row>)
    ensures ClaimsOk(cfg, rows, [])
  {}

  lemma MoreClaims(cfg: Config, rows: map<Id, Row>, a: seq<Claim>, b: seq<Claim>)
    requires ClaimsOk(cfg, rows, a) && ClaimsOk(cfg, rows, b)
    ensures ClaimsOk(cfg, rows, a + b)
  {}

  lemma ReadClaimsOk(cfg: Config, rows: map<Id, Row>, found: seq<Id>)
    requires RowsOk(cfg, rows) && Oldest(rows, found)
    ensures (forall i :: 0 <= i < |found| ==> found[i] in rows) && ClaimsOk(cfg, rows, ClaimsOf(rows, found))
  {
    assert forall i :: 0 <= i < |found| ==> IsQueued(rows, found[i]);
  }

  // -------------------------------------------------------- the status of a row

  function Rank(s: Status): nat {
    match s
    case Queued => 0
    case Accepted => 1
    case Running => 2
    case _ => 3
  }

  /** A row never runs ahead of what the agent has told, and shows how the command
      ended only as the agent told it. */
  predicate Follows(status: Status, told: Option<Status>) {
    && Rank(status) <= (if told.Some? then Rank(told.value) else 1)
    && told != Some(Queued)
    && (Terminal(status) ==> told == Some(status))
  }

  ghost predicate StatusOk(s: State) {
    && (forall id :: id in s.rows ==> Follows(s.rows[id].status, Find(s.told, id)))
    && (forall id :: id in s.told ==> id in s.executed || id in s.rejected)
  }

  /** A step's effect on one row: its status follows; and if it shows the end, only
      a late report of something earlier changes it. */
  predicate StatusGoesOn(s: State, step: Step, u: State, id: Id) {
    && (id in u.rows ==> Follows(u.rows[id].status, Find(u.told, id)))
    && (id in s.rows && Terminal(s.rows[id].status) ==>
          && id in u.rows
          && (u.rows[id].status != s.rows[id].status <==>
                step.LateReport? && step.id == id && step.status != s.rows[id].status))
  }

  lemma RowKeepsStatus(cfg: Config, s: State, step: Step, id: Id)
    requires DeliveryOk(s) && AgentOk(s) && StatusOk(s) && Enabled(cfg, s, step)
    ensures StatusGoesOn(s, step, Next(cfg, s, step), id)
  {
    hide Oldest, ClaimsOf, Runs, NextReport, HasTold, Has, DeliveryOk, AgentOk;
    if step.Create? && step.id in s.told { FreshIsUntold(s, step.id); }
    if step.Report? && id == step.id { ReportFits(s, step); }
    if step.LateReport? && id == step.id { LateReportFits(s, step); }
  }

  lemma LateReportFits(s: State, step: Step)
    requires step.LateReport? && HasTold(step.id in s.executed, Find(s.told, step.id), step.status)
    requires Find(s.told, step.id) != Some(Queued)
    ensures Follows(step.status, Find(s.told, step.id))
  {}

  lemma FreshIsUntold(s: State, id: Id)
    requires DeliveryOk(s) && AgentOk(s) && (id in s.executed || id in s.rejected)
    ensures id in s.rows
  {
    ReportedHasLeft(s, id);
  }

  lemma ReportFits(s: State, step: Step)
    requires step.Report? && NextReport(step.id in s.executed, Find(s.told, step.id), step.status)
    ensures step.id in s.told ==>
      Rank(s.told[step.id]) < Rank(step.status) && !Terminal(s.told[step.id])
    ensures step.id !in s.told ==> step.status == Accepted || step.status == Failed
    ensures step.status != Queued
  {}

  lemma StepKeepsStatus(cfg: Config, s: State, step: Step)
    requires DeliveryOk(s) && AgentOk(s) && StatusOk(s) && Enabled(cfg, s, step)
    ensures StatusOk(Next(cfg, s, step))
  {
    hide DeliveryOk, AgentOk, Follows, StatusOk, Next;
    var u := Next(cfg, s, step);
    forall id ensures StatusGoesOn(s, step, u, id) {
      RowKeepsStatus(cfg, s, step, id);
    }
    ToldByAgent(cfg, s, step);
    assert StatusOk(u) by { FromRows(s, step, u); }
  }

  lemma FromRows(s: State, step: Step, u: State)
    requires forall id :: StatusGoesOn(s, step, u, id)
    requires forall id :: id in u.told ==> id in u.executed || id in u.rejected
    ensures StatusOk(u)
  {
    hide Follows;
    forall id | id in u.rows ensures Follows(u.rows[id].status, Find(u.told, id)) {
      assert StatusGoesOn(s, step, u, id);
    }
  }

  lemma ToldByAgent(cfg: Config, s: State, step: Step)
    requires StatusOk(s) && Enabled(cfg, s, step)
    ensures var u := Next(cfg, s, step);
      forall id :: id in u.told ==> id in u.executed || id in u.rejected
  {
    hide Oldest, ClaimsOf, Runs, NextReport, HasTold, Has, AcceptAll, Follows;
  }

  // ------------------------------------------------------------ over all runs

  ghost predicate Safe(cfg: Config, s: State) {
    DeliveryOk(s) && AgentOk(s) && SignedOk(cfg, s) && StatusOk(s)
  }

  lemma StepKeepsSafe(cfg: Config, s: State, step: Step)
    requires Safe(cfg, s) && Enabled(cfg, s, step)
    ensures Safe(cfg, Next(cfg, s, step))
  {
    hide DeliveryOk, AgentOk, SignedOk, StatusOk, Enabled, Next;
    StepKeepsDelivery(cfg, s, step);
    StepKeepsAgent(cfg, s, step);
    StepKeepsSigned(cfg, s, step);
    StepKeepsStatus(cfg, s, step);
  }

  lemma {:induction false} RunIsSafe(cfg: Config, s: State, steps: seq<Step>)
    requires Safe(cfg, s)
    ensures Safe(cfg, Exec(cfg, s, steps))
    decreases |steps|
  {
    hide Safe, Enabled, Next;
    if steps != [] {
      if Enabled(cfg, s, steps[0]) { StepKeepsSafe(cfg, s, steps[0]); }
      RunIsSafe(cfg, if Enabled(cfg, s, steps[0]) then Next(cfg, s, steps[0]) else s, steps[1..]);
    }
  }

  lemma {:induction false} RunIsOrdered(cfg: Config, s: State, steps: seq<Step>, last: int) returns (end: int)
    requires Safe(cfg, s) && OrderOk(s, last) && InOrder(steps, last)
    ensures OrderOk(Exec(cfg, s, steps), end)
    decreases |steps|
  {
    hide DeliveryOk, AgentOk, SignedOk, StatusOk, Enabled, Next, OrderOk;
    if steps == [] {
      end := last;
    } else {
      var now := if steps[0].Create? then steps[0].issued else last;
      if Enabled(cfg, s, steps[0]) {
        StepKeepsSafe(cfg, s, steps[0]);
        StepKeepsOrder(cfg, s, steps[0], last);
        end := RunIsOrdered(cfg, Next(cfg, s, steps[0]), steps[1..], now);
      } else {
        OrderLater(s, last, now);
        end := RunIsOrdered(cfg, s, steps[1..], now);
      }
    }
  }

  lemma OrderLater(s: State, last: int, now: int)
    requires OrderOk(s, last) && last <= now
    ensures OrderOk(s, now)
  {}

  lemma InitiallySafe(cfg: Config)
    ensures Safe(cfg, INIT)
  {
    hide Runs, SignatureOk, Follows, Signing.Signable, Signing.StoredAs;
    assert Left(INIT) == [] && INIT.received == [];
  }

  lemma InitiallyOrdered(last: int)
    ensures OrderOk(INIT, last)
  {
    assert Left(INIT) == [];
  }

  /** In every reachable state a created command is queued or has left the queue,
      not both; each has left once, each has been received once, and each has been
      executed or rejected at most once, only after it was handed out. */
  lemma HandedOutOnce(cfg: Config, steps: seq<Step>)
    ensures var s := Exec(cfg, INIT, steps);
      && DistinctIds(s.handed + InFlight(s)) && DistinctIds(s.received)
      && (forall id :: id in s.rows <==> IsQueued(s.rows, id) || Has(s.handed + InFlight(s), id))
      && (forall id :: !(IsQueued(s.rows, id) && Has(s.handed + InFlight(s), id)))
      && DistinctNats(s.executed + s.rejected)
      && (forall id :: id in s.executed + s.rejected ==> Has(s.handed, id))
  {
    hide Exec, SignedOk, StatusOk;
    InitiallySafe(cfg);
    RunIsSafe(cfg, INIT, steps);
    var s := Exec(cfg, INIT, steps);
    forall id | id in s.executed + s.rejected ensures Has(s.handed, id) { ReportedHasLeft(s, id); }
    forall i, j | 0 <= i < j < |s.executed + s.rejected|
      ensures (s.executed + s.rejected)[i] != (s.executed + s.rejected)[j]
    {
      if i < |s.executed| <= j { assert s.executed[i] in s.executed; }
    }
  }

  /** Commands created in the order they are issued are handed out in that order,
      over the whole run. */
  lemma HandedOutInOrder(cfg: Config, steps: seq<Step>, start: int)
    requires InOrder(steps, start)
    ensures var s := Exec(cfg, INIT, steps); Ascending(s.rows, s.handed)
  {
    hide Exec, Safe, Issued;
    InitiallySafe(cfg);
    InitiallyOrdered(start);
    var end := RunIsOrdered(cfg, INIT, steps, start);
    var s := Exec(cfg, INIT, steps);
    forall i, j | 0 <= i < j < |s.handed|
      ensures Issued(s.rows, s.handed[i].id) <= Issued(s.rows, s.handed[j].id)
    {
      assert Left(s)[i] == s.handed[i] && Left(s)[j] == s.handed[j];
    }
  }

  /** The run's rows carry what was created; so a handed-out envelope says what
      its command says. */
  lemma RawCarries(row: Row, signature: string)
    requires Signing.StoredAs(row.command.payload, row.stored)
    ensures Signing.Carries(RawOf(row, signature), row.command, signature)
  {
    hide Signing.StoredAs;
    var raw := RawOf(row, signature);
    Lookups(row, signature);
    assert Signing.SignableFromRaw(raw)
      == Some(Signing.FiveFields(Str(row.command.id), Str(row.command.nodeId), row.stored,
                                 Int(row.command.timeoutMs), Str(row.command.issuedAt)));
  }

  lemma Lookups(row: Row, signature: string)
    ensures var fs := RawOf(row, signature).fields;
      && Lookup(fs, "id") == Some(Str(row.command.id))
      && Lookup(fs, "nodeId") == Some(Str(row.command.nodeId))
      && Lookup(fs, "payload") == Some(row.stored)
      && Lookup(fs, "timeoutMs") == Some(Int(row.command.timeoutMs))
      && Lookup(fs, "issuedAt") == Some(Str(row.command.issuedAt))
      && Lookup(fs, "signature") == Some(Str(signature))
  {
    var fs := RawOf(row, signature).fields;
    FieldAt(fs, 0);
    FieldAt(fs, 1);
    FieldAt(fs, 2);
    FieldAt(fs, 3);
    FieldAt(fs, 4);
    FieldAt(fs, 5);
  }

  lemma FieldAt(fs: seq<Field>, i: nat)
    requires i < |fs| && forall j :: 0 <= j < i ==> fs[j].key != fs[i].key
    ensures Lookup(fs, fs[i].key) == Some(fs[i].value)
  {}

  /** Of the commands the agent has looked at, it executes exactly those that the
      poll read after they were signed, that the two languages write alike, and that
      decode: one read between its insertion and its signature is never run. */
  lemma ExecutedExactly(cfg: Config, steps: seq<Step>, i: nat)
    requires forall key, text :: cfg.mac(key, text) != []
    requires Signing.HexDecode(cfg.key).Some? && Signing.CollisionFree(cfg.mac, Signing.HexDecode(cfg.key).value)
    requires ParsedNumbers.WritesFloats(cfg.float) && i < Exec(cfg, INIT, steps).taken
    ensures var s := Exec(cfg, INIT, steps);
      i < |s.received| && s.received[i].id in s.rows &&
      var c := s.received[i];
      var row := s.rows[c.id];
      c.id in s.executed <==>
        && c.signature != ""
        && Signing.Agreed(cfg.float, row.command)
        && cfg.decodes(ReadOf(cfg, row, c.signature))
  {
    hide Exec, DeliveryOk, AgentOk, StatusOk, RawOf, Signing.VerifyCommand, Signing.SignCommand, Signing.HexDecode,
      Signing.Signable, Signing.StoredAs, Signing.Carries, Signing.CollisionFree, Signing.SignatureOf,
      Signing.Agreed, ParsedNumbers.WritesFloats;
    InitiallySafe(cfg);
    RunIsSafe(cfg, INIT, steps);
    var s := Exec(cfg, INIT, steps);
    var c := s.received[i];
    var row := s.rows[c.id];
    assert Decides(cfg, s, c) && SignatureOk(cfg, row, c.signature);
    RawCarries(row, c.signature);
    if c.signature == "" {
      CarriedSignature(row, c.signature);
      Signing.FieldsParsed(cfg.float, RawOf(row, c.signature));
      Signing.UnsignedIsRejected(cfg.mac, cfg.key, ReadOf(cfg, row, c.signature));
    } else {
      Signing.AcceptedExactly(cfg.mac, cfg.float, row.command, cfg.key, RawOf(row, c.signature));
    }
  }

  lemma CarriedSignature(row: Row, signature: string)
    ensures Signing.SignatureOf(RawOf(row, signature)) == Some(signature)
  {
    Lookups(row, signature);
  }

  /** A row that shows how its command ended changes exactly when a report that timed
      out and was sent again lands late, with something the agent had told earlier. */
  lemma EndedLeavesExactly(cfg: Config, steps: seq<Step>, step: Step, id: Id)
    requires var s := Exec(cfg, INIT, steps);
      Enabled(cfg, s, step) && id in s.rows && Terminal(s.rows[id].status)
    ensures var s := Exec(cfg, INIT, steps);
      && id in Next(cfg, s, step).rows
      && (Next(cfg, s, step).rows[id].status != s.rows[id].status <==>
            step.LateReport? && step.id == id && step.status != s.rows[id].status)
  {
    hide Exec, DeliveryOk, AgentOk, SignedOk, StatusOk, Enabled, Next;
    InitiallySafe(cfg);
    RunIsSafe(cfg, INIT, steps);
    RowKeepsStatus(cfg, Exec(cfg, INIT, steps), step, id);
  }

  // --------------------------------------------------------------- the code

  /** The command table as the API's routes and services use it. */
  class CommandTable {
    var rows: map<Id, Row>

    /** `createCommand`: insert as queued without a signature, then sign. */
    method CreateCommand(cfg: Config, id: Id, command: Signing.Command, stored: Json, issued: int)
      requires id !in rows
      modifies this
      ensures rows == old(rows)[id := SignRow(cfg, Row(command, stored, issued, Queued, ""))]
    {
      rows := rows[id := Row(command, stored, issued, Queued, "")];
      var signature := Signing.SignCommand(cfg.mac, command, cfg.key);
      rows := rows[id := rows[id].(signature := signature)];
    }

    /** `claimCommands`, given what its query found: the answer holds the rows as
        they were read, and whatever of them is still queued is accepted. */
    method ClaimCommands(found: seq<Id>) returns (claims: seq<Claim>)
      requires Oldest(rows, found)
      modifies this
      ensures claims == ClaimsOf(old(rows), found)
      ensures rows == AcceptAll(old(rows), claims)
      ensures rows.Keys == old(rows).Keys
      ensures forall id :: id in rows ==>
        rows[id] == if id in found then old(rows)[id].(status := Accepted) else old(rows)[id]
    {
      claims := [];
      for i := 0 to |found|
        invariant |claims| == i && rows == old(rows)
        invariant forall j :: 0 <= j < i ==> found[j] in rows && claims[j] == Claim(found[j], rows[found[j]].signature)
      {
        assert IsQueued(rows, found[i]);
        claims := claims + [Claim(found[i], rows[found[i]].signature)];
      }
      rows := AcceptAll(rows, claims);
      assert forall id :: Has(claims, id) <==> id in found;
    }
  }

  /** The two ways a received command goes: to the executor, or back as rejected. */
  function Executions(cfg: Config, raws: seq<Json>): seq<Json> {
    if raws == [] then []
    else
      var last := raws[|raws| - 1];
      Executions(cfg, raws[..|raws| - 1]) + (if Runs(cfg, last) then [last] else [])
  }

  /** The id a rejection is reported under. */
  function ReportedId(raw: Json): string {
    if raw.Obj? && Lookup(raw.fields, "id").Some? && Lookup(raw.fields, "id").value.Str? then
      Lookup(raw.fields, "id").value.s
    else "<unknown>"
  }

  function Rejections(cfg: Config, raws: seq<Json>): seq<string> {
    if raws == [] then []
    else
      var last := raws[|raws| - 1];
      Rejections(cfg, raws[..|raws| - 1]) + (if Runs(cfg, last) then [] else [ReportedId(last)])
  }

  /** The `i`-th command of the answer runs, or does not. */
  predicate Goes(cfg: Config, raws: seq<Json>, i: nat, ran: bool) { i < |raws| && Runs(cfg, raws[i]) == ran }

  predicate Rising(at: seq<nat>, n: nat) {
    (forall k :: 0 <= k < |at| ==> at[k] < n) && (forall j, k :: 0 <= j < k < |at| ==> at[j] < at[k])
  }

  /** The places in the answer of the commands that run, or of those that do not, from
      front to back. */
  ghost predicate Places(cfg: Config, raws: seq<Json>, at: seq<nat>, ran: bool) {
    Rising(at, |raws|) && forall i: nat :: i in at <==> Goes(cfg, raws, i, ran)
  }

  /** Where the object's own `id` stands. */
  predicate IdStands(raw: Json, i: nat) {
    && raw.Obj? && i < |raw.fields| && raw.fields[i].key == "id"
    && forall j :: 0 <= j < i ==> raw.fields[j].key != "id"
  }

  /** A rejection goes under the envelope's own id if that is a text, and under a
      stand-in if the envelope is no object, has no id, or one that is not a text. */
  ghost predicate GoesUnder(raw: Json, id: string) {
    || (exists i: nat :: IdStands(raw, i) && raw.fields[i].value == Str(id))
    || (id == "<unknown>" && forall i: nat :: IdStands(raw, i) ==> !raw.fields[i].value.Str?)
  }

  lemma ReportedUnderItsId(raw: Json)
    ensures GoesUnder(raw, ReportedId(raw))
    ensures forall id :: GoesUnder(raw, id) ==> id == ReportedId(raw)
  {
    if raw.Obj? {
      var k := IndexOfKey(raw.fields, "id");
      assert k < |raw.fields| ==> IdStands(raw, k);
      assert forall i: nat :: IdStands(raw, i) ==> i == k;
    }
  }

  /** For what the poll answered: rejected are exactly the commands that do not run,
      in the order of the answer, each under the id of its own row. */
  lemma RejectedUnderRowIds(cfg: Config, rows: seq<Row>, signatures: seq<string>, raws: seq<Json>)
      returns (at: seq<nat>)
    requires |rows| == |signatures| == |raws|
    requires forall i :: 0 <= i < |raws| ==> raws[i] == ReadOf(cfg, rows[i], signatures[i])
    ensures Places(cfg, raws, at, false)
    ensures |Rejections(cfg, raws)| == |at|
    ensures forall k :: 0 <= k < |at| ==> Rejections(cfg, raws)[k] == rows[at[k]].command.id
  {
    hide Runs, ReadOf, GoesUnder, ReportedId;
    var _, rejected := DispatchedInOrder(cfg, raws);
    at := rejected;
    forall k | 0 <= k < |at| ensures Rejections(cfg, raws)[k] == rows[at[k]].command.id {
      IdIsRead(cfg, rows[at[k]], signatures[at[k]]);
      ReportedUnderItsId(raws[at[k]]);
    }
  }

  lemma IdIsRead(cfg: Config, row: Row, signature: string)
    ensures GoesUnder(ReadOf(cfg, row, signature), row.command.id)
  {
    var raw, f := RawOf(row, signature), ParsedNumbers.Reader(cfg.float);
    ParsedNumbers.OnNumbersUnfolds(f, raw);
    ParsedNumbers.OnNumbersUnfolds(f, Str(row.command.id));
    assert IdStands(ReadOf(cfg, row, signature), 0);
  }

  lemma PlacesGrow(cfg: Config, raws: seq<Json>, at: seq<nat>, ran: bool)
    requires raws != [] && Places(cfg, raws[..|raws| - 1], at, ran)
    ensures var n: nat := |raws| - 1; Places(cfg, raws, if Goes(cfg, raws, n, ran) then at + [n] else at, ran)
  {
    hide Goes, Rising;
    var n: nat := |raws| - 1;
    forall i: nat ensures Goes(cfg, raws[..n], i, ran) <==> i < n && Goes(cfg, raws, i, ran)
      ensures Goes(cfg, raws, i, ran) ==> i <= n
    {
      GoesBefore(cfg, raws, i, ran);
    }
    RisingGrows(at, n);
  }

  lemma RisingGrows(at: seq<nat>, n: nat)
    requires Rising(at, n)
    ensures Rising(at, n + 1) && Rising(at + [n], n + 1)
  {}

  lemma GoesBefore(cfg: Config, raws: seq<Json>, i: nat, ran: bool)
    requires raws != []
    ensures Goes(cfg, raws[..|raws| - 1], i, ran) <==> i < |raws| - 1 && Goes(cfg, raws, i, ran)
    ensures Goes(cfg, raws, i, ran) ==> i < |raws|
  {}

  lemma {:induction false} DispatchedInOrder(cfg: Config, raws: seq<Json>) returns (ran: seq<nat>, refused: seq<nat>)
    ensures Places(cfg, raws, ran, true) && Places(cfg, raws, refused, false)
    ensures |Executions(cfg, raws)| == |ran|
    ensures forall k :: 0 <= k < |ran| ==> Executions(cfg, raws)[k] == raws[ran[k]]
    ensures |Rejections(cfg, raws)| == |refused|
    ensures forall k :: 0 <= k < |refused| ==> GoesUnder(raws[refused[k]], Rejections(cfg, raws)[k])
  {
    hide Runs, GoesUnder, ReportedId, Places;
    if raws == [] {
      ran, refused := [], [];
      NoPlaces(cfg, true);
      NoPlaces(cfg, false);
    } else {
      var n := |raws| - 1;
      ran, refused := DispatchedInOrder(cfg, raws[..n]);
      ReportedUnderItsId(raws[n]);
      InRange(cfg, raws[..n], ran, true);
      InRange(cfg, raws[..n], refused, false);
      PlacesGrow(cfg, raws, ran, true);
      PlacesGrow(cfg, raws, refused, false);
      if Runs(cfg, raws[n]) { ran := ran + [n]; } else { refused := refused + [n]; }
    }
  }

  lemma InRange(cfg: Config, raws: seq<Json>, at: seq<nat>, ran: bool)
    requires Places(cfg, raws, at, ran)
    ensures forall k :: 0 <= k < |at| ==> at[k] < |raws|
  {}

  lemma NoPlaces(cfg: Config, ran: bool)
    ensures Places(cfg, [], [], ran)
  {}

  /** `poll_and_execute`, after the poll: what was verified and decoded runs, in the
      order received, and everything else goes back as rejected, in that order too. */
  method PollAndExecute(cfg: Config, raws: seq<Json>) returns (executed: seq<Json>, rejected: seq<string>)
    ensures executed == Executions(cfg, raws)
    ensures rejected == Rejections(cfg, raws)
    ensures exists at :: Places(cfg, raws, at, true) && |executed| == |at|
              && forall k :: 0 <= k < |at| ==> executed[k] == raws[at[k]]
    ensures exists at :: Places(cfg, raws, at, false) && |rejected| == |at|
              && forall k :: 0 <= k < |at| ==> GoesUnder(raws[at[k]], rejected[k])
  {
    hide Signing.VerifyCommand, ReportedId, Places, GoesUnder;
    executed, rejected := [], [];
    for i := 0 to |raws|
      invariant executed == Executions(cfg, raws[..i]) && rejected == Rejections(cfg, raws[..i])
    {
      var raw := raws[i];
      assert raws[..i + 1][..i] == raws[..i] && raws[..i + 1][i] == raw;
      if Signing.VerifyCommand(cfg.mac, raw, cfg.key) != Signing.Accepted {
        rejected := rejected + [ReportedId(raw)];
        continue;
      }
      if !cfg.decodes(raw) {
        rejected := rejected + [ReportedId(raw)];
        continue;
      }
      executed := executed + [raw];
    }
    assert raws[..|raws|] == raws;
    ghost var ran, refused := DispatchedInOrder(cfg, raws);
  }
}
