/** Polls that overlap. */
module OverlappingPolls {
  // Any number of polls of one node, whose reads and updates interleave freely: two
  // answers share a command only if neither read came after the other's update.

  import opened Options
  import opened Json
  import opened CommandDelivery
  import Signing

  type PollId = nat

  /** What a poll has read, what was queued then, when it read and when it updated,
      and whether its answer is out. */
  datatype Answer = Answer(
    batch: seq<Claim>, queued: set<Id>, readAt: nat, updatedAt: Option<nat>, out: bool)

  function QueuedIds(rows: map<Id, Row>): set<Id> { set id | id in rows && rows[id].status == Queued }

  datatype HandOut = HandOut(poll: PollId, claim: Claim)

  datatype Polls = Polls(rows: map<Id, Row>, answers: map<PollId, Answer>, handed: seq<HandOut>, now: nat)

  const START := Polls(map[], map[], [], 0)

  datatype PollStep =
    | InsertRow(id: Id, row: Row)
    | SignIt(id: Id, signature: string)
    | ReportIt(id: Id, status: Status)
    | ReadQueue(p: PollId, found: seq<Id>)
    | UpdateRows(p: PollId)
    | Respond(p: PollId)

  ghost predicate CanStep(s: Polls, step: PollStep) {
    match step
    case InsertRow(id, row) => id !in s.rows && row.status == Queued
    case SignIt(id, _) => id in s.rows
    case ReportIt(id, status) => id in s.rows && s.rows[id].status != Queued && status != Queued
    case ReadQueue(p, found) => p !in s.answers && Oldest(s.rows, found)
    case UpdateRows(p) => p in s.answers && s.answers[p].updatedAt == None
    case Respond(p) => p in s.answers && s.answers[p].updatedAt.Some? && !s.answers[p].out
  }

  function Tagged(p: PollId, batch: seq<Claim>): (r: seq<HandOut>)
    ensures |r| == |batch| && forall i :: 0 <= i < |batch| ==> r[i] == HandOut(p, batch[i])
  {
    if batch == [] then [] else [HandOut(p, batch[0])] + Tagged(p, batch[1..])
  }

  /** The tables after a step, before the clock ticks. */
  ghost function Moved(s: Polls, step: PollStep): Polls
    requires CanStep(s, step)
  {
    match step
    case InsertRow(id, row) => s.(rows := s.rows[id := row])
    case SignIt(id, signature) => s.(rows := s.rows[id := s.rows[id].(signature := signature)])
    case ReportIt(id, status) => s.(rows := s.rows[id := s.rows[id].(status := status)])
    case ReadQueue(p, found) =>
      s.(answers := s.answers[p := Answer(ClaimsOf(s.rows, found), QueuedIds(s.rows), s.now, None, false)])
    case UpdateRows(p) =>
      s.(rows := AcceptAll(s.rows, s.answers[p].batch),
         answers := s.answers[p := s.answers[p].(updatedAt := Some(s.now))])
    case Respond(p) =>
      s.(answers := s.answers[p := s.answers[p].(out := true)],
         handed := s.handed + Tagged(p, s.answers[p].batch))
  }

  ghost function Go(s: Polls, step: PollStep): Polls
    requires CanStep(s, step)
  {
    Moved(s, step).(now := s.now + 1)
  }

  ghost function GoAll(s: Polls, steps: seq<PollStep>): Polls
    decreases |steps|
  {
    if steps == [] then s else GoAll(if CanStep(s, steps[0]) then Go(s, steps[0]) else s, steps[1..])
  }

  // ------------------------------------------------------- sharing needs overlapping

  /** Neither poll read after the other had updated. */
  predicate Overlap(a: Answer, b: Answer) {
    && (a.updatedAt.Some? ==> b.readAt < a.updatedAt.value)
    && (b.updatedAt.Some? ==> a.readAt < b.updatedAt.value)
  }

  ghost predicate Share(a: Answer, b: Answer) { exists id :: Has(a.batch, id) && Has(b.batch, id) }

  predicate AnswerOk(s: Polls, a: Answer) {
    && a.readAt < s.now && (a.updatedAt.Some? ==> a.readAt < a.updatedAt.value < s.now)
    && (a.out ==> a.updatedAt.Some?) && DistinctIds(a.batch)
  }

  /** The rows of a batch exist, and are accepted once the poll has updated. */
  predicate ClaimOk(s: Polls, a: Answer, id: Id) {
    Has(a.batch, id) ==> id in s.rows && (a.updatedAt.Some? ==> s.rows[id].status != Queued)
  }

  predicate PairOk(a: Answer, b: Answer, id: Id) { Has(a.batch, id) && Has(b.batch, id) ==> Overlap(a, b) }

  ghost predicate PollsOk(s: Polls) {
    && (forall p :: p in s.answers ==> AnswerOk(s, s.answers[p]))
    && (forall p, id :: p in s.answers ==> ClaimOk(s, s.answers[p], id))
    && (forall p, q, id :: p in s.answers && q in s.answers && p != q ==> PairOk(s.answers[p], s.answers[q], id))
    && (forall p, q :: p in s.answers && q in s.answers && p != q ==> s.answers[p].readAt != s.answers[q].readAt)
  }

  /** Rows only come, and only leave the queue. */
  ghost predicate RowsGoOn(rows: map<Id, Row>, rows': map<Id, Row>) {
    forall id :: id in rows ==> id in rows' && (rows[id].status != Queued ==> rows'[id].status != Queued)
  }

  lemma RowsMove(s: Polls, step: PollStep)
    requires CanStep(s, step)
    ensures RowsGoOn(s.rows, Go(s, step).rows)
  {
    hide Oldest, ClaimsOf, Has, Tagged;
  }

  lemma SameAnswers(s: Polls, u: Polls)
    requires PollsOk(s) && u.answers == s.answers && u.now >= s.now && RowsGoOn(s.rows, u.rows)
    ensures PollsOk(u)
  {
    hide Has, DistinctIds, PairOk;
    forall p, id | p in u.answers ensures ClaimOk(u, u.answers[p], id) { assert ClaimOk(s, s.answers[p], id); }
    forall p | p in u.answers ensures AnswerOk(u, u.answers[p]) { assert AnswerOk(s, s.answers[p]); }
  }

  lemma ReadKeepsOk(s: Polls, p: PollId, found: seq<Id>)
    requires PollsOk(s) && CanStep(s, ReadQueue(p, found))
    ensures PollsOk(Go(s, ReadQueue(p, found)))
  {
    hide Has, DistinctIds, Oldest, ClaimsOf;
    var u := Go(s, ReadQueue(p, found));
    var mine := u.answers[p];
    FoundIsQueued(s.rows, found);
    forall q, id | q in u.answers ensures ClaimOk(u, u.answers[q], id) {
      if q != p { assert ClaimOk(s, s.answers[q], id); }
    }
    forall q | q in u.answers ensures AnswerOk(u, u.answers[q]) {
      if q != p { assert AnswerOk(s, s.answers[q]); }
    }
    forall q, id | q in s.answers ensures PairOk(s.answers[q], mine, id) && PairOk(mine, s.answers[q], id) {
      assert ClaimOk(s, s.answers[q], id) && AnswerOk(s, s.answers[q]);
    }
    forall q, r, id | q in u.answers && r in u.answers && q != r ensures PairOk(u.answers[q], u.answers[r], id) {
      if q != p && r != p { assert PairOk(s.answers[q], s.answers[r], id); }
    }
    forall q | q in s.answers ensures s.answers[q].readAt != mine.readAt { assert AnswerOk(s, s.answers[q]); }
  }

  lemma FoundIsQueued(rows: map<Id, Row>, found: seq<Id>)
    requires Oldest(rows, found)
    ensures forall i :: 0 <= i < |found| ==> found[i] in rows
    ensures DistinctIds(ClaimsOf(rows, found))
    ensures forall id :: Has(ClaimsOf(rows, found), id) <==> id in found
    ensures forall id :: id in found ==> IsQueued(rows, id)
  {
    forall i | 0 <= i < |found| ensures found[i] in rows { assert IsQueued(rows, found[i]); }
    FoundAreClaimed(rows, found);
    forall id | Has(ClaimsOf(rows, found), id) ensures id in found {
      var i :| 0 <= i < |found| && ClaimsOf(rows, found)[i].id == id;
      assert found[i] == id;
    }
  }

  lemma UpdateKeepsOk(s: Polls, p: PollId)
    requires PollsOk(s) && CanStep(s, UpdateRows(p))
    ensures PollsOk(Go(s, UpdateRows(p)))
  {
    hide Has, DistinctIds;
    var u := Go(s, UpdateRows(p));
    RowsMove(s, UpdateRows(p));
    forall q, id | q in u.answers ensures ClaimOk(u, u.answers[q], id) { assert ClaimOk(s, s.answers[q], id); }
    forall q | q in u.answers ensures AnswerOk(u, u.answers[q]) { assert AnswerOk(s, s.answers[q]); }
    forall q, r, id | q in u.answers && r in u.answers && q != r ensures PairOk(u.answers[q], u.answers[r], id) {
      assert PairOk(s.answers[q], s.answers[r], id) && AnswerOk(s, s.answers[q]) && AnswerOk(s, s.answers[r]);
    }
  }

  lemma RespondKeepsOk(s: Polls, p: PollId)
    requires PollsOk(s) && CanStep(s, Respond(p))
    ensures PollsOk(Go(s, Respond(p)))
  {
    hide Has, DistinctIds;
    var u := Go(s, Respond(p));
    forall q, id | q in u.answers ensures ClaimOk(u, u.answers[q], id) { assert ClaimOk(s, s.answers[q], id); }
    forall q | q in u.answers ensures AnswerOk(u, u.answers[q]) { assert AnswerOk(s, s.answers[q]); }
    forall q, r, id | q in u.answers && r in u.answers && q != r ensures PairOk(u.answers[q], u.answers[r], id) {
      assert PairOk(s.answers[q], s.answers[r], id);
    }
  }

  lemma StepKeepsOk(s: Polls, step: PollStep)
    requires PollsOk(s) && CanStep(s, step)
    ensures PollsOk(Go(s, step))
  {
    hide PollsOk, RowsGoOn, Oldest, ClaimsOf, AcceptAll;
    match step
    case ReadQueue(p, found) => ReadKeepsOk(s, p, found);
    case UpdateRows(p) => UpdateKeepsOk(s, p);
    case Respond(p) => RespondKeepsOk(s, p);
    case _ =>
      RowsMove(s, step);
      SameAnswers(s, Go(s, step));
  }

  // ------------------------------------------- overlapping is enough for sharing

  /** Of all queued commands this one was issued first, before every other. */
  ghost predicate First(rows: map<Id, Row>, id: Id) {
    && IsQueued(rows, id)
    && forall x :: IsQueued(rows, x) && x != id ==> Issued(rows, id) < Issued(rows, x)
  }

  predicate UpdatedBy(answers: map<PollId, Answer>, r: PollId, time: nat) {
    r in answers && answers[r].updatedAt.Some? ==> answers[r].updatedAt.value <= time
  }

  /** Until somebody updates, the first command of a batch stays the first. */
  ghost predicate FirstOk(s: Polls, p: PollId)
    requires p in s.answers
  {
    var a := s.answers[p];
    a.batch != [] && (forall r :: UpdatedBy(s.answers, r, a.readAt)) ==> First(s.rows, a.batch[0].id)
  }

  /** Nobody updates between the two reads. */
  ghost predicate Undisturbed(answers: map<PollId, Answer>, a: Answer, b: Answer) {
    forall r :: UpdatedBy(answers, r, a.readAt) || !UpdatedBy(answers, r, b.readAt)
  }

  ghost predicate FollowerOk(s: Polls, p: PollId, q: PollId)
    requires p in s.answers && q in s.answers
  {
    var a, b := s.answers[p], s.answers[q];
    a.readAt < b.readAt && a.batch != [] && Undisturbed(s.answers, a, b) ==> Has(b.batch, a.batch[0].id)
  }

  /** No two commands were issued at the same time, and none after `last`. */
  ghost predicate IssuedApart(rows: map<Id, Row>, last: int) {
    && (forall x, y :: x in rows && y in rows && x != y ==> rows[x].issued != rows[y].issued)
    && (forall x :: x in rows ==> rows[x].issued <= last)
  }

  ghost predicate SharingOk(s: Polls, last: int) {
    && IssuedApart(s.rows, last)
    && (forall p :: p in s.answers ==> FirstOk(s, p))
    && (forall p, q :: p in s.answers && q in s.answers ==> FollowerOk(s, p, q))
  }

  lemma FirstIsFound(rows: map<Id, Row>, found: seq<Id>, id: Id)
    requires Oldest(rows, found) && First(rows, id)
    ensures id in found
  {
    if |found| > 0 { assert IsQueued(rows, found[0]); }
  }

  lemma FoundIsFirst(rows: map<Id, Row>, found: seq<Id>, last: int)
    requires Oldest(rows, found) && IssuedApart(rows, last) && found != []
    ensures First(rows, found[0])
  {
    assert IsQueued(rows, found[0]);
    forall x | IsQueued(rows, x) && x != found[0] ensures Issued(rows, found[0]) < Issued(rows, x) {
      if x in found {
        var j :| 0 <= j < |found| && found[j] == x;
        assert Issued(rows, found[0]) <= Issued(rows, found[j]);
      }
    }
  }

  /** Nobody updates, the queue only loses commands, and what joins it is younger. */
  ghost predicate Quiet(s: Polls, u: Polls, last: int) {
    && u.answers.Keys == s.answers.Keys
    && (forall p :: p in s.answers ==>
          && u.answers[p].batch == s.answers[p].batch && u.answers[p].readAt == s.answers[p].readAt
          && u.answers[p].updatedAt == s.answers[p].updatedAt)
    && (forall x :: IsQueued(s.rows, x) ==> IsQueued(u.rows, x) && Issued(u.rows, x) == Issued(s.rows, x))
    && (forall x :: IsQueued(u.rows, x) && !IsQueued(s.rows, x) ==> Issued(u.rows, x) > last)
  }

  lemma QuietKeepsSharing(s: Polls, u: Polls, last: int, last': int)
    requires SharingOk(s, last) && Quiet(s, u, last) && IssuedApart(u.rows, last')
    ensures SharingOk(u, last')
  {
    hide Has, IssuedApart;
    forall r, t ensures UpdatedBy(u.answers, r, t) == UpdatedBy(s.answers, r, t) {}
    forall p | p in u.answers ensures FirstOk(u, p) {
      assert FirstOk(s, p);
      var a := s.answers[p];
      if a.batch != [] && First(s.rows, a.batch[0].id) { FirstStays(s, u, last, a.batch[0].id); }
    }
    forall p, q | p in u.answers && q in u.answers ensures FollowerOk(u, p, q) {
      assert FollowerOk(s, p, q);
    }
  }

  lemma FirstStays(s: Polls, u: Polls, last: int, id: Id)
    requires IssuedApart(s.rows, last) && Quiet(s, u, last) && First(s.rows, id)
    ensures First(u.rows, id)
  {}

  lemma InsertIsQuiet(s: Polls, id: Id, row: Row, last: int)
    requires CanStep(s, InsertRow(id, row)) && IssuedApart(s.rows, last) && last < row.issued
    ensures Quiet(s, Go(s, InsertRow(id, row)), last)
    ensures IssuedApart(Go(s, InsertRow(id, row)).rows, row.issued)
  {}

  lemma OthersAreQuiet(s: Polls, step: PollStep, last: int)
    requires CanStep(s, step) && IssuedApart(s.rows, last)
    requires step.SignIt? || step.ReportIt? || step.Respond?
    ensures Quiet(s, Go(s, step), last) && IssuedApart(Go(s, step).rows, last)
  {
    hide Oldest, ClaimsOf;
  }

  lemma ReadKeepsSharing(s: Polls, p: PollId, found: seq<Id>, last: int)
    requires PollsOk(s) && SharingOk(s, last) && CanStep(s, ReadQueue(p, found))
    ensures SharingOk(Go(s, ReadQueue(p, found)), last)
  {
    hide Has, IssuedApart, First, Oldest, ClaimsOf, PollsOk;
    var u := Go(s, ReadQueue(p, found));
    FoundIsQueued(s.rows, found);
    UpdatesArePast(s);
    forall r, t ensures UpdatedBy(u.answers, r, t) == UpdatedBy(s.answers, r, t) {}
    if found != [] {
      FoundIsFirst(s.rows, found, last);
      ClaimsStart(s.rows, found);
    }
    forall q | q in u.answers ensures FirstOk(u, q) {
      if q != p { assert FirstOk(s, q); }
    }
    forall q, r | q in u.answers && r in u.answers ensures FollowerOk(u, q, r) {
      if q != p && r != p {
        assert FollowerOk(s, q, r);
      } else if q != p {
        FirstFollows(s, q, found);
      } else {
        ReadsArePast(s);
      }
    }
  }

  lemma ClaimsStart(rows: map<Id, Row>, found: seq<Id>)
    requires found != [] && forall i :: 0 <= i < |found| ==> found[i] in rows
    ensures ClaimsOf(rows, found) != [] && ClaimsOf(rows, found)[0].id == found[0]
  {}

  lemma UpdatesArePast(s: Polls)
    requires PollsOk(s)
    ensures forall r :: UpdatedBy(s.answers, r, s.now)
  {
    forall r ensures UpdatedBy(s.answers, r, s.now) {
      if r in s.answers { assert AnswerOk(s, s.answers[r]); }
    }
  }

  lemma ReadsArePast(s: Polls)
    requires PollsOk(s)
    ensures forall r :: r in s.answers ==> s.answers[r].readAt < s.now
  {
    forall r | r in s.answers ensures s.answers[r].readAt < s.now { assert AnswerOk(s, s.answers[r]); }
  }

  /** A read with no update since `q`'s finds what `q` found first. */
  lemma FirstFollows(s: Polls, q: PollId, found: seq<Id>)
    requires PollsOk(s) && q in s.answers && FirstOk(s, q) && Oldest(s.rows, found)
    requires forall i :: 0 <= i < |found| ==> found[i] in s.rows
    ensures var a := s.answers[q];
      a.batch != [] && (forall r :: UpdatedBy(s.answers, r, a.readAt) || !UpdatedBy(s.answers, r, s.now)) ==>
        Has(ClaimsOf(s.rows, found), a.batch[0].id)
  {
    hide Has, First, Oldest, ClaimsOf;
    var a := s.answers[q];
    UpdatesArePast(s);
    FoundIsQueued(s.rows, found);
    if a.batch != [] && forall r :: UpdatedBy(s.answers, r, a.readAt) || !UpdatedBy(s.answers, r, s.now) {
      assert forall r :: UpdatedBy(s.answers, r, s.now) && UpdatedBy(s.answers, r, a.readAt);
      FirstIsFound(s.rows, found, a.batch[0].id);
    }
  }

  lemma UpdateKeepsSharing(s: Polls, p: PollId, last: int)
    requires PollsOk(s) && SharingOk(s, last) && CanStep(s, UpdateRows(p))
    ensures SharingOk(Go(s, UpdateRows(p)), last)
  {
    hide Has, First, PollsOk, AcceptAll;
    var u := Go(s, UpdateRows(p));
    ReadsArePast(s);
    AcceptingKeepsTimes(s.rows, s.answers[p].batch, last);
    forall r, t ensures r != p ==> UpdatedBy(u.answers, r, t) == UpdatedBy(s.answers, r, t) {}
    forall q | q in s.answers ensures !UpdatedBy(u.answers, p, s.answers[q].readAt) {}
    forall q | q in u.answers ensures FirstOk(u, q) {}
    forall q, r | q in u.answers && r in u.answers ensures FollowerOk(u, q, r) {
      assert FollowerOk(s, q, r);
      assert UpdatedBy(s.answers, p, s.answers[q].readAt);
      forall x | Undisturbed(u.answers, u.answers[q], u.answers[r])
        ensures UpdatedBy(s.answers, x, s.answers[q].readAt) || !UpdatedBy(s.answers, x, s.answers[r].readAt)
      {
        assert UpdatedBy(u.answers, x, u.answers[q].readAt) || !UpdatedBy(u.answers, x, u.answers[r].readAt);
      }
    }
  }

  lemma AcceptingKeepsTimes(rows: map<Id, Row>, claims: seq<Claim>, last: int)
    requires IssuedApart(rows, last)
    ensures IssuedApart(AcceptAll(rows, claims), last)
  {
    hide Has;
  }

  lemma StepKeepsSharing(s: Polls, step: PollStep, last: int)
    requires PollsOk(s) && SharingOk(s, last) && CanStep(s, step)
    requires step.InsertRow? ==> last < step.row.issued
    ensures SharingOk(Go(s, step), if step.InsertRow? then step.row.issued else last)
  {
    hide PollsOk, SharingOk, CanStep, Go, Quiet, IssuedApart;
    TimesApart(s, last);
    match step
    case InsertRow(id, row) =>
      InsertIsQuiet(s, id, row, last);
      QuietKeepsSharing(s, Go(s, step), last, row.issued);
    case ReadQueue(p, found) => ReadKeepsSharing(s, p, found, last);
    case UpdateRows(p) => UpdateKeepsSharing(s, p, last);
    case _ =>
      OthersAreQuiet(s, step, last);
      QuietKeepsSharing(s, Go(s, step), last, last);
  }

  lemma TimesApart(s: Polls, last: int)
    requires SharingOk(s, last)
    ensures IssuedApart(s.rows, last)
  {}

  // -------------------------------------------- any number of polls in between

  /** What is still queued of a batch was issued before everything else queued. */
  ghost predicate Ahead(rows: map<Id, Row>, a: Answer) {
    forall x, y :: Has(a.batch, x) && IsQueued(rows, x) && IsQueued(rows, y) && !Has(a.batch, y) ==>
      Issued(rows, x) < Issued(rows, y)
  }

  /** Something of the one batch was still queued when the other poll read. */
  ghost predicate StillQueued(a: Answer, b: Answer) { exists id :: Has(a.batch, id) && id in b.queued }

  ghost predicate ShareOk(a: Answer, b: Answer) {
    a.readAt < b.readAt ==> (Share(a, b) <==> StillQueued(a, b))
  }

  ghost predicate QueueOk(s: Polls) {
    && (forall p :: p in s.answers ==> Ahead(s.rows, s.answers[p]))
    && (forall p, q :: p in s.answers && q in s.answers ==> ShareOk(s.answers[p], s.answers[q]))
  }

  /** The batches stay, and whatever joins the queue is younger. */
  ghost predicate Younger(s: Polls, u: Polls, last: int) {
    && u.answers.Keys == s.answers.Keys
    && (forall p :: p in s.answers ==>
          && u.answers[p].batch == s.answers[p].batch && u.answers[p].queued == s.answers[p].queued
          && u.answers[p].readAt == s.answers[p].readAt)
    && (forall x :: IsQueued(u.rows, x) && IsQueued(s.rows, x) ==> Issued(u.rows, x) == Issued(s.rows, x))
    && (forall x :: IsQueued(u.rows, x) && !IsQueued(s.rows, x) ==> x !in s.rows && Issued(u.rows, x) > last)
  }

  /** One batch, its commands known to the table before. */
  lemma YoungerStaysAhead(s: Polls, u: Polls, p: PollId, last: int)
    requires p in s.answers && Ahead(s.rows, s.answers[p]) && Younger(s, u, last)
    requires forall id :: Has(s.answers[p].batch, id) ==> id in s.rows && s.rows[id].issued <= last
    ensures p in u.answers && Ahead(u.rows, u.answers[p])
  {
    hide Has;
    var a := s.answers[p];
    forall x, y | Has(a.batch, x) && IsQueued(u.rows, x) && IsQueued(u.rows, y) && !Has(a.batch, y)
      ensures Issued(u.rows, x) < Issued(u.rows, y)
    {
      assert IsQueued(s.rows, x) && Issued(s.rows, x) <= last;
    }
  }

  lemma BatchIsKnown(s: Polls, p: PollId, last: int)
    requires PollsOk(s) && p in s.answers && IssuedApart(s.rows, last)
    ensures forall id :: Has(s.answers[p].batch, id) ==> id in s.rows && s.rows[id].issued <= last
  {
    hide Has;
    forall id | Has(s.answers[p].batch, id) ensures id in s.rows && s.rows[id].issued <= last {
      assert ClaimOk(s, s.answers[p], id);
    }
  }

  lemma YoungerKeepsQueue(s: Polls, u: Polls, last: int)
    requires PollsOk(s) && QueueOk(s) && IssuedApart(s.rows, last) && Younger(s, u, last)
    ensures QueueOk(u)
  {
    hide Has, PollsOk, Ahead, IssuedApart;
    forall p | p in u.answers ensures Ahead(u.rows, u.answers[p]) {
      BatchIsKnown(s, p, last);
      YoungerStaysAhead(s, u, p, last);
    }
    forall p, q | p in u.answers && q in u.answers ensures ShareOk(u.answers[p], u.answers[q]) {
      assert ShareOk(s.answers[p], s.answers[q]);
    }
  }

  lemma StepIsYounger(s: Polls, step: PollStep, last: int)
    requires CanStep(s, step) && IssuedApart(s.rows, last) && !step.ReadQueue?
    requires step.InsertRow? ==> last < step.row.issued
    ensures Younger(s, Go(s, step), last)
  {
    hide Oldest, ClaimsOf, Has, Tagged;
  }

  lemma NewIsAhead(rows: map<Id, Row>, found: seq<Id>, a: Answer, last: int)
    requires Oldest(rows, found) && IssuedApart(rows, last)
    requires forall id :: Has(a.batch, id) <==> id in found
    ensures Ahead(rows, a)
  {
    hide Has;
    forall x, y | x in found && IsQueued(rows, y) && y !in found ensures Issued(rows, x) < Issued(rows, y) {
      var i :| 0 <= i < |found| && found[i] == x;
      assert IsQueued(rows, found[i]) && Issued(rows, found[i]) <= Issued(rows, y);
    }
  }

  /** If anything of `a`'s batch is queued, the queue's first is of that batch, and a
      read finds it. */
  lemma ReadFindsShared(rows: map<Id, Row>, found: seq<Id>, a: Answer, b: Answer)
    requires Oldest(rows, found) && Ahead(rows, a) && b.queued == QueuedIds(rows)
    requires forall id :: Has(b.batch, id) <==> id in found
    ensures Share(a, b) <==> StillQueued(a, b)
  {
    hide Has;
    if Share(a, b) {
      var id :| Has(a.batch, id) && Has(b.batch, id);
      assert IsQueued(rows, id) && id in b.queued;
    }
    if StillQueued(a, b) {
      var id :| Has(a.batch, id) && id in b.queued;
      assert IsQueued(rows, id);
      if id in found {
        assert Has(b.batch, id);
      } else {
        assert |found| == BATCH && IsQueued(rows, found[0]) && Issued(rows, found[0]) <= Issued(rows, id);
        assert Has(a.batch, found[0]) && Has(b.batch, found[0]);
      }
    }
  }

  lemma FoundIsClaimed(rows: map<Id, Row>, found: seq<Id>)
    requires forall i :: 0 <= i < |found| ==> found[i] in rows
    ensures forall id :: Has(ClaimsOf(rows, found), id) <==> id in found
  {
    var claims := ClaimsOf(rows, found);
    forall id | id in found ensures Has(claims, id) {
      var i :| 0 <= i < |found| && found[i] == id;
      assert claims[i].id == id;
    }
  }

  lemma ReadKeepsQueue(s: Polls, p: PollId, found: seq<Id>, last: int)
    requires PollsOk(s) && QueueOk(s) && IssuedApart(s.rows, last) && CanStep(s, ReadQueue(p, found))
    ensures QueueOk(Go(s, ReadQueue(p, found)))
  {
    hide Has, IssuedApart, Oldest, ClaimsOf, PollsOk, Ahead, Share, StillQueued;
    var u := Go(s, ReadQueue(p, found));
    FoundIsQueued(s.rows, found);
    FoundIsClaimed(s.rows, found);
    ReadsArePast(s);
    NewIsAhead(s.rows, found, u.answers[p], last);
    forall q, r | q in u.answers && r in u.answers ensures ShareOk(u.answers[q], u.answers[r]) {
      if q != p && r == p {
        assert Ahead(s.rows, s.answers[q]);
        ReadFindsShared(s.rows, found, s.answers[q], u.answers[p]);
      } else if q != p {
        assert ShareOk(s.answers[q], s.answers[r]);
      }
    }
  }

  lemma StepKeepsQueue(s: Polls, step: PollStep, last: int)
    requires PollsOk(s) && QueueOk(s) && IssuedApart(s.rows, last) && CanStep(s, step)
    requires step.InsertRow? ==> last < step.row.issued
    ensures QueueOk(Go(s, step))
  {
    hide PollsOk, QueueOk, CanStep, Go, Younger, IssuedApart;
    if step.ReadQueue? {
      ReadKeepsQueue(s, step.p, step.found, last);
    } else {
      StepIsYounger(s, step, last);
      YoungerKeepsQueue(s, Go(s, step), last);
    }
  }

  // ------------------------------------------- polls that find less than a batch

  /** A batch is of what was queued, and is all of it if it is short. */
  ghost predicate Took(a: Answer) {
    && (forall id :: Has(a.batch, id) ==> id in a.queued)
    && (|a.batch| < BATCH ==> forall id :: id in a.queued ==> Has(a.batch, id))
  }

  ghost predicate AllTook(s: Polls) { forall p :: p in s.answers ==> Took(s.answers[p]) }

  lemma ReadTakes(rows: map<Id, Row>, found: seq<Id>, a: Answer)
    requires Oldest(rows, found) && a.queued == QueuedIds(rows) && |a.batch| == |found|
    requires forall id :: Has(a.batch, id) <==> id in found
    ensures Took(a)
  {
    hide Has;
    forall id | id in found ensures id in a.queued {
      var i :| 0 <= i < |found| && found[i] == id;
      assert IsQueued(rows, found[i]);
    }
    assert forall id :: id in a.queued ==> IsQueued(rows, id);
  }

  lemma StepKeepsTook(s: Polls, step: PollStep)
    requires AllTook(s) && CanStep(s, step)
    ensures AllTook(Go(s, step))
  {
    hide Has, Oldest, ClaimsOf, AcceptAll, Tagged, QueuedIds;
    if step.ReadQueue? {
      FoundIsQueued(s.rows, step.found);
      FoundIsClaimed(s.rows, step.found);
      ReadTakes(s.rows, step.found, Go(s, step).answers[step.p]);
    }
    forall p | p in Go(s, step).answers ensures Took(Go(s, step).answers[p]) {
      assert p in s.answers ==> Took(s.answers[p]);
    }
  }

  lemma {:induction false} RunTakes(s: Polls, steps: seq<PollStep>)
    requires AllTook(s)
    ensures AllTook(GoAll(s, steps))
    decreases |steps|
  {
    hide AllTook, CanStep, Go;
    if steps != [] {
      if CanStep(s, steps[0]) { StepKeepsTook(s, steps[0]); }
      RunTakes(if CanStep(s, steps[0]) then Go(s, steps[0]) else s, steps[1..]);
    }
  }

  // --------------------------------------------------------- what is handed out

  predicate Out(s: Polls, p: PollId) { p in s.answers && s.answers[p].out }

  predicate HandOutOk(s: Polls, h: HandOut) { Out(s, h.poll) && Has(s.answers[h.poll].batch, h.claim.id) }

  predicate IsHandedOut(s: Polls, p: PollId, id: Id) {
    exists i :: 0 <= i < |s.handed| && s.handed[i].poll == p && s.handed[i].claim.id == id
  }

  /** Handed out is what the answers that are out hold, each command once per answer. */
  ghost predicate HandedOk(s: Polls) {
    && (forall i :: 0 <= i < |s.handed| ==> HandOutOk(s, s.handed[i]))
    && (forall i, j :: 0 <= i < j < |s.handed| && s.handed[i].poll == s.handed[j].poll ==>
          s.handed[i].claim.id != s.handed[j].claim.id)
    && (forall p, id :: Out(s, p) && Has(s.answers[p].batch, id) ==> IsHandedOut(s, p, id))
  }

  /** Steps other than responding. */
  lemma SameHanded(s: Polls, u: Polls)
    requires HandedOk(s) && u.handed == s.handed
    requires forall p :: p in s.answers ==> p in u.answers && u.answers[p].batch == s.answers[p].batch
    requires forall p :: Out(u, p) == Out(s, p)
    ensures HandedOk(u)
  {
    hide Has;
    forall i | 0 <= i < |u.handed| ensures HandOutOk(u, u.handed[i]) { assert HandOutOk(s, s.handed[i]); }
    forall p, id | Out(u, p) && Has(u.answers[p].batch, id) ensures IsHandedOut(u, p, id) {
      assert Out(s, p) && IsHandedOut(s, p, id);
    }
  }

  lemma RespondKeepsHanded(s: Polls, p: PollId)
    requires PollsOk(s) && HandedOk(s) && CanStep(s, Respond(p))
    ensures HandedOk(Go(s, Respond(p)))
  {
    hide PollsOk;
    var u, b := Go(s, Respond(p)), s.answers[p].batch;
    BatchIsDistinct(s, p);
    forall i | 0 <= i < |u.handed| ensures HandOutOk(u, u.handed[i]) {
      if i < |s.handed| { assert HandOutOk(s, s.handed[i]); }
    }
    forall i, j | 0 <= i < j < |u.handed| && u.handed[i].poll == u.handed[j].poll
      ensures u.handed[i].claim.id != u.handed[j].claim.id
    {
      if i < |s.handed| { assert HandOutOk(s, s.handed[i]); }
    }
    forall q, id | Out(u, q) && Has(u.answers[q].batch, id) ensures IsHandedOut(u, q, id) {
      if q == p {
        var i :| 0 <= i < |b| && b[i].id == id;
        assert u.handed[|s.handed| + i] == HandOut(p, b[i]);
      } else {
        assert Out(s, q) && IsHandedOut(s, q, id);
        var i :| 0 <= i < |s.handed| && s.handed[i].poll == q && s.handed[i].claim.id == id;
        assert u.handed[i] == s.handed[i];
      }
    }
  }

  lemma BatchIsDistinct(s: Polls, p: PollId)
    requires PollsOk(s) && p in s.answers
    ensures DistinctIds(s.answers[p].batch)
  {
    assert AnswerOk(s, s.answers[p]);
  }

  lemma StepKeepsHanded(s: Polls, step: PollStep)
    requires PollsOk(s) && HandedOk(s) && CanStep(s, step)
    ensures HandedOk(Go(s, step))
  {
    hide PollsOk, HandedOk, Oldest, ClaimsOf, AcceptAll;
    if step.Respond? { RespondKeepsHanded(s, step.p); } else { SameHanded(s, Go(s, step)); }
  }

  // -------------------------------------------------------------- over all runs

  lemma {:induction false} RunIsOk(s: Polls, steps: seq<PollStep>)
    requires PollsOk(s) && HandedOk(s)
    ensures PollsOk(GoAll(s, steps)) && HandedOk(GoAll(s, steps))
    decreases |steps|
  {
    hide PollsOk, HandedOk, CanStep, Go;
    if steps != [] {
      if CanStep(s, steps[0]) {
        StepKeepsOk(s, steps[0]);
        StepKeepsHanded(s, steps[0]);
      }
      RunIsOk(if CanStep(s, steps[0]) then Go(s, steps[0]) else s, steps[1..]);
    }
  }

  /** Commands are inserted in the order they are issued, never two at one time. */
  predicate Apart(steps: seq<PollStep>, last: int) {
    steps == [] ||
    (if steps[0].InsertRow? then last < steps[0].row.issued && Apart(steps[1..], steps[0].row.issued)
     else Apart(steps[1..], last))
  }

  lemma {:induction false} RunShares(s: Polls, steps: seq<PollStep>, last: int) returns (end: int)
    requires PollsOk(s) && SharingOk(s, last) && QueueOk(s) && Apart(steps, last)
    ensures SharingOk(GoAll(s, steps), end) && QueueOk(GoAll(s, steps))
    decreases |steps|
  {
    hide PollsOk, SharingOk, QueueOk, IssuedApart, CanStep, Go;
    if steps == [] {
      end := last;
    } else {
      var now := if steps[0].InsertRow? then steps[0].row.issued else last;
      if CanStep(s, steps[0]) {
        StepKeepsOk(s, steps[0]);
        StepKeepsSharing(s, steps[0], last);
        TimesApart(s, last);
        StepKeepsQueue(s, steps[0], last);
        end := RunShares(Go(s, steps[0]), steps[1..], now);
      } else {
        SharingLater(s, last, now);
        end := RunShares(s, steps[1..], now);
      }
    }
  }

  lemma SharingLater(s: Polls, last: int, now: int)
    requires SharingOk(s, last) && last <= now
    ensures SharingOk(s, now)
  {}

  lemma StartIsOk(last: int)
    ensures PollsOk(START) && HandedOk(START) && SharingOk(START, last) && QueueOk(START)
  {}

  /** In every run, with any number of polls and any interleaving, two answers that
      share a command overlap: neither was read after the other's update. */
  lemma SharingNeedsOverlap(steps: seq<PollStep>, p: PollId, q: PollId)
    requires var s := GoAll(START, steps); p in s.answers && q in s.answers && p != q
    ensures var s := GoAll(START, steps);
      Share(s.answers[p], s.answers[q]) ==> Overlap(s.answers[p], s.answers[q])
  {
    hide GoAll, HandedOk, SharingOk, Has;
    StartIsOk(0);
    RunIsOk(START, steps);
    var s := GoAll(START, steps);
    if Share(s.answers[p], s.answers[q]) {
      var id :| Has(s.answers[p].batch, id) && Has(s.answers[q].batch, id);
      assert PairOk(s.answers[p], s.answers[q], id);
    }
  }

  ghost predicate HandedOutTwice(s: Polls) {
    exists i, j :: 0 <= i < j < |s.handed| && s.handed[i].claim.id == s.handed[j].claim.id
  }

  ghost predicate AnswersShare(s: Polls) {
    exists p, q :: Out(s, p) && Out(s, q) && p != q && Share(s.answers[p], s.answers[q])
  }

  lemma TwiceMeansShared(s: Polls)
    requires HandedOk(s) && HandedOutTwice(s)
    ensures AnswersShare(s)
  {
    hide Has;
    var i, j :| 0 <= i < j < |s.handed| && s.handed[i].claim.id == s.handed[j].claim.id;
    assert HandOutOk(s, s.handed[i]) && HandOutOk(s, s.handed[j]);
    var p, q, id := s.handed[i].poll, s.handed[j].poll, s.handed[i].claim.id;
    assert Has(s.answers[p].batch, id) && Has(s.answers[q].batch, id);
    assert Share(s.answers[p], s.answers[q]);
  }

  lemma SharedMeansTwice(s: Polls)
    requires HandedOk(s) && AnswersShare(s)
    ensures HandedOutTwice(s)
  {
    hide Has;
    var p, q :| Out(s, p) && Out(s, q) && p != q && Share(s.answers[p], s.answers[q]);
    var id :| Has(s.answers[p].batch, id) && Has(s.answers[q].batch, id);
    assert IsHandedOut(s, p, id) && IsHandedOut(s, q, id);
    var i :| 0 <= i < |s.handed| && s.handed[i].poll == p && s.handed[i].claim.id == id;
    var j :| 0 <= j < |s.handed| && s.handed[j].poll == q && s.handed[j].claim.id == id;
    assert i < j || j < i;
  }

  /** In every run some command is handed out twice exactly when two of the answers
      that are out share one. */
  lemma HandedOutTwiceExactly(steps: seq<PollStep>)
    ensures var s := GoAll(START, steps); HandedOutTwice(s) <==> AnswersShare(s)
  {
    hide GoAll, PollsOk, SharingOk, HandedOk, HandedOutTwice, AnswersShare;
    StartIsOk(0);
    RunIsOk(START, steps);
    var s := GoAll(START, steps);
    if HandedOutTwice(s) { TwiceMeansShared(s); }
    if AnswersShare(s) { SharedMeansTwice(s); }
  }

  function Earlier(a: Answer, b: Answer): Answer { if a.readAt < b.readAt then a else b }

  function Later(a: Answer, b: Answer): Answer { if a.readAt < b.readAt then b else a }

  /** Nobody else updates between the two reads. */
  ghost predicate NoThird(answers: map<PollId, Answer>, p: PollId, q: PollId)
    requires p in answers && q in answers
  {
    var a, b := Earlier(answers[p], answers[q]), Later(answers[p], answers[q]);
    forall r :: r != p && r != q ==> UpdatedBy(answers, r, a.readAt) || !UpdatedBy(answers, r, b.readAt)
  }

  /** With commands issued one after the other: in every run of any number of polls,
      two answers share a command exactly when something of the earlier batch was still
      queued as the later poll read. */
  lemma PollsShareExactly(steps: seq<PollStep>, start: int, p: PollId, q: PollId)
    requires Apart(steps, start) && p != q
    requires var s := GoAll(START, steps); p in s.answers && q in s.answers
    ensures var s := GoAll(START, steps);
      var a, b := s.answers[p], s.answers[q];
      Share(a, b) <==> StillQueued(Earlier(a, b), Later(a, b))
  {
    hide GoAll, HandedOk, Has, Apart, PollsOk, SharingOk, StillQueued;
    StartIsOk(start);
    RunIsOk(START, steps);
    var end := RunShares(START, steps, start);
    var s := GoAll(START, steps);
    PairFacts(s, p, q, end);
    assert ShareOk(s.answers[p], s.answers[q]) && ShareOk(s.answers[q], s.answers[p]);
    assert Share(s.answers[p], s.answers[q]) <==> Share(s.answers[q], s.answers[p]);
  }

  /** Whatever the times of issue and the order of insertion: an answer of less than a
      full batch shares a command with an earlier one exactly when something of that one
      was still queued as it read. */
  lemma ShortAnswerSharesExactly(steps: seq<PollStep>, p: PollId, q: PollId)
    requires var s := GoAll(START, steps);
      && p in s.answers && q in s.answers && s.answers[p].readAt < s.answers[q].readAt
      && |s.answers[q].batch| < BATCH
    ensures var s := GoAll(START, steps);
      Share(s.answers[p], s.answers[q]) <==> StillQueued(s.answers[p], s.answers[q])
  {
    hide GoAll, Has;
    RunTakes(START, steps);
    var s := GoAll(START, steps);
    assert Took(s.answers[q]);
    if Share(s.answers[p], s.answers[q]) {
      var id :| Has(s.answers[p].batch, id) && Has(s.answers[q].batch, id);
      assert id in s.answers[q].queued;
    }
    if StillQueued(s.answers[p], s.answers[q]) {
      var id :| Has(s.answers[p].batch, id) && id in s.answers[q].queued;
      assert Has(s.answers[q].batch, id);
    }
  }

  /** And when no third poll updates between the two reads, exactly when both polls read
      before either updated, and the one that read first found anything at all. */
  lemma TwoPollsShareExactly(steps: seq<PollStep>, start: int, p: PollId, q: PollId)
    requires Apart(steps, start) && p != q
    requires var s := GoAll(START, steps); p in s.answers && q in s.answers && NoThird(s.answers, p, q)
    ensures var s := GoAll(START, steps);
      var a, b := s.answers[p], s.answers[q];
      Share(a, b) <==> Overlap(a, b) && Earlier(a, b).batch != []
  {
    hide GoAll, HandedOk, Has, Apart, PollsOk, SharingOk;
    StartIsOk(start);
    RunIsOk(START, steps);
    var end := RunShares(START, steps, start);
    var s := GoAll(START, steps);
    var a, b := s.answers[p], s.answers[q];
    PairFacts(s, p, q, end);
    if Share(a, b) {
      var id :| Has(a.batch, id) && Has(b.batch, id);
      assert PairOk(a, b, id);
      HasSome(a.batch, id);
      HasSome(b.batch, id);
    }
    if Overlap(a, b) && Earlier(a, b).batch != [] {
      if a.readAt < b.readAt {
        assert Undisturbed(s.answers, a, b);
        StartsWithIt(a.batch);
      } else {
        assert Undisturbed(s.answers, b, a);
        StartsWithIt(b.batch);
      }
    }
  }

  lemma PairFacts(s: Polls, p: PollId, q: PollId, last: int)
    requires PollsOk(s) && SharingOk(s, last) && p in s.answers && q in s.answers && p != q
    ensures forall id :: PairOk(s.answers[p], s.answers[q], id)
    ensures FollowerOk(s, p, q) && FollowerOk(s, q, p)
    ensures s.answers[p].readAt != s.answers[q].readAt
    ensures AnswerOk(s, s.answers[p]) && AnswerOk(s, s.answers[q])
  {
    hide PairOk, FollowerOk, AnswerOk;
  }

  lemma HasSome(cs: seq<Claim>, id: Id)
    requires Has(cs, id)
    ensures cs != []
  {}

  lemma StartsWithIt(cs: seq<Claim>)
    requires cs != []
    ensures Has(cs, cs[0].id)
  {}

  // ----------------------------------------------------------- such a run

  lemma GoOne(s: Polls, step: PollStep, rest: seq<PollStep>)
    requires CanStep(s, step)
    ensures GoAll(s, [step] + rest) == GoAll(Go(s, step), rest)
  {
    hide Go, CanStep;
    assert ([step] + rest)[1..] == rest;
  }

  lemma GoNowhere(s: Polls)
    ensures GoAll(s, []) == s
  {}

  /** One queued command, two polls. */
  function TwoPolls(row: Row): seq<PollStep> {
    [InsertRow(0, row)] + ([ReadQueue(1, [0])] + ([ReadQueue(2, [0])]
      + ([UpdateRows(1)] + ([UpdateRows(2)] + ([Respond(1)] + ([Respond(2)] + []))))))
  }

  /** Whatever the command, both polls hand it out. */
  lemma OverlapHandsOutTwice(row: Row)
    requires row.status == Queued
    ensures var claim := Claim(0, row.signature);
      GoAll(START, TwoPolls(row)).handed == [HandOut(1, claim), HandOut(2, claim)]
    ensures HandedOutTwice(GoAll(START, TwoPolls(row)))
  {
    hide GoAll, Go, CanStep, HandedOutTwice;
    var claim := Claim(0, row.signature);
    var rows, accepted := map[0 := row], map[0 := row.(status := Accepted)];
    var s1 := Polls(rows, map[], [], 1);
    var s2 := Polls(rows, map[1 := Answer([claim], {0}, 1, None, false)], [], 2);
    var s3 := Polls(rows, map[1 := Answer([claim], {0}, 1, None, false), 2 := Answer([claim], {0}, 2, None, false)], [], 3);
    var s4 := Polls(accepted,
                    map[1 := Answer([claim], {0}, 1, Some(3), false), 2 := Answer([claim], {0}, 2, None, false)], [], 4);
    var s5 := Polls(accepted,
                    map[1 := Answer([claim], {0}, 1, Some(3), false), 2 := Answer([claim], {0}, 2, Some(4), false)], [], 5);
    var s6 := Polls(accepted,
                    map[1 := Answer([claim], {0}, 1, Some(3), true), 2 := Answer([claim], {0}, 2, Some(4), false)],
                    [HandOut(1, claim)], 6);
    var s7 := Polls(accepted,
                    map[1 := Answer([claim], {0}, 1, Some(3), true), 2 := Answer([claim], {0}, 2, Some(4), true)],
                    [HandOut(1, claim), HandOut(2, claim)], 7);
    assert s2.answers == s1.answers[1 := Answer([claim], {0}, 1, None, false)];
    Inserts(row);
    Reads(s1, 1, row);
    Reads(s2, 2, row);
    Accepts(s3, 1, row, claim);
    AcceptsNothing(s4, 2, row, claim);
    HandsOut(s5, 1, claim);
    HandsOut(s6, 2, claim);
    assert s6.answers == s5.answers[1 := s5.answers[1].(out := true)];
    assert s7.answers == s6.answers[2 := s6.answers[2].(out := true)];
    assert s7.handed == s6.handed + [HandOut(2, claim)];
    assert s3.answers == s2.answers[2 := Answer([claim], {0}, 2, None, false)];
    assert s4.answers == s3.answers[1 := Answer([claim], {0}, 1, Some(3), false)];
    assert s5.answers == s4.answers[2 := Answer([claim], {0}, 2, Some(4), false)];
    assert Go(START, InsertRow(0, row)) == s1;
    assert Go(s1, ReadQueue(1, [0])) == s2;
    assert Go(s2, ReadQueue(2, [0])) == s3;
    assert Go(s3, UpdateRows(1)) == s4;
    assert Go(s4, UpdateRows(2)) == s5;
    assert Go(s5, Respond(1)) == s6;
    assert Go(s6, Respond(2)) == s7;
    GoOne(START, InsertRow(0, row), [ReadQueue(1, [0])] + ([ReadQueue(2, [0])]
      + ([UpdateRows(1)] + ([UpdateRows(2)] + ([Respond(1)] + ([Respond(2)] + []))))));
    GoOne(s1, ReadQueue(1, [0]), [ReadQueue(2, [0])]
      + ([UpdateRows(1)] + ([UpdateRows(2)] + ([Respond(1)] + ([Respond(2)] + [])))));
    GoOne(s2, ReadQueue(2, [0]), [UpdateRows(1)] + ([UpdateRows(2)] + ([Respond(1)] + ([Respond(2)] + []))));
    GoOne(s3, UpdateRows(1), [UpdateRows(2)] + ([Respond(1)] + ([Respond(2)] + [])));
    GoOne(s4, UpdateRows(2), [Respond(1)] + ([Respond(2)] + []));
    GoOne(s5, Respond(1), [Respond(2)] + []);
    GoOne(s6, Respond(2), []);
    GoNowhere(s7);
    BothSame(s7, claim);
  }

  lemma BothSame(s: Polls, claim: Claim)
    requires s.handed == [HandOut(1, claim), HandOut(2, claim)]
    ensures HandedOutTwice(s)
  {
    assert s.handed[0].claim.id == s.handed[1].claim.id;
  }

  lemma Inserts(row: Row)
    requires row.status == Queued
    ensures CanStep(START, InsertRow(0, row))
    ensures Go(START, InsertRow(0, row)) == Polls(map[0 := row], map[], [], 1)
  {}

  lemma Reads(s: Polls, p: PollId, row: Row)
    requires s.rows == map[0 := row] && row.status == Queued && p !in s.answers
    ensures CanStep(s, ReadQueue(p, [0]))
    ensures Go(s, ReadQueue(p, [0]))
            == s.(answers := s.answers[p := Answer([Claim(0, row.signature)], {0}, s.now, None, false)], now := s.now + 1)
  {
    assert ClaimsOf(s.rows, [0]) == [Claim(0, row.signature)];
    assert QueuedIds(s.rows) == {0};
  }

  lemma Accepts(s: Polls, p: PollId, row: Row, claim: Claim)
    requires s.rows == map[0 := row] && row.status == Queued && claim.id == 0
    requires p in s.answers && s.answers[p].updatedAt == None && s.answers[p].batch == [claim]
    ensures CanStep(s, UpdateRows(p))
    ensures Go(s, UpdateRows(p))
            == s.(rows := map[0 := row.(status := Accepted)],
                  answers := s.answers[p := s.answers[p].(updatedAt := Some(s.now))], now := s.now + 1)
  {
    assert [claim][0].id == 0;
  }

  lemma AcceptsNothing(s: Polls, p: PollId, row: Row, claim: Claim)
    requires s.rows == map[0 := row.(status := Accepted)]
    requires p in s.answers && s.answers[p].updatedAt == None && s.answers[p].batch == [claim]
    ensures CanStep(s, UpdateRows(p))
    ensures Go(s, UpdateRows(p))
            == s.(answers := s.answers[p := s.answers[p].(updatedAt := Some(s.now))], now := s.now + 1)
  {}

  lemma HandsOut(s: Polls, p: PollId, claim: Claim)
    requires p in s.answers && s.answers[p].updatedAt.Some? && !s.answers[p].out && s.answers[p].batch == [claim]
    ensures CanStep(s, Respond(p))
    ensures Go(s, Respond(p))
            == s.(answers := s.answers[p := s.answers[p].(out := true)], handed := s.handed + [HandOut(p, claim)],
                  now := s.now + 1)
  {
    assert Tagged(p, [claim]) == [HandOut(p, claim)];
  }
}
