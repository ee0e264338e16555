// Exactly-once ingestion: any interleaving of concurrent, repeated and failing deliveries over the
// projection and the audit collection with its unique index on event ids.
module Ingestion {
  import opened Bytes
  import opened Projection
  import Rollback

  datatype Processing = PROCESSED_APPLIED | PROCESSED_IGNORED | FAILED

  datatype Record = Record(event: Event, status: Processing)

  // ---- The audit collection ----

  function Lookup(rs: seq<Record>, id: EventId): Option<Record> {
    if rs == [] then None else if rs[0].event.id == id then Some(rs[0]) else Lookup(rs[1..], id)
  }

  predicate IsFailedFor(r: Record, id: EventId) {
    r.event.id == id && r.status == FAILED
  }

  // The dedupe query: a record for this id that is not FAILED.
  function FindProcessed(rs: seq<Record>, id: EventId): bool {
    exists i :: 0 <= i < |rs| && rs[i].event.id == id && rs[i].status != FAILED
  }

  function DeleteFailed(rs: seq<Record>, id: EventId): seq<Record> {
    if rs == [] then []
    else if IsFailedFor(rs[0], id) then rs[1..]
    else [rs[0]] + DeleteFailed(rs[1..], id)
  }

  // An insert collides when the unique index already holds the id.
  function Insert(rs: seq<Record>, r: Record): Option<seq<Record>> {
    if exists i :: 0 <= i < |rs| && rs[i].event.id == r.event.id then None else Some(rs + [r])
  }

  function ReplaceFailed(rs: seq<Record>, r: Record): seq<Record> {
    if rs == [] then []
    else if IsFailedFor(rs[0], r.event.id) then [r] + rs[1..]
    else [rs[0]] + ReplaceFailed(rs[1..], r)
  }

  // Rewrites the FAILED record or inserts one; a colliding insert is logged and dropped.
  function RecordFailed(rs: seq<Record>, e: Event): seq<Record> {
    var r := Record(e, FAILED);
    if exists i :: 0 <= i < |rs| && IsFailedFor(rs[i], e.id) then ReplaceFailed(rs, r)
    else match Insert(rs, r)
      case None => rs
      case Some(grown) => grown
  }

  ghost predicate Unique(rs: seq<Record>) {
    forall i, j :: 0 <= i < j < |rs| ==> rs[i].event.id != rs[j].event.id
  }

  lemma {:induction false} LookupMeaning(rs: seq<Record>, id: EventId)
    requires Unique(rs)
    ensures Lookup(rs, id).Some? ==> Lookup(rs, id).value in rs && Lookup(rs, id).value.event.id == id
    ensures forall i :: 0 <= i < |rs| && rs[i].event.id == id ==> Lookup(rs, id) == Some(rs[i])
  {
    if rs != [] {
      LookupMeaning(rs[1..], id);
      assert forall i :: 0 < i < |rs| ==> rs[i] == rs[1..][i - 1];
    }
  }

  lemma {:induction false} DeleteFailedEffect(rs: seq<Record>, id: EventId)
    requires Unique(rs)
    ensures Unique(DeleteFailed(rs, id))
    ensures forall r :: r in DeleteFailed(rs, id) <==> r in rs && !IsFailedFor(r, id)
  {
    if rs != [] {
      DeleteFailedEffect(rs[1..], id);
      assert forall r :: r in DeleteFailed(rs[1..], id) ==> r in rs[1..];
      assert forall r :: r in rs[1..] ==> r.event.id != rs[0].event.id;
      assert forall r :: r in rs <==> r == rs[0] || r in rs[1..];
      assert forall i :: 0 < i < |rs| ==> rs[i] == rs[1..][i - 1];
    }
  }

  lemma {:induction false} ReplaceFailedEffect(rs: seq<Record>, r: Record)
    requires Unique(rs) && exists i :: 0 <= i < |rs| && IsFailedFor(rs[i], r.event.id)
    ensures Unique(ReplaceFailed(rs, r))
    ensures forall q :: q in ReplaceFailed(rs, r) <==> q == r || (q in rs && q.event.id != r.event.id)
  {
    var i :| 0 <= i < |rs| && IsFailedFor(rs[i], r.event.id);
    assert forall k :: 0 < k < |rs| ==> rs[k] == rs[1..][k - 1];
    assert forall q :: q in rs <==> q == rs[0] || q in rs[1..];
    if i > 0 {
      assert IsFailedFor(rs[1..][i - 1], r.event.id);
      ReplaceFailedEffect(rs[1..], r);
    }
  }

  // Replacing rewrites the first FAILED record for the id in place.
  lemma {:induction false} ReplaceFailedAt(rs: seq<Record>, r: Record, i: nat)
    requires i < |rs| && IsFailedFor(rs[i], r.event.id) && forall j :: 0 <= j < i ==> !IsFailedFor(rs[j], r.event.id)
    ensures ReplaceFailed(rs, r) == rs[i := r]
  {
    if i > 0 {
      assert forall j :: 0 <= j < i - 1 ==> rs[1..][j] == rs[j + 1];
      ReplaceFailedAt(rs[1..], r, i - 1);
      assert rs[i := r] == [rs[0]] + rs[1..][i - 1 := r];
    } else {
      assert rs[0 := r] == [r] + rs[1..];
    }
  }

  // An audited failure never displaces a processed record, leaves all other ids alone, and is on record
  // unless its event was already processed.
  lemma RecordFailedEffect(rs: seq<Record>, e: Event)
    requires Unique(rs)
    ensures var t := RecordFailed(rs, e);
      && Unique(t)
      && (forall q: Record :: q.event.id != e.id ==> (q in t <==> q in rs))
      && (forall q :: q in rs && q.status != FAILED ==> q in t)
      && (FindProcessed(rs, e.id) ==> t == rs)
      && (!FindProcessed(rs, e.id) ==> Record(e, FAILED) in t)
  {
    if exists i :: 0 <= i < |rs| && IsFailedFor(rs[i], e.id) {
      ReplaceFailedEffect(rs, Record(e, FAILED));
      var i :| 0 <= i < |rs| && IsFailedFor(rs[i], e.id);
      assert forall q :: q in rs && q.event.id == e.id ==> q == rs[i];
      assert !FindProcessed(rs, e.id);
    }
  }

  // ---- Deliveries ----

  datatype Answer = AnsweredApplied | AnsweredIgnored | AnsweredDuplicate | AnsweredError

  datatype Phase = Received | Unseen | InTransaction | AuditDue | Done(answer: Answer)

  datatype Delivery = Delivery(event: Event, phase: Phase)

  // The database, the deliveries in flight, and the events committed so far.
  datatype State = State(records: seq<Record>, store: Store, deliveries: seq<Delivery>, committed: seq<Event>)

  datatype Action =
    | Receive(event: Event)
    | CheckDuplicate(d: nat)
    | VerifyPasses(d: nat)
    | VerifyRejects(d: nat)
    | VerifyRetryable(d: nat)
    | Commit(d: nat)
    | Abort(d: nat)
    | Audit(d: nat)
    | AuditLost(d: nat)

  const Start := State([], EmptyStore, [], [])

  predicate At(s: State, d: nat, phase: Phase) {
    d < |s.deliveries| && s.deliveries[d].phase == phase
  }

  function Move(s: State, d: nat, phase: Phase): State
    requires d < |s.deliveries|
  {
    s.(deliveries := s.deliveries[d := s.deliveries[d].(phase := phase)])
  }

  function StatusOf(o: Outcome): Processing {
    if o.Applied? then PROCESSED_APPLIED else PROCESSED_IGNORED
  }

  // One transaction: the projection update and the dedupe record commit together or not at all.
  function CommitStep(s: State, d: nat): State
    requires d < |s.deliveries|
  {
    var e := s.deliveries[d].event;
    match ApplyEvent(s.store, e)
    case Thrown(_) => Move(s, d, AuditDue)
    case outcome =>
      var status := StatusOf(outcome);
      match Insert(DeleteFailed(s.records, e.id), Record(e, status))
      case None => Move(s, d, Done(AnsweredDuplicate))
      case Some(records) =>
        Move(State(records, After(s.store, outcome), s.deliveries, s.committed + [e]), d,
             Done(if outcome.Applied? then AnsweredApplied else AnsweredIgnored))
  }

  // Each action is one atomic database step; an action whose delivery is elsewhere does nothing.
  function Next(s: State, a: Action): State {
    match a
    case Receive(e) => s.(deliveries := s.deliveries + [Delivery(e, Received)])
    case CheckDuplicate(d) =>
      if !At(s, d, Received) then s
      else if FindProcessed(s.records, s.deliveries[d].event.id) then Move(s, d, Done(AnsweredDuplicate))
      else Move(s, d, Unseen)
    case VerifyPasses(d) => if At(s, d, Unseen) then Move(s, d, InTransaction) else s
    case VerifyRejects(d) => if At(s, d, Unseen) then Move(s, d, AuditDue) else s
    case VerifyRetryable(d) => if At(s, d, Unseen) then Move(s, d, Done(AnsweredError)) else s
    case Commit(d) => if At(s, d, InTransaction) then CommitStep(s, d) else s
    case Abort(d) => if At(s, d, InTransaction) then Move(s, d, AuditDue) else s
    case Audit(d) =>
      if !At(s, d, AuditDue) then s
      else Move(s.(records := RecordFailed(s.records, s.deliveries[d].event)), d, Done(AnsweredError))
    case AuditLost(d) => if At(s, d, AuditDue) then Move(s, d, Done(AnsweredError)) else s
  }

  function Run(s: State, actions: seq<Action>): State {
    if actions == [] then s else Next(Run(s, actions[..|actions| - 1]), actions[|actions| - 1])
  }

  function Fold(s: Store, events: seq<Event>): Store {
    if events == [] then s
    else
      var before := Fold(s, events[..|events| - 1]);
      After(before, ApplyEvent(before, events[|events| - 1]))
  }

  // ---- The invariant ----

  ghost predicate Committed(s: State, id: EventId) {
    exists k :: 0 <= k < |s.committed| && s.committed[k].id == id
  }

  // The k-th committed event is on record with the status its own application had.
  ghost predicate OnRecord(s: State, k: nat)
    requires k < |s.committed|
  {
    var outcome := ApplyEvent(Fold(EmptyStore, s.committed[..k]), s.committed[k]);
    !outcome.Thrown?
    && Record(s.committed[k], StatusOf(outcome)) in s.records
  }

  ghost predicate Consistent(s: State) {
    && Unique(s.records)
    && (forall i, j :: 0 <= i < j < |s.committed| ==> s.committed[i].id != s.committed[j].id)
    && s.store == Fold(EmptyStore, s.committed)
    && (forall k :: 0 <= k < |s.committed| ==> OnRecord(s, k))
    && (forall r :: r in s.records && r.status != FAILED ==> r.event in s.committed)
  }

  lemma CommittedIsProcessed(s: State, id: EventId)
    requires Consistent(s) && Committed(s, id)
    ensures FindProcessed(s.records, id)
  {
    var k :| 0 <= k < |s.committed| && s.committed[k].id == id;
    assert OnRecord(s, k);
  }

  lemma FoldSnoc(events: seq<Event>, e: Event)
    ensures Fold(EmptyStore, events + [e]) == After(Fold(EmptyStore, events), ApplyEvent(Fold(EmptyStore, events), e))
  {
    assert (events + [e])[..|events|] == events;
  }

  // After dropping a FAILED record the insert succeeds exactly when the id was never committed.
  lemma InsertMeansFresh(s: State, e: Event, status: Processing)
    requires Consistent(s)
    ensures Insert(DeleteFailed(s.records, e.id), Record(e, status)).Some? <==> !Committed(s, e.id)
  {
    DeleteFailedEffect(s.records, e.id);
    var kept := DeleteFailed(s.records, e.id);
    if Committed(s, e.id) {
      CommittedIsProcessed(s, e.id);
      var i :| 0 <= i < |s.records| && s.records[i].event.id == e.id && s.records[i].status != FAILED;
      assert s.records[i] in kept;
    } else {
      assert forall r :: r in kept && r.event.id == e.id ==> r.event in s.committed;
    }
  }

  lemma FoldKeepsRecords(s: State, t: State, e: Event)
    requires Consistent(s) && t.committed == s.committed + [e] && !Committed(s, e.id)
    requires forall r :: r in s.records && r.status != FAILED ==> r in t.records
    requires !ApplyEvent(s.store, e).Thrown?
    requires Record(e, StatusOf(ApplyEvent(s.store, e))) in t.records
    ensures forall k :: 0 <= k < |t.committed| ==> OnRecord(t, k)
  {
    forall k | 0 <= k < |t.committed|
      ensures OnRecord(t, k)
    {
      if k < |s.committed| {
        assert OnRecord(s, k);
        assert t.committed[..k] == s.committed[..k] && t.committed[k] == s.committed[k];
      } else {
        assert t.committed[..k] == s.committed;
      }
    }
  }

  lemma RecordsOnly(s: State, t: State)
    requires Consistent(s) && t.records == s.records && t.store == s.store && t.committed == s.committed
    ensures Consistent(t)
  {
    forall k | 0 <= k < |t.committed|
      ensures OnRecord(t, k)
    {
      assert OnRecord(s, k);
    }
  }

  // One more committed event, recorded in place of its FAILED record.
  lemma GrowKeeps(s: State, t: State, e: Event)
    requires Consistent(s) && !Committed(s, e.id) && !ApplyEvent(s.store, e).Thrown?
    requires t.records == DeleteFailed(s.records, e.id) + [Record(e, StatusOf(ApplyEvent(s.store, e)))]
    requires forall r :: r in DeleteFailed(s.records, e.id) <==> r in s.records && !IsFailedFor(r, e.id)
    requires Unique(t.records)
    requires t.committed == s.committed + [e] && t.store == After(s.store, ApplyEvent(s.store, e))
    ensures Consistent(t)
  {
    FoldSnoc(s.committed, e);
    FoldKeepsRecords(s, t, e);
    forall r | r in t.records && r.status != FAILED
      ensures r.event in t.committed
    {
      assert t.committed[|s.committed|] == e;
    }
  }

  lemma CommitGrows(s: State, d: nat)
    requires Consistent(s) && At(s, d, InTransaction)
    requires var e := s.deliveries[d].event; !ApplyEvent(s.store, e).Thrown? && !Committed(s, e.id)
    ensures Consistent(CommitStep(s, d))
  {
    var e := s.deliveries[d].event;
    var r := Record(e, StatusOf(ApplyEvent(s.store, e)));
    InsertMeansFresh(s, e, r.status);
    DeleteFailedEffect(s.records, e.id);
    GrowKeeps(s, CommitStep(s, d), e);
  }

  lemma CommitKeeps(s: State, d: nat)
    requires Consistent(s) && At(s, d, InTransaction)
    ensures Consistent(CommitStep(s, d))
  {
    var e := s.deliveries[d].event;
    var outcome := ApplyEvent(s.store, e);
    if outcome.Thrown? || Committed(s, e.id) {
      InsertMeansFresh(s, e, StatusOf(outcome));
      RecordsOnly(s, CommitStep(s, d));
    } else {
      CommitGrows(s, d);
    }
  }

  lemma AuditKeeps(s: State, d: nat)
    requires Consistent(s) && At(s, d, AuditDue)
    ensures Consistent(s.(records := RecordFailed(s.records, s.deliveries[d].event)))
    ensures forall r :: r in s.records && r.status != FAILED ==> r in RecordFailed(s.records, s.deliveries[d].event)
  {
    var e := s.deliveries[d].event;
    var t := s.(records := RecordFailed(s.records, e));
    if exists i :: 0 <= i < |s.records| && IsFailedFor(s.records[i], e.id) {
      ReplaceFailedEffect(s.records, Record(e, FAILED));
      assert forall r :: r in s.records && r.status != FAILED && r.event.id == e.id ==> false;
    }
    forall k | 0 <= k < |t.committed|
      ensures OnRecord(t, k)
    {
      assert OnRecord(s, k);
    }
  }

  lemma StepKeeps(s: State, a: Action)
    requires Consistent(s)
    ensures Consistent(Next(s, a))
  {
    match a
    case Commit(d) =>
      if At(s, d, InTransaction) {
        CommitKeeps(s, d);
      }
    case Audit(d) =>
      if At(s, d, AuditDue) {
        AuditKeeps(s, d);
        RecordsOnly(s.(records := RecordFailed(s.records, s.deliveries[d].event)), Next(s, a));
      }
    case _ => RecordsOnly(s, Next(s, a));
  }

  // Exactly once, under every interleaving: the projection is the fold of the committed events, each
  // event id is committed at most once and has at most one record, and it is on record as processed
  // exactly when it was committed.
  lemma {:induction false} ExactlyOnce(actions: seq<Action>)
    ensures var s := Run(Start, actions);
      && Consistent(s)
      && s.store == Fold(EmptyStore, s.committed)
      && (forall i, j :: 0 <= i < j < |s.committed| ==> s.committed[i].id != s.committed[j].id)
      && (forall i, j :: 0 <= i < j < |s.records| ==> s.records[i].event.id != s.records[j].event.id)
      && (forall id :: FindProcessed(s.records, id) <==> Committed(s, id))
  {
    if actions != [] {
      ExactlyOnce(actions[..|actions| - 1]);
      StepKeeps(Run(Start, actions[..|actions| - 1]), actions[|actions| - 1]);
    }
    var s := Run(Start, actions);
    forall id
      ensures FindProcessed(s.records, id) <==> Committed(s, id)
    {
      if Committed(s, id) {
        CommittedIsProcessed(s, id);
      }
    }
  }

  lemma {:induction false} FoldIsRun(events: seq<Event>)
    ensures Fold(EmptyStore, events) == Rollback.Run(EmptyStore, Rollback.Deliveries(events))
  {
    if events != [] {
      var n := |events| - 1;
      FoldIsRun(events[..n]);
      assert Rollback.Deliveries(events)[..n] == Rollback.Deliveries(events[..n]);
    }
  }

  // What concurrent ingestion leaves in the collections, however its steps interleave: if what it committed
  // respects D1 to D4, orders and trades agree, and the book is the one that replaying the applied events no
  // later reorg rolled back would build.
  lemma IngestedStateAgrees(legs: Rollback.Legs, actions: seq<Action>)
    requires Rollback.ValidRun(legs, EmptyStore, Rollback.Deliveries(Run(Start, actions).committed))
    ensures var s := Run(Start, actions);
      var steps := Rollback.Deliveries(s.committed);
      var replay := Rollback.Deliveries(Rollback.Survivors(Rollback.AppliedLog(EmptyStore, steps)));
      && Rollback.Agreement(legs, s.store)
      && Rollback.ValidRun(legs, EmptyStore, replay)
      && Rollback.BookOf(s.store) == Rollback.BookOf(Rollback.Run(EmptyStore, replay))
  {
    var committed := Run(Start, actions).committed;
    ExactlyOnce(actions);
    FoldIsRun(committed);
    Rollback.RunAgrees(legs, Rollback.Deliveries(committed));
    Rollback.RollbackEqualsReplay(legs, Rollback.Deliveries(committed));
  }

  // The k-th committed event, and how the collections answered it.
  ghost function AnswerAt(s: State, k: nat): Outcome
    requires k < |s.committed|
  {
    ApplyEvent(Fold(EmptyStore, s.committed[..k]), s.committed[k])
  }

  // The record of every committed event tells what became of it: applied or ignored, as the collections
  // answered it when it was committed; an event that threw was never committed.
  lemma RecordsTellOutcomes(actions: seq<Action>, k: nat)
    requires k < |Run(Start, actions).committed|
    ensures var s := Run(Start, actions);
      && !AnswerAt(s, k).Thrown?
      && (Record(s.committed[k], PROCESSED_APPLIED) in s.records <==> AnswerAt(s, k).Applied?)
      && (Record(s.committed[k], PROCESSED_IGNORED) in s.records <==> AnswerAt(s, k).Ignored?)
  {
    ExactlyOnce(actions);
    var s := Run(Start, actions);
    assert OnRecord(s, k);
  }

  // What a delivery in its transaction is answered, and what it leaves behind.
  lemma CommitAnswers(s: State, d: nat)
    requires Consistent(s) && At(s, d, InTransaction)
    ensures var e, t := s.deliveries[d].event, Next(s, Commit(d));
      var outcome := ApplyEvent(s.store, e);
      && (outcome.Thrown? ==> At(t, d, AuditDue) && t.store == s.store && t.committed == s.committed)
      && (!outcome.Thrown? && Committed(s, e.id) ==>
            At(t, d, Done(AnsweredDuplicate)) && t.store == s.store && t.committed == s.committed)
      && (!outcome.Thrown? && !Committed(s, e.id) ==>
            t.committed == s.committed + [e]
            && (outcome.Applied? ==> At(t, d, Done(AnsweredApplied)) && t.store == outcome.store)
            && (outcome.Ignored? ==> At(t, d, Done(AnsweredIgnored)) && t.store == s.store))
  {
    InsertMeansFresh(s, s.deliveries[d].event, StatusOf(ApplyEvent(s.store, s.deliveries[d].event)));
  }

  // Whatever else happens to a delivery touches neither the collections nor what was committed: it is checked,
  // verified, put off, refused or aborted, and what failed is audited, if that works, and answered as an error.
  lemma OtherStepsOnlyAudit(s: State, a: Action)
    requires !a.Commit?
    ensures var t := Next(s, a);
      && t.store == s.store && t.committed == s.committed
      && (!a.Audit? ==> t.records == s.records)
      && (!a.Receive? ==> |t.deliveries| == |s.deliveries|)
      && (a.Abort? && At(s, a.d, InTransaction) ==> At(t, a.d, AuditDue))
      && (a.VerifyRejects? && At(s, a.d, Unseen) ==> At(t, a.d, AuditDue))
      && (a.VerifyRetryable? && At(s, a.d, Unseen) ==> At(t, a.d, Done(AnsweredError)))
      && (a.AuditLost? && At(s, a.d, AuditDue) ==> At(t, a.d, Done(AnsweredError)))
      && (a.Audit? && At(s, a.d, AuditDue) ==>
            At(t, a.d, Done(AnsweredError)) && t.records == RecordFailed(s.records, s.deliveries[a.d].event))
  {
  }

  // A processed record is never rewritten or removed, by any later step.
  lemma ProcessedIsFinal(s: State, a: Action, r: Record)
    requires Consistent(s) && r in s.records && r.status != FAILED
    ensures r in Next(s, a).records && Lookup(Next(s, a).records, r.event.id) == Some(r)
  {
    StepKeeps(s, a);
    if a.Commit? && At(s, a.d, InTransaction) {
      DeleteFailedEffect(s.records, s.deliveries[a.d].event.id);
    } else if a.Audit? && At(s, a.d, AuditDue) {
      AuditKeeps(s, a.d);
    }
    LookupMeaning(Next(s, a).records, r.event.id);
  }

  lemma RunOfFour(s: State, a: Action, b: Action, c: Action, d: Action)
    ensures Run(s, [a, b, c, d]) == Next(Next(Next(Next(s, a), b), c), d)
  {
    assert [a][..0] == [] && [a, b][..1] == [a];
    assert [a, b, c][..2] == [a, b] && [a, b, c, d][..3] == [a, b, c];
    assert Run(s, [a]) == Next(s, a);
    assert Run(s, [a, b]) == Next(Next(s, a), b);
    assert Run(s, [a, b, c]) == Next(Next(Next(s, a), b), c);
  }

  // A delivery whose id is not on record as processed reaches its transaction once it verifies.
  lemma ReachesTransaction(s: State, e: Event)
    requires !FindProcessed(s.records, e.id)
    ensures var d := |s.deliveries|;
      Next(Next(Next(s, Receive(e)), CheckDuplicate(d)), VerifyPasses(d)) ==
      s.(deliveries := s.deliveries + [Delivery(e, InTransaction)])
  {
    var d := |s.deliveries|;
    var s1 := Next(s, Receive(e));
    var s2 := Next(s1, CheckDuplicate(d));
    assert s2.deliveries == s.deliveries + [Delivery(e, Unseen)];
    assert Next(s2, VerifyPasses(d)).deliveries == s.deliveries + [Delivery(e, InTransaction)];
  }

  // A FAILED record is no tombstone: delivering the event again processes it as soon as it verifies
  // and applies without throwing.
  lemma FailedCanStillBeProcessed(s: State, e: Event)
    requires Consistent(s) && !Committed(s, e.id) && !ApplyEvent(s.store, e).Thrown?
    ensures var d := |s.deliveries|;
      var t := Run(s, [Receive(e), CheckDuplicate(d), VerifyPasses(d), Commit(d)]);
      t.committed == s.committed + [e] && t.store == After(s.store, ApplyEvent(s.store, e))
        && FindProcessed(t.records, e.id)
  {
    var d := |s.deliveries|;
    assert !FindProcessed(s.records, e.id) by {
      assert forall i :: 0 <= i < |s.records| && s.records[i].status != FAILED ==> s.records[i].event in s.committed;
    }
    ReachesTransaction(s, e);
    RunOfFour(s, Receive(e), CheckDuplicate(d), VerifyPasses(d), Commit(d));
    CommitFresh(s, s.(deliveries := s.deliveries + [Delivery(e, InTransaction)]), d);
  }

  // What a commit does once its insert succeeds.
  lemma CommitInserts(t: State, d: nat)
    requires At(t, d, InTransaction) && !ApplyEvent(t.store, t.deliveries[d].event).Thrown?
    requires var e := t.deliveries[d].event;
      Insert(DeleteFailed(t.records, e.id), Record(e, StatusOf(ApplyEvent(t.store, e)))).Some?
    ensures var e := t.deliveries[d].event;
      var u := Next(t, Commit(d));
      && u.records == DeleteFailed(t.records, e.id) + [Record(e, StatusOf(ApplyEvent(t.store, e)))]
      && u.store == After(t.store, ApplyEvent(t.store, e)) && u.committed == t.committed + [e]
  {
  }

  lemma CommitFresh(s: State, t: State, d: nat)
    requires Consistent(s) && t.records == s.records && t.store == s.store && t.committed == s.committed
    requires At(t, d, InTransaction) && !Committed(s, t.deliveries[d].event.id)
      && !ApplyEvent(s.store, t.deliveries[d].event).Thrown?
    ensures var e := t.deliveries[d].event;
      var u := Next(t, Commit(d));
      u.committed == s.committed + [e] && u.store == After(s.store, ApplyEvent(s.store, e))
        && FindProcessed(u.records, e.id)
  {
    var e := t.deliveries[d].event;
    var kept, r := DeleteFailed(s.records, e.id), Record(e, StatusOf(ApplyEvent(s.store, e)));
    InsertMeansFresh(s, e, r.status);
    CommitInserts(t, d);
    assert (kept + [r])[|kept|] == r;
  }

  // ---- The service: one delivery that nothing interrupts ----

  datatype Check = ChecksOut | Refuted | TryLater

  function CheckAction(c: Check): Action {
    match c
    case ChecksOut => VerifyPasses(0)
    case Refuted => VerifyRejects(0)
    case TryLater => VerifyRetryable(0)
  }

  // The schedule of a lone delivery; steps that do not apply to its phase do nothing.
  function Alone(records: seq<Record>, store: Store, e: Event, c: Check): State {
    Next(Next(Next(Next(Next(State(records, store, [], []), Receive(e)), CheckDuplicate(0)), CheckAction(c)),
              Commit(0)), Audit(0))
  }

  // Where a lone delivery ends, case by case.
  lemma AloneEnds(records: seq<Record>, store: Store, e: Event, c: Check)
    ensures var t := Alone(records, store, e, c);
      var outcome := ApplyEvent(store, e);
      var inserted := Insert(DeleteFailed(records, e.id), Record(e, StatusOf(outcome)));
      && |t.deliveries| == 1 && t.deliveries[0].event == e
      && (FindProcessed(records, e.id) ==>
            t.records == records && t.store == store && t.deliveries[0].phase == Done(AnsweredDuplicate))
      && (!FindProcessed(records, e.id) ==> match c
            case TryLater => t.records == records && t.store == store && t.deliveries[0].phase == Done(AnsweredError)
            case Refuted => t.records == RecordFailed(records, e) && t.store == store
              && t.deliveries[0].phase == Done(AnsweredError)
            case ChecksOut =>
              if outcome.Thrown? then
                t.records == RecordFailed(records, e) && t.store == store
                  && t.deliveries[0].phase == Done(AnsweredError)
              else if inserted.None? then
                t.records == records && t.store == store && t.deliveries[0].phase == Done(AnsweredDuplicate)
              else
                t.records == inserted.value && t.store == After(store, outcome)
                && t.deliveries[0].phase == Done(if outcome.Applied? then AnsweredApplied else AnsweredIgnored))
  {
    var s0 := State(records, store, [], []);
    var s1 := Next(s0, Receive(e));
    var s2 := Next(s1, CheckDuplicate(0));
    var s3 := Next(s2, CheckAction(c));
    var s4 := Next(s3, Commit(0));
    assert s3.records == records && s3.store == store && |s3.deliveries| == 1 && s3.deliveries[0].event == e;
    assert Alone(records, store, e, c) == Next(s4, Audit(0));
  }

  class IngestionService {
    var records: seq<Record>
    const projection: Collections

    constructor ()
      ensures records == [] && fresh(projection) && projection.Contents() == EmptyStore
    {
      records := [];
      projection := new Collections();
    }

    // The FAILED record is rewritten where it is; without one, an insert that the unique index may refuse.
    method AuditFailure(e: Event)
      modifies this`records
      ensures records == RecordFailed(old(records), e)
      ensures Unique(old(records)) ==>
        && Unique(records)
        && (forall q :: q in old(records) && q.status != FAILED ==> q in records)
        && (FindProcessed(old(records), e.id) ==> records == old(records))
        && (!FindProcessed(old(records), e.id) ==> Record(e, FAILED) in records)
    {
      ghost var before := records;
      var i := 0;
      while i < |records| && !IsFailedFor(records[i], e.id)
        invariant 0 <= i <= |records| && records == before
        invariant forall j :: 0 <= j < i ==> !IsFailedFor(records[j], e.id)
      {
        i := i + 1;
      }
      if i < |records| {
        ReplaceFailedAt(records, Record(e, FAILED), i);
        records := records[i := Record(e, FAILED)];
      } else {
        i := 0;
        while i < |records| && records[i].event.id != e.id
          invariant 0 <= i <= |records| && records == before
          invariant forall j :: 0 <= j < i ==> records[j].event.id != e.id
        {
          i := i + 1;
        }
        if i == |records| {
          records := records + [Record(e, FAILED)];
        }
      }
      assert records == RecordFailed(before, e);
      if Unique(before) {
        RecordFailedEffect(before, e);
      }
    }

    // Ingests one event; the verifier's verdict on it is a parameter.
    method Ingest(e: Event, check: Check) returns (answer: Answer)
      modifies this`records, projection
      ensures var t := Alone(old(records), old(projection.Contents()), e, check);
        && records == t.records && projection.Contents() == t.store
        && t.deliveries[0] == Delivery(e, Done(answer))
    {
      AloneEnds(records, projection.Contents(), e, check);
      if FindProcessed(records, e.id) {
        return AnsweredDuplicate;
      }
      match check {
        case TryLater => return AnsweredError;
        case Refuted =>
          AuditFailure(e);
          return AnsweredError;
        case ChecksOut =>
      }
      var orders, trades := projection.orders, projection.trades;
      var applied := projection.Apply(e);
      if applied.THROWN? {
        AuditFailure(e);
        return AnsweredError;
      }
      var status := if applied.APPLIED? then PROCESSED_APPLIED else PROCESSED_IGNORED;
      match Insert(DeleteFailed(records, e.id), Record(e, status)) {
        case None =>
          projection.orders, projection.trades := orders, trades; // the transaction aborts
          return AnsweredDuplicate;
        case Some(grown) =>
          records := grown;
          return if applied.APPLIED? then AnsweredApplied else AnsweredIgnored;
      }
    }
  }
}
