// The faucet's claim protocol: reserve, fund, send, then commit or release, as atomic database steps
// that any number of concurrent claims interleave.
module Claims {
  import opened Bytes
  import opened Sums

  type LockHash = string

  const DAY_MS := 86_400_000

  function DayOf(now: nat): nat {
    now / DAY_MS
  }

  datatype Limits = Limits(cooldown: nat, timeout: nat, drip: nat, maxClaims: nat, maxTokens: nat)

  // What the constructor and the configuration enforce at startup.
  predicate ValidLimits(l: Limits) {
    l.drip <= l.maxTokens && l.maxClaims > 0
  }

  datatype ClaimStatus = RESERVED | SENT

  // A legacy document may have no status.
  datatype ClaimDoc = ClaimDoc(
    status: Option<ClaimStatus>, reservedAt: Option<nat>, reservationId: Option<nat>,
    lastClaimedAt: Option<nat>, claimCount: nat, lastTx: Option<string>)

  datatype Budget = Budget(claims: int, tokens: int)

  datatype Db = Db(claims: map<LockHash, ClaimDoc>, budgets: map<nat, Budget>)

  datatype Reservation = Reservation(lockHash: LockHash, id: nat, day: nat, hadPrevious: bool,
                                     previousStatus: Option<ClaimStatus>)

  // ---- The atomic operations ----

  predicate Reservable(l: Limits, c: ClaimDoc, now: nat) {
    || (c.status != Some(RESERVED) && (c.lastClaimedAt.Some? ==> c.lastClaimedAt.value <= now - l.cooldown))
    || (c.status == Some(RESERVED) && c.reservedAt.Some? && c.reservedAt.value <= now - l.timeout)
  }

  function ReservedDoc(previous: Option<ClaimDoc>, now: nat, id: nat): ClaimDoc {
    match previous
    case None => ClaimDoc(Some(RESERVED), Some(now), Some(id), None, 0, None)
    case Some(c) => c.(status := Some(RESERVED), reservedAt := Some(now), reservationId := Some(id))
  }

  function Previous(db: Db, lockHash: LockHash): Option<ClaimDoc> {
    if lockHash in db.claims then Some(db.claims[lockHash]) else None
  }

  // The reserving upsert: a document that exists but does not match collides with the insert.
  function ReserveClaim(l: Limits, db: Db, lockHash: LockHash, now: nat, id: nat): Option<Db> {
    var previous := Previous(db, lockHash);
    if previous.Some? && !Reservable(l, previous.value, now) then None
    else Some(db.(claims := db.claims[lockHash := ReservedDoc(previous, now, id)]))
  }

  function ReservationFor(db: Db, lockHash: LockHash, now: nat, id: nat): Reservation {
    var previous := Previous(db, lockHash);
    Reservation(lockHash, id, DayOf(now), previous.Some?, if previous.Some? then previous.value.status else None)
  }

  // The budget upsert: the first claim of a day inserts the document whatever the guard says.
  function TakeBudget(l: Limits, db: Db, day: nat): Option<Db> {
    if day !in db.budgets then Some(db.(budgets := db.budgets[day := Budget(1, l.drip)]))
    else
      var b := db.budgets[day];
      if b.claims < l.maxClaims && b.tokens <= l.maxTokens - l.drip then
        Some(db.(budgets := db.budgets[day := Budget(b.claims + 1, b.tokens + l.drip)]))
      else None
  }

  // Whether the claim document is still held by this reservation.
  predicate Holds(db: Db, r: Reservation) {
    r.lockHash in db.claims && db.claims[r.lockHash].reservationId == Some(r.id)
  }

  function RestoreClaim(db: Db, r: Reservation): Db {
    if !Holds(db, r) then db
    else if !r.hadPrevious then db.(claims := db.claims - {r.lockHash})
    else db.(claims := db.claims[r.lockHash := db.claims[r.lockHash].(
      status := Some(if r.previousStatus.Some? then r.previousStatus.value else SENT),
      reservedAt := None, reservationId := None)])
  }

  function GiveBack(l: Limits, db: Db, day: nat): Db {
    if day !in db.budgets then db
    else db.(budgets := db.budgets[day := Budget(db.budgets[day].claims - 1, db.budgets[day].tokens - l.drip)])
  }

  function CommitClaim(db: Db, r: Reservation, tx: string, now: nat): Db {
    if !Holds(db, r) then db
    else
      var c := db.claims[r.lockHash];
      db.(claims := db.claims[r.lockHash := ClaimDoc(Some(SENT), None, None, Some(now), c.claimCount + 1, Some(tx))])
  }

  // ---- The store ----

  datatype ClaimError = InProgress | TryAgainIn(seconds: nat) | DailyLimit

  // Seconds until a rejected caller's cooldown ends, rounded up, never less than one.
  function RetryAfter(l: Limits, lastClaimedAt: Option<nat>, now: nat): nat {
    var claimedAt := if lastClaimedAt.Some? then lastClaimedAt.value else now;
    var ms := claimedAt + l.cooldown - now;
    if ms <= 1000 then 1 else (ms + 999) / 1000
  }

  class ClaimStore {
    const limits: Limits
    var claims: map<LockHash, ClaimDoc>
    var budgets: map<nat, Budget>

    constructor (limits: Limits)
      ensures this.limits == limits && Contents() == Db(map[], map[])
    {
      this.limits := limits;
      claims, budgets := map[], map[];
    }

    // Refuses limits under which not even one drip fits into a day.
    static method Open(limits: Limits) returns (store: Option<ClaimStore>)
      ensures store.Some? <==> limits.drip <= limits.maxTokens
      ensures store.Some? ==>
        fresh(store.value) && store.value.limits == limits && store.value.Contents() == Db(map[], map[])
    {
      if limits.maxTokens < limits.drip {
        return None;
      }
      var created := new ClaimStore(limits);
      return Some(created);
    }

    function Contents(): Db
      reads this
    {
      Db(claims, budgets)
    }

    method Rejection(lockHash: LockHash, now: nat) returns (e: ClaimError)
      ensures lockHash in claims && claims[lockHash].status == Some(RESERVED) ==> e == InProgress
      ensures lockHash in claims && claims[lockHash].status != Some(RESERVED) ==>
        e == TryAgainIn(RetryAfter(limits, claims[lockHash].lastClaimedAt, now))
    {
      if lockHash in claims && claims[lockHash].status == Some(RESERVED) {
        return InProgress;
      }
      e := TryAgainIn(RetryAfter(limits, if lockHash in claims then claims[lockHash].lastClaimedAt else None, now));
    }

    method TakeBudgetFor(day: nat) returns (ok: bool)
      modifies this`budgets
      ensures ok == TakeBudget(limits, old(Contents()), day).Some?
      ensures Contents() == if ok then TakeBudget(limits, old(Contents()), day).value else old(Contents())
    {
      if day !in budgets {
        budgets := budgets[day := Budget(1, limits.drip)];
        return true;
      }
      var b := budgets[day];
      ok := b.claims < limits.maxClaims && b.tokens <= limits.maxTokens - limits.drip;
      if ok {
        budgets := budgets[day := Budget(b.claims + 1, b.tokens + limits.drip)];
      }
    }

    method Restore(r: Reservation)
      modifies this`claims
      ensures Contents() == RestoreClaim(old(Contents()), r)
    {
      if r.lockHash !in claims || claims[r.lockHash].reservationId != Some(r.id) {
        return;
      }
      if !r.hadPrevious {
        claims := claims - {r.lockHash};
        return;
      }
      var c := claims[r.lockHash].(status := Some(if r.previousStatus.Some? then r.previousStatus.value else SENT));
      c := c.(reservedAt := None, reservationId := None);
      claims := claims[r.lockHash := c];
    }

    // Cooldown first, budget second: a caller inside its cooldown never touches the budget, and one
    // refused by the budget leaves its claim as it was.
    method Reserve(lockHash: LockHash, now: nat, id: nat) returns (r: Result<Reservation, ClaimError>)
      modifies this
      ensures var before := old(Contents());
        var reserved := ReserveClaim(limits, before, lockHash, now, id);
        var reservation := ReservationFor(before, lockHash, now, id);
        if reserved.None? then
          Contents() == before && r == Err(if before.claims[lockHash].status == Some(RESERVED) then InProgress
                                           else
                                             TryAgainIn(RetryAfter(limits, before.claims[lockHash].lastClaimedAt, now)))
        else if TakeBudget(limits, reserved.value, DayOf(now)).None? then
          r == Err(DailyLimit) && Contents() == RestoreClaim(reserved.value, reservation)
        else
          r == Ok(reservation) && Contents() == TakeBudget(limits, reserved.value, DayOf(now)).value
    {
      var previous := if lockHash in claims then Some(claims[lockHash]) else None;
      if previous.Some? && !Reservable(limits, previous.value, now) {
        var e := Rejection(lockHash, now);
        return Err(e);
      }
      claims := claims[lockHash := ReservedDoc(previous, now, id)];
      var reservation := Reservation(lockHash, id, DayOf(now), previous.Some?,
                                     if previous.Some? then previous.value.status else None);
      var funded := TakeBudgetFor(reservation.day);
      if !funded {
        Restore(reservation);
        return Err(DailyLimit);
      }
      r := Ok(reservation);
    }

    method Commit(r: Reservation, tx: string, now: nat)
      modifies this`claims
      ensures Contents() == CommitClaim(old(Contents()), r, tx, now)
    {
      if r.lockHash in claims && claims[r.lockHash].reservationId == Some(r.id) {
        var c := claims[r.lockHash];
        c := c.(status := Some(SENT), lastClaimedAt := Some(now), lastTx := Some(tx));
        c := c.(reservedAt := None, reservationId := None);
        c := c.(claimCount := c.claimCount + 1);
        claims := claims[r.lockHash := c];
      }
    }

    method Release(r: Reservation)
      modifies this
      ensures Contents() == GiveBack(limits, RestoreClaim(old(Contents()), r), r.day)
    {
      Restore(r);
      if r.day in budgets {
        budgets := budgets[r.day := Budget(budgets[r.day].claims - 1, budgets[r.day].tokens - limits.drip)];
      }
    }
  }

  // A rejected caller that waits the announced seconds is past its cooldown; one second less is too
  // early unless a single second was announced.
  lemma RetryAfterIsTight(l: Limits, c: ClaimDoc, now: nat)
    requires c.status != Some(RESERVED) && !Reservable(l, c, now)
    ensures Reservable(l, c, now + 1000 * RetryAfter(l, c.lastClaimedAt, now))
    ensures RetryAfter(l, c.lastClaimedAt, now) > 1 ==>
      !Reservable(l, c, now + 1000 * (RetryAfter(l, c.lastClaimedAt, now) - 1))
  {
  }

  // Who can reserve: anyone new to the faucet; with a claim behind them, after the cooldown; with a
  // reservation in progress, once it is as old as the timeout, and never when it carries no time.
  lemma ReservableIff(l: Limits, db: Db, lockHash: LockHash, now: nat, id: nat)
    ensures lockHash !in db.claims ==> ReserveClaim(l, db, lockHash, now, id).Some?
    ensures lockHash in db.claims && db.claims[lockHash].status == Some(RESERVED) ==>
      var since := db.claims[lockHash].reservedAt;
      ReserveClaim(l, db, lockHash, now, id).Some? <==> since.Some? && now >= since.value + l.timeout
    ensures lockHash in db.claims && db.claims[lockHash].status != Some(RESERVED) ==>
      var last := db.claims[lockHash].lastClaimedAt;
      ReserveClaim(l, db, lockHash, now, id).Some? <==> last.None? || now >= last.value + l.cooldown
  {
  }

  // What a reservation writes: who holds the document since when, and nothing else.
  lemma ReservationIsWritten(l: Limits, db: Db, lockHash: LockHash, now: nat, id: nat)
    requires ReserveClaim(l, db, lockHash, now, id).Some?
    ensures var after := ReserveClaim(l, db, lockHash, now, id).value;
      && after.budgets == db.budgets && after.claims.Keys == db.claims.Keys + {lockHash}
      && (forall k <- db.claims :: k != lockHash ==> after.claims[k] == db.claims[k])
      && after.claims[lockHash].status == Some(RESERVED) && after.claims[lockHash].reservedAt == Some(now)
      && after.claims[lockHash].reservationId == Some(id)
      && (lockHash in db.claims ==>
            after.claims[lockHash].lastClaimedAt == db.claims[lockHash].lastClaimedAt
            && after.claims[lockHash].claimCount == db.claims[lockHash].claimCount
            && after.claims[lockHash].lastTx == db.claims[lockHash].lastTx)
      && (lockHash !in db.claims ==>
            after.claims[lockHash].lastClaimedAt.None? && after.claims[lockHash].claimCount == 0
            && after.claims[lockHash].lastTx.None?)
  {
  }

  // A committed claim starts the cooldown: the recipient can reserve again exactly when it is over.
  lemma CommitStartsCooldown(l: Limits, db: Db, r: Reservation, tx: string, now: nat, later: nat, id: nat)
    requires Holds(db, r)
    ensures var after := CommitClaim(db, r, tx, now);
      && after.budgets == db.budgets && after.claims.Keys == db.claims.Keys && !Holds(after, r)
      && (forall k <- db.claims :: k != r.lockHash ==> after.claims[k] == db.claims[k])
      && after.claims[r.lockHash].lastTx == Some(tx)
      && after.claims[r.lockHash].claimCount == db.claims[r.lockHash].claimCount + 1
      && (ReserveClaim(l, after, r.lockHash, later, id).Some? <==> later >= now + l.cooldown)
  {
  }

  // A day's budget is refused exactly when one more claim would exceed the claims or the tokens of the day.
  lemma BudgetRefusedIffFull(l: Limits, db: Db, day: nat)
    ensures TakeBudget(l, db, day).None? <==>
      day in db.budgets && (db.budgets[day].claims + 1 > l.maxClaims || db.budgets[day].tokens + l.drip > l.maxTokens)
    ensures TakeBudget(l, db, day).Some? ==>
      var after := TakeBudget(l, db, day).value;
      && after.claims == db.claims && after.budgets.Keys == db.budgets.Keys + {day}
      && (forall d <- db.budgets :: d != day ==> after.budgets[d] == db.budgets[d])
      && after.budgets[day].claims == 1 + (if day in db.budgets then db.budgets[day].claims else 0)
      && after.budgets[day].tokens == l.drip + (if day in db.budgets then db.budgets[day].tokens else 0)
  {
  }

  // A claim is charged to the day of twenty-four hours, counted from the epoch, in which it reserves.
  lemma ChargedToItsDay(db: Db, lockHash: LockHash, now: nat, id: nat)
    ensures var r := ReservationFor(db, lockHash, now, id);
      && r.day * 24 * 3_600_000 <= now < (r.day + 1) * 24 * 3_600_000
      && r.lockHash == lockHash && r.id == id && (r.hadPrevious <==> lockHash in db.claims)
      && (r.hadPrevious ==> r.previousStatus == db.claims[lockHash].status)
  {
  }

  // ---- Releasing ----

  // Release undoes a funded reservation: the recipient's status, last claim time and count, and the
  // day's budget are what they were, whenever the previous status was not RESERVED.
  lemma ReleaseUndoesReserve(l: Limits, db: Db, lockHash: LockHash, now: nat, id: nat)
    requires ReserveClaim(l, db, lockHash, now, id).Some?
    requires TakeBudget(l, ReserveClaim(l, db, lockHash, now, id).value, DayOf(now)).Some?
    ensures var reserved := TakeBudget(l, ReserveClaim(l, db, lockHash, now, id).value, DayOf(now)).value;
      var r := ReservationFor(db, lockHash, now, id);
      var released := GiveBack(l, RestoreClaim(reserved, r), r.day);
      && released.budgets[r.day] == (if r.day in db.budgets then db.budgets[r.day] else Budget(0, 0))
      && (forall d <- db.budgets :: d in released.budgets && released.budgets[d] == db.budgets[d])
      && released.claims.Keys == db.claims.Keys
      && (forall k <- db.claims :: k != lockHash ==> released.claims[k] == db.claims[k])
      && (lockHash in db.claims && db.claims[lockHash].status != Some(RESERVED) ==>
            var before, after := db.claims[lockHash], released.claims[lockHash];
            after.status == Some(SENT) && after.lastClaimedAt == before.lastClaimedAt
            && after.claimCount == before.claimCount
            && after.reservationId.None? && after.reservedAt.None?)
  {
    if lockHash in db.claims && db.claims[lockHash].status.Some? {
      var status: ClaimStatus := db.claims[lockHash].status.value;
      assert status == RESERVED || status == SENT;
    }
  }

  // It frees the recipient exactly when the reservation had not taken over an abandoned one.
  lemma ReleaseFreesUnlessTakenOver(l: Limits, db: Db, lockHash: LockHash, now: nat, id: nat, later: nat)
    requires ReserveClaim(l, db, lockHash, now, id).Some? && later >= now
    ensures var r := ReservationFor(db, lockHash, now, id);
      var freed := RestoreClaim(ReserveClaim(l, db, lockHash, now, id).value, r);
      ReserveClaim(l, freed, lockHash, later, id + 1).Some? <==> r.previousStatus != Some(RESERVED)
  {
  }

  // ---- Concurrent claims ----

  // Where one claim() call is. A call may stop anywhere: a crash is a call that takes no more steps.
  datatype Phase = Claimed | Refused | Funded | SendFailed | Restored | Sent(attempts: nat) | Finished

  datatype Proc = Proc(reservation: Reservation, phase: Phase, took: bool, gave: bool, sent: bool)

  // The database, the calls that hold or held a reservation (numbered by their reservation id), the
  // clock, the commits recorded so far, and the documents the service started from.
  datatype State = State(db: Db, procs: seq<Proc>, clock: nat, commits: seq<(LockHash, nat)>,
                         initial: map<LockHash, ClaimDoc>)

  datatype Action =
    | Tick(ms: nat)
    | Begin(lockHash: LockHash)
    | Fund(p: nat)
    | UndoRefused(p: nat)
    | Send(p: nat, ok: bool)
    | Undo(p: nat)
    | Return(p: nat)
    | Record(p: nat, tx: string, acknowledged: bool)
    | RecordLost(p: nat)

  predicate At(s: State, p: nat, phase: Phase) {
    p < |s.procs| && s.procs[p].phase == phase
  }

  function Set(s: State, p: nat, proc: Proc): State
    requires p < |s.procs|
  {
    s.(procs := s.procs[p := proc])
  }

  const MAX_COMMIT_ATTEMPTS := 3

  function Next(l: Limits, s: State, a: Action): State {
    match a
    case Tick(ms) => s.(clock := s.clock + ms)
    case Begin(lockHash) =>
      var reserved := ReserveClaim(l, s.db, lockHash, s.clock, |s.procs|);
      if reserved.None? then s
      else s.(db := reserved.value,
              procs := s.procs + [Proc(ReservationFor(s.db, lockHash, s.clock, |s.procs|), Claimed,
                                       false, false, false)])
    case Fund(p) =>
      if !At(s, p, Claimed) then s
      else
        var funded := TakeBudget(l, s.db, s.procs[p].reservation.day);
        if funded.None? then Set(s, p, s.procs[p].(phase := Refused))
        else Set(s.(db := funded.value), p, s.procs[p].(phase := Funded, took := true))
    case UndoRefused(p) =>
      if !At(s, p, Refused) then s
      else Set(s.(db := RestoreClaim(s.db, s.procs[p].reservation)), p, s.procs[p].(phase := Finished))
    case Send(p, ok) =>
      if !At(s, p, Funded) then s
      else Set(s, p, if ok then s.procs[p].(phase := Sent(0), sent := true) else s.procs[p].(phase := SendFailed))
    case Undo(p) =>
      if !At(s, p, SendFailed) then s
      else Set(s.(db := RestoreClaim(s.db, s.procs[p].reservation)), p, s.procs[p].(phase := Restored))
    case Return(p) =>
      if !At(s, p, Restored) then s
      else Set(s.(db := GiveBack(l, s.db, s.procs[p].reservation.day)), p, s.procs[p].(phase := Finished, gave := true))
    case Record(p, tx, acknowledged) =>
      if p >= |s.procs| || !s.procs[p].phase.Sent? || s.procs[p].phase.attempts >= MAX_COMMIT_ATTEMPTS then s
      else
        var r := s.procs[p].reservation;
        Set(s.(db := CommitClaim(s.db, r, tx, s.clock),
               commits := if Holds(s.db, r) then s.commits + [(r.lockHash, s.clock)] else s.commits),
            p, s.procs[p].(phase := if acknowledged then Finished else Sent(s.procs[p].phase.attempts + 1)))
    case RecordLost(p) =>
      if p >= |s.procs| || !s.procs[p].phase.Sent? || s.procs[p].phase.attempts >= MAX_COMMIT_ATTEMPTS then s
      else Set(s, p, s.procs[p].(phase := Sent(s.procs[p].phase.attempts + 1)))
  }

  // A service starts with claim documents from earlier runs, none of them reserved, and no budget yet.
  ghost predicate Fresh(s: State) {
    s.procs == [] && s.commits == [] && s.db == Db(s.initial, map[])
    && forall k <- s.initial :: s.initial[k].status != Some(RESERVED) && s.initial[k].reservationId.None?
  }

  function Run(l: Limits, s: State, actions: seq<Action>): State {
    if actions == [] then s else Next(l, Run(l, s, actions[..|actions| - 1]), actions[|actions| - 1])
  }

  // ---- Budget safety ----

  function TookOn(day: nat): Proc -> int {
    (p: Proc) => if p.took && p.reservation.day == day then 1 else 0
  }

  function GaveOn(day: nat): Proc -> int {
    (p: Proc) => if p.gave && p.reservation.day == day then 1 else 0
  }

  function SentOn(day: nat): Proc -> int {
    (p: Proc) => if p.sent && p.reservation.day == day then 1 else 0
  }

  // Budgets given back or spent on a send are ones that were taken, never the same one.
  predicate FlagsOk(p: Proc) {
    && (p.phase.Claimed? || p.phase.Refused? ==> !p.took && !p.gave && !p.sent)
    && (p.phase.Funded? || p.phase.SendFailed? || p.phase.Restored? ==> p.took && !p.gave && !p.sent)
    && (p.phase.Sent? ==> p.took && !p.gave && p.sent)
    && (p.gave ==> p.took && !p.sent) && (p.sent ==> p.took)
  }

  ghost predicate DayOk(l: Limits, s: State, day: nat) {
    var taken, given := Sum(s.procs, TookOn(day)), Sum(s.procs, GaveOn(day));
    if day in s.db.budgets then
      var b := s.db.budgets[day];
      b.claims == taken - given && b.tokens == l.drip * b.claims && b.claims <= l.maxClaims && b.tokens <= l.maxTokens
    else taken == 0 && given == 0
  }

  ghost predicate BudgetOk(l: Limits, s: State) {
    (forall p :: 0 <= p < |s.procs| ==> FlagsOk(s.procs[p])) && (forall day :: DayOk(l, s, day))
  }

  lemma DayAfterSet(l: Limits, s: State, t: State, p: nat, day: nat)
    requires p < |s.procs| == |t.procs| && t.procs == s.procs[p := t.procs[p]]
    ensures Sum(t.procs, TookOn(day)) == Sum(s.procs, TookOn(day)) - TookOn(day)(s.procs[p]) + TookOn(day)(t.procs[p])
    ensures Sum(t.procs, GaveOn(day)) == Sum(s.procs, GaveOn(day)) - GaveOn(day)(s.procs[p]) + GaveOn(day)(t.procs[p])
  {
    SumUpdate(s.procs, p, t.procs[p], TookOn(day));
    SumUpdate(s.procs, p, t.procs[p], GaveOn(day));
  }

  lemma FundKeepsBudget(l: Limits, s: State, p: nat, day: nat)
    requires ValidLimits(l) && BudgetOk(l, s) && At(s, p, Claimed)
    ensures DayOk(l, Next(l, s, Fund(p)), day)
  {
    assert DayOk(l, s, day) && FlagsOk(s.procs[p]);
    DayAfterSet(l, s, Next(l, s, Fund(p)), p, day);
    if day in s.db.budgets {
      assert l.drip * (s.db.budgets[day].claims + 1) == l.drip * s.db.budgets[day].claims + l.drip;
    }
  }

  lemma ReturnKeepsBudget(l: Limits, s: State, p: nat, day: nat)
    requires ValidLimits(l) && BudgetOk(l, s) && At(s, p, Restored)
    ensures DayOk(l, Next(l, s, Return(p)), day)
  {
    assert DayOk(l, s, day) && FlagsOk(s.procs[p]);
    DayAfterSet(l, s, Next(l, s, Return(p)), p, day);
    SumAtLeast(s.procs, p, day);
    if day in s.db.budgets {
      assert l.drip * (s.db.budgets[day].claims - 1) == l.drip * s.db.budgets[day].claims - l.drip;
    }
  }

  // A call that took a budget has its day on record.
  lemma {:induction false} SumAtLeast(procs: seq<Proc>, p: nat, day: nat)
    requires p < |procs| && forall q :: 0 <= q < |procs| ==> FlagsOk(procs[q])
    ensures Sum(procs, TookOn(day)) >= TookOn(day)(procs[p]) && Sum(procs, TookOn(day)) >= 0
  {
    var n := |procs| - 1;
    if p < n {
      SumAtLeast(procs[..n], p, day);
    } else if n > 0 {
      SumAtLeast(procs[..n], 0, day);
    }
  }

  lemma BeginKeepsBudget(l: Limits, s: State, t: State, p: Proc, day: nat)
    requires DayOk(l, s, day) && t.db.budgets == s.db.budgets && t.procs == s.procs + [p] && !p.took && !p.gave
    ensures DayOk(l, t, day)
  {
    SumSnoc(s.procs, p, TookOn(day));
    SumSnoc(s.procs, p, GaveOn(day));
  }

  lemma OtherKeepsBudget(l: Limits, s: State, t: State, p: nat, day: nat)
    requires DayOk(l, s, day) && t.db.budgets == s.db.budgets
    requires p < |s.procs| == |t.procs| && t.procs == s.procs[p := t.procs[p]]
    requires t.procs[p].reservation == s.procs[p].reservation
    requires t.procs[p].took == s.procs[p].took && t.procs[p].gave == s.procs[p].gave
    ensures DayOk(l, t, day)
  {
    DayAfterSet(l, s, t, p, day);
  }

  // Only funding and returning touch the budget or its bookkeeping.
  lemma OtherActions(l: Limits, s: State, a: Action)
    requires !a.Tick? && !a.Begin? && !a.Fund? && !a.Return? && a.p < |s.procs|
    ensures var t := Next(l, s, a);
      && t.db.budgets == s.db.budgets && |t.procs| == |s.procs| && t.procs == s.procs[a.p := t.procs[a.p]]
      && t.procs[a.p].reservation == s.procs[a.p].reservation
      && t.procs[a.p].took == s.procs[a.p].took && t.procs[a.p].gave == s.procs[a.p].gave
      && (FlagsOk(s.procs[a.p]) ==> FlagsOk(t.procs[a.p]))
  {
  }

  lemma BudgetKept(l: Limits, s: State, a: Action, day: nat)
    requires ValidLimits(l) && BudgetOk(l, s)
    ensures DayOk(l, Next(l, s, a), day)
  {
    var t := Next(l, s, a);
    assert DayOk(l, s, day);
    if a.Begin? {
      if t != s {
        BeginKeepsBudget(l, s, t, t.procs[|s.procs|], day);
      }
    } else if a.Fund? {
      if At(s, a.p, Claimed) && TakeBudget(l, s.db, s.procs[a.p].reservation.day).Some? {
        FundKeepsBudget(l, s, a.p, day);
      } else if At(s, a.p, Claimed) {
        OtherKeepsBudget(l, s, t, a.p, day);
      }
    } else if a.Return? {
      if At(s, a.p, Restored) {
        ReturnKeepsBudget(l, s, a.p, day);
      }
    } else if !a.Tick? && a.p < |s.procs| {
      OtherActions(l, s, a);
      OtherKeepsBudget(l, s, t, a.p, day);
    }
  }

  lemma {:induction false} BudgetsAreKept(l: Limits, s: State, actions: seq<Action>)
    requires ValidLimits(l) && Fresh(s)
    ensures BudgetOk(l, Run(l, s, actions))
  {
    if actions != [] {
      var n := |actions| - 1;
      BudgetsAreKept(l, s, actions[..n]);
      forall day
        ensures DayOk(l, Run(l, s, actions), day)
      {
        BudgetKept(l, Run(l, s, actions[..n]), actions[n], day);
      }
    }
  }

  // Under every interleaving and every crash: a day's counter is budgets taken minus budgets given
  // back, tokens are drip times claims, neither is negative nor above its limit, and the sends charged
  // to the day are within both limits.
  lemma BudgetSafety(l: Limits, s: State, actions: seq<Action>, day: nat)
    requires ValidLimits(l) && Fresh(s)
    ensures var t := Run(l, s, actions);
      var taken, given, sends := Sum(t.procs, TookOn(day)), Sum(t.procs, GaveOn(day)), Sum(t.procs, SentOn(day));
      && (day in t.db.budgets ==>
            t.db.budgets[day].claims == taken - given && t.db.budgets[day].tokens == l.drip * (taken - given))
      && 0 <= taken - given <= l.maxClaims && 0 <= l.drip * (taken - given) <= l.maxTokens
      && sends <= taken - given && l.drip * sends <= l.maxTokens
  {
    var t := Run(l, s, actions);
    BudgetsAreKept(l, s, actions);
    assert DayOk(l, t, day);
    var taken, given, sends := Sum(t.procs, TookOn(day)), Sum(t.procs, GaveOn(day)), Sum(t.procs, SentOn(day));
    SendsWithin(t.procs, day);
    MulMonotone(l.drip, sends, taken - given);
  }

  lemma MulMonotone(d: nat, m: nat, n: nat)
    requires m <= n
    ensures 0 <= d * m <= d * n
  {
  }

  lemma {:induction false} SendsWithin(procs: seq<Proc>, day: nat)
    requires forall p :: 0 <= p < |procs| ==> FlagsOk(procs[p])
    ensures 0 <= Sum(procs, SentOn(day)) <= Sum(procs, TookOn(day)) - Sum(procs, GaveOn(day))
  {
    if procs != [] {
      SendsWithin(procs[..|procs| - 1], day);
      assert FlagsOk(procs[|procs| - 1]);
    }
  }

  // Without the startup check the first claim of a day would overshoot a zero limit: the inserting
  // upsert keeps a day within its limits exactly when one claim fits.
  lemma FirstClaimOfDay(l: Limits, db: Db, day: nat)
    requires day !in db.budgets
    ensures TakeBudget(l, db, day).Some?
    ensures var b := TakeBudget(l, db, day).value.budgets[day];
      (b.claims <= l.maxClaims && b.tokens <= l.maxTokens) <==> ValidLimits(l)
  {
  }

  // ---- Fencing and cooldown ----

  function CommitsOf(lockHash: LockHash): ((LockHash, nat)) -> int {
    (c: (LockHash, nat)) => if c.0 == lockHash then 1 else 0
  }

  function LastCommit(commits: seq<(LockHash, nat)>, lockHash: LockHash): Option<nat> {
    if commits == [] then None
    else
      var last := commits[|commits| - 1];
      if last.0 == lockHash then Some(last.1) else LastCommit(commits[..|commits| - 1], lockHash)
  }

  function LastClaim(s: State, lockHash: LockHash): Option<nat> {
    var committed := LastCommit(s.commits, lockHash);
    if committed.Some? then committed
    else if lockHash in s.initial then s.initial[lockHash].lastClaimedAt
    else None
  }

  function CountBefore(s: State, lockHash: LockHash): nat {
    if lockHash in s.initial then s.initial[lockHash].claimCount else 0
  }

  ghost predicate Cooled(l: Limits, last: Option<nat>, at: nat) {
    last.Some? ==> last.value + l.cooldown <= at
  }

  // A held document was reserved after the cooldown of the last recorded claim, by the call it names.
  ghost predicate HolderOk(l: Limits, s: State, lockHash: LockHash, c: ClaimDoc) {
    c.reservationId.Some? ==>
      && c.reservationId.value < |s.procs| && s.procs[c.reservationId.value].reservation.lockHash == lockHash
      && c.status == Some(RESERVED) && c.reservedAt.Some? && c.reservedAt.value <= s.clock
      && Cooled(l, LastClaim(s, lockHash), c.reservedAt.value)
      && (!s.procs[c.reservationId.value].reservation.hadPrevious ==>
            lockHash !in s.initial && Sum(s.commits, CommitsOf(lockHash)) == 0 && LastCommit(s.commits, lockHash).None?)
  }

  ghost predicate ClaimOk(l: Limits, s: State, lockHash: LockHash) {
    if lockHash in s.db.claims then
      var c := s.db.claims[lockHash];
      && c.lastClaimedAt == LastClaim(s, lockHash)
      && c.claimCount == CountBefore(s, lockHash) + Sum(s.commits, CommitsOf(lockHash))
      && HolderOk(l, s, lockHash, c)
      && (c.status == Some(RESERVED) && c.reservationId.None? ==> c.reservedAt.None?)
    else lockHash !in s.initial && Sum(s.commits, CommitsOf(lockHash)) == 0 && LastCommit(s.commits, lockHash).None?
  }

  ghost predicate Spaced(l: Limits, s: State) {
    && (forall i, j :: 0 <= i < j < |s.commits| && s.commits[i].0 == s.commits[j].0 ==>
          s.commits[i].1 + l.cooldown <= s.commits[j].1)
    && (forall j :: 0 <= j < |s.commits| && s.commits[j].0 in s.initial ==>
          Cooled(l, s.initial[s.commits[j].0].lastClaimedAt, s.commits[j].1))
  }

  ghost predicate ClaimsOk(l: Limits, s: State) {
    && (forall p :: 0 <= p < |s.procs| ==> s.procs[p].reservation.id == p)
    && (forall k :: ClaimOk(l, s, k))
    && Spaced(l, s)
  }

  lemma {:induction false} LastIsLatest(l: Limits, s: State, lockHash: LockHash, i: nat, n: nat)
    requires Spaced(l, s) && i < n <= |s.commits| && s.commits[i].0 == lockHash
    ensures LastCommit(s.commits[..n], lockHash).Some? && s.commits[i].1 <= LastCommit(s.commits[..n], lockHash).value
  {
    assert s.commits[..n][..n - 1] == s.commits[..n - 1];
    if s.commits[n - 1].0 != lockHash {
      LastIsLatest(l, s, lockHash, i, n - 1);
    }
  }

  lemma {:induction false} LastComesFrom(s: State, lockHash: LockHash, n: nat)
    requires n <= |s.commits| && LastCommit(s.commits[..n], lockHash).Some?
    ensures exists i ::
      0 <= i < n && s.commits[i].0 == lockHash && s.commits[i].1 == LastCommit(s.commits[..n], lockHash).value
  {
    assert s.commits[..n][..n - 1] == s.commits[..n - 1];
    if s.commits[n - 1].0 != lockHash {
      LastComesFrom(s, lockHash, n - 1);
    }
  }

  lemma BeginKeeps(l: Limits, s: State, a: Action, k: LockHash)
    requires a.Begin? && ClaimsOk(l, s)
    ensures ClaimOk(l, Next(l, s, a), k)
  {
    assert ClaimOk(l, s, k) && ClaimOk(l, s, a.lockHash);
  }

  lemma RestoreKeeps(l: Limits, s: State, p: nat, proc: Proc, k: LockHash)
    requires p < |s.procs| && ClaimsOk(l, s) && proc.reservation == s.procs[p].reservation
    ensures ClaimOk(l, Set(s.(db := RestoreClaim(s.db, s.procs[p].reservation)), p, proc), k)
  {
    assert ClaimOk(l, s, k) && ClaimOk(l, s, s.procs[p].reservation.lockHash);
  }

  lemma ProcOnlyKeeps(l: Limits, s: State, p: nat, proc: Proc, budgets: map<nat, Budget>, k: LockHash)
    requires p < |s.procs| && ClaimsOk(l, s) && proc.reservation == s.procs[p].reservation
    ensures ClaimOk(l, Set(s.(db := s.db.(budgets := budgets)), p, proc), k)
  {
    assert ClaimOk(l, s, k);
  }

  lemma CommitKeeps(l: Limits, s: State, p: nat, proc: Proc, tx: string, k: LockHash)
    requires p < |s.procs| && ClaimsOk(l, s) && proc.reservation == s.procs[p].reservation
    requires Holds(s.db, s.procs[p].reservation)
    ensures var r := s.procs[p].reservation;
      ClaimOk(l, Set(s.(db := CommitClaim(s.db, r, tx, s.clock), commits := s.commits + [(r.lockHash, s.clock)]), p,
                     proc), k)
  {
    var r := s.procs[p].reservation;
    assert ClaimOk(l, s, k) && ClaimOk(l, s, r.lockHash);
    SumSnoc(s.commits, (r.lockHash, s.clock), CommitsOf(k));
    assert (s.commits + [(r.lockHash, s.clock)])[..|s.commits|] == s.commits;
  }

  lemma CommitSpaces(l: Limits, s: State, p: nat)
    requires p < |s.procs| && ClaimsOk(l, s) && Holds(s.db, s.procs[p].reservation)
    ensures Spaced(l, s.(commits := s.commits + [(s.procs[p].reservation.lockHash, s.clock)]))
  {
    var k := s.procs[p].reservation.lockHash;
    assert ClaimOk(l, s, k);
    assert s.commits[..|s.commits|] == s.commits;
    forall i | 0 <= i < |s.commits| && s.commits[i].0 == k
      ensures s.commits[i].1 + l.cooldown <= s.clock
    {
      LastIsLatest(l, s, k, i, |s.commits|);
    }
    if k in s.initial && LastCommit(s.commits, k).Some? {
      LastComesFrom(s, k, |s.commits|);
    }
  }

  lemma ClaimKept(l: Limits, s: State, a: Action, k: LockHash)
    requires ClaimsOk(l, s)
    ensures ClaimOk(l, Next(l, s, a), k)
  {
    assert ClaimOk(l, s, k);
    var t := Next(l, s, a);
    if a.Begin? {
      BeginKeeps(l, s, a, k);
    } else if !a.Tick? && a.p < |s.procs| && t != s {
      var r := s.procs[a.p].reservation;
      if a.UndoRefused? || a.Undo? {
        RestoreKeeps(l, s, a.p, t.procs[a.p], k);
      } else if a.Record? && Holds(s.db, r) {
        CommitKeeps(l, s, a.p, t.procs[a.p], a.tx, k);
      } else {
        ProcOnlyKeeps(l, s, a.p, t.procs[a.p], t.db.budgets, k);
      }
    }
  }

  lemma ClaimsKept(l: Limits, s: State, a: Action)
    requires ClaimsOk(l, s)
    ensures ClaimsOk(l, Next(l, s, a))
  {
    forall k
      ensures ClaimOk(l, Next(l, s, a), k)
    {
      ClaimKept(l, s, a, k);
    }
    if a.Record? && a.p < |s.procs| && Holds(s.db, s.procs[a.p].reservation) {
      CommitSpaces(l, s, a.p);
    }
  }

  lemma {:induction false} RunKeepsClaims(l: Limits, s: State, actions: seq<Action>)
    requires Fresh(s)
    ensures ClaimsOk(l, Run(l, s, actions))
  {
    if actions != [] {
      var n := |actions| - 1;
      RunKeepsClaims(l, s, actions[..n]);
      ClaimsKept(l, Run(l, s, actions[..n]), actions[n]);
    }
  }

  // In every reachable state two recorded commits for one recipient are at least a cooldown apart, also
  // from the claim the service started with, and the recipient's document counts exactly its commits.
  lemma CooldownHolds(l: Limits, s: State, actions: seq<Action>, i: nat, j: nat, lockHash: LockHash)
    requires Fresh(s)
    ensures var t := Run(l, s, actions);
      && (i < j < |t.commits| && t.commits[i].0 == t.commits[j].0 ==> t.commits[i].1 + l.cooldown <= t.commits[j].1)
      && (j < |t.commits| && t.commits[j].0 in s.initial ==>
            Cooled(l, s.initial[t.commits[j].0].lastClaimedAt, t.commits[j].1))
      && (lockHash in t.db.claims ==>
            t.db.claims[lockHash].claimCount == CountBefore(s, lockHash) + Sum(t.commits, CommitsOf(lockHash)))
      && (lockHash !in t.db.claims ==> Sum(t.commits, CommitsOf(lockHash)) == 0)
  {
    RunKeepsClaims(l, s, actions);
    InitialNeverChanges(l, s, actions);
    assert ClaimOk(l, Run(l, s, actions), lockHash);
  }

  lemma {:induction false} InitialNeverChanges(l: Limits, s: State, actions: seq<Action>)
    ensures Run(l, s, actions).initial == s.initial
  {
    if actions != [] {
      InitialNeverChanges(l, s, actions[..|actions| - 1]);
    }
  }

  lemma FencedStep(l: Limits, s: State, a: Action, p: nat)
    requires p < |s.procs| && s.procs[p].reservation.id == p && !Holds(s.db, s.procs[p].reservation)
    ensures var t := Next(l, s, a);
      && p < |t.procs| && t.procs[p].reservation == s.procs[p].reservation && !Holds(t.db, s.procs[p].reservation)
  {
  }

  // A reservation that no longer holds its document, because it was taken over, restored or
  // committed, never holds it again, and its later commits and restores leave every claim alone.
  lemma {:induction false} FencedForever(l: Limits, s: State, actions: seq<Action>, p: nat, tx: string, now: nat)
    requires p < |s.procs| && s.procs[p].reservation.id == p && !Holds(s.db, s.procs[p].reservation)
    ensures var t := Run(l, s, actions);
      && p < |t.procs| && t.procs[p].reservation == s.procs[p].reservation
      && !Holds(t.db, s.procs[p].reservation)
      && CommitClaim(t.db, s.procs[p].reservation, tx, now) == t.db
      && RestoreClaim(t.db, s.procs[p].reservation) == t.db
  {
    if actions != [] {
      var n := |actions| - 1;
      FencedForever(l, s, actions[..n], p, tx, now);
      FencedStep(l, Run(l, s, actions[..n]), actions[n], p);
    }
  }

  // Once another call has taken an abandoned reservation over, nothing its owner does later, commit or
  // restore, ever changes a claim.
  lemma TakeoverFences(l: Limits, s: State, p: nat, actions: seq<Action>, tx: string, now: nat)
    requires p < |s.procs| && s.procs[p].reservation.id == p && Holds(s.db, s.procs[p].reservation)
    requires ReserveClaim(l, s.db, s.procs[p].reservation.lockHash, s.clock, |s.procs|).Some?
    ensures var r := s.procs[p].reservation;
      var t := Run(l, Next(l, s, Begin(r.lockHash)), actions);
      CommitClaim(t.db, r, tx, now) == t.db && RestoreClaim(t.db, r) == t.db
  {
    FencedForever(l, Next(l, s, Begin(s.procs[p].reservation.lockHash)), actions, p, tx, now);
  }

  // ---- Takeovers ----

  predicate HoldsFor(s: State, p: nat, lockHash: LockHash) {
    p < |s.procs| && s.procs[p].reservation.lockHash == lockHash && Holds(s.db, s.procs[p].reservation)
  }

  // The step releases or commits the recipient's reservation.
  predicate EndsHold(s: State, a: Action, lockHash: LockHash) {
    match a
    case UndoRefused(p) => At(s, p, Refused) && HoldsFor(s, p, lockHash)
    case Undo(p) => At(s, p, SendFailed) && HoldsFor(s, p, lockHash)
    case Record(p, _, _) => HoldsFor(s, p, lockHash) && s.procs[p].phase.Sent? && s.procs[p].phase.attempts < 3
    case _ => false
  }

  ghost predicate Undisturbed(l: Limits, s: State, actions: seq<Action>, lockHash: LockHash) {
    forall k :: 0 <= k < |actions| ==> !EndsHold(Run(l, s, actions[..k]), actions[k], lockHash)
  }

  // The step begins a call that gets the recipient's reservation.
  predicate Begins(l: Limits, s: State, lockHash: LockHash) {
    |Next(l, s, Begin(lockHash)).procs| == |s.procs| + 1
  }

  ghost predicate HeldSince(s: State, lockHash: LockHash, since: nat) {
    lockHash in s.db.claims && s.db.claims[lockHash].status == Some(RESERVED)
    && s.db.claims[lockHash].reservedAt.Some? && since <= s.db.claims[lockHash].reservedAt.value <= s.clock
  }

  lemma HeldStep(l: Limits, s: State, a: Action, lockHash: LockHash, since: nat)
    requires HeldSince(s, lockHash, since) && !EndsHold(s, a, lockHash)
    ensures HeldSince(Next(l, s, a), lockHash, since)
    ensures a != Begin(lockHash) ==>
      Next(l, s, a).db.claims[lockHash].reservedAt == s.db.claims[lockHash].reservedAt
  {
  }

  lemma {:induction false} HeldRun(l: Limits, s: State, actions: seq<Action>, lockHash: LockHash, since: nat)
    requires HeldSince(s, lockHash, since) && Undisturbed(l, s, actions, lockHash)
    ensures HeldSince(Run(l, s, actions), lockHash, since)
    ensures Begin(lockHash) !in actions ==>
      Run(l, s, actions).db.claims[lockHash].reservedAt == s.db.claims[lockHash].reservedAt
  {
    if actions != [] {
      var n := |actions| - 1;
      forall k | 0 <= k < n
        ensures !EndsHold(Run(l, s, actions[..n][..k]), actions[..n][k], lockHash)
      {
        assert actions[..n][..k] == actions[..k];
      }
      HeldRun(l, s, actions[..n], lockHash, since);
      HeldStep(l, Run(l, s, actions[..n]), actions[n], lockHash, since);
    }
  }

  // From any state: a call that reserves for a recipient while no earlier reservation was released or
  // committed in between comes at least the timeout after the earlier call; and when nobody else has come
  // in between, it gets the reservation exactly from then on.
  lemma TakeoversAreApart(l: Limits, s: State, lockHash: LockHash, between: seq<Action>)
    requires Begins(l, s, lockHash) && Undisturbed(l, Next(l, s, Begin(lockHash)), between, lockHash)
    ensures var t := Run(l, Next(l, s, Begin(lockHash)), between);
      && (Begins(l, t, lockHash) ==> t.clock >= s.clock + l.timeout)
      && (Begin(lockHash) !in between ==> (Begins(l, t, lockHash) <==> t.clock >= s.clock + l.timeout))
  {
    var first := Next(l, s, Begin(lockHash));
    HeldRun(l, first, between, lockHash, s.clock);
    var t := Run(l, first, between);
    ReservableIff(l, t.db, lockHash, t.clock, |t.procs|);
  }

  // ---- Sends ----

  // When each call of a run began.
  function BeginTimes(l: Limits, s: State, actions: seq<Action>): seq<nat> {
    if actions == [] then []
    else
      var n := |actions| - 1;
      var before := Run(l, s, actions[..n]);
      BeginTimes(l, s, actions[..n])
      + if |Next(l, before, actions[n]).procs| > |before.procs| then [before.clock] else []
  }

  // A call that has not given its reservation up.
  predicate Standing(p: Proc) {
    !p.phase.Restored? && (p.phase.Finished? ==> p.sent)
  }

  function Wait(l: Limits): nat {
    if l.timeout <= l.cooldown then l.timeout else l.cooldown
  }

  // What a recipient's document looks like after a call that stands began at `since`: held by it, committed
  // since, held by a later call that came after the wait, or beyond reach.
  ghost predicate Guarded(l: Limits, s: State, p: nat, since: nat)
    requires p < |s.procs|
  {
    var k := s.procs[p].reservation.lockHash;
    && k in s.db.claims && since <= s.clock
    && var c := s.db.claims[k];
    match c.reservationId
    case None =>
      LockedOut(s.db, k) || (c.status == Some(SENT) && c.lastClaimedAt.Some? && c.lastClaimedAt.value >= since)
    case Some(r) =>
      && c.status == Some(RESERVED) && c.reservedAt.Some? && c.reservedAt.value >= since && r < |s.procs|
      && s.procs[r].reservation.lockHash == k && s.procs[r].reservation.id == r
      && (r != p ==>
            c.reservedAt.value >= since + Wait(l) && s.procs[r].reservation.hadPrevious
            && (s.procs[r].reservation.previousStatus == Some(RESERVED)
                || (s.procs[r].reservation.previousStatus == Some(SENT) && c.lastClaimedAt.Some?
                    && c.lastClaimedAt.value >= since)))
  }

  // Ids are positions.
  ghost predicate Numbered(s: State) {
    forall p :: 0 <= p < |s.procs| ==> s.procs[p].reservation.id == p
  }

  lemma GuardedBegin(l: Limits, s: State, k: LockHash, p: nat, since: nat)
    requires Numbered(s) && p < |s.procs| && Guarded(l, s, p, since)
    ensures Guarded(l, Next(l, s, Begin(k)), p, since)
    ensures k == s.procs[p].reservation.lockHash && Begins(l, s, k) ==> s.clock >= since + Wait(l)
  {
  }

  // A step that neither begins a call nor ends a reservation of the recipient leaves its document alone.
  lemma UnendedStep(l: Limits, s: State, a: Action, k: LockHash)
    requires !a.Begin? && !EndsHold(s, a, k) && k in s.db.claims
    ensures var t := Next(l, s, a);
      && |t.procs| == |s.procs| && s.clock <= t.clock && k in t.db.claims && t.db.claims[k] == s.db.claims[k]
      && forall i :: 0 <= i < |s.procs| ==> t.procs[i].reservation == s.procs[i].reservation
  {
  }

  lemma GuardedElsewhere(l: Limits, s: State, t: State, p: nat, since: nat)
    requires Numbered(s) && p < |s.procs| == |t.procs| && Guarded(l, s, p, since)
    requires s.clock <= t.clock && forall i :: 0 <= i < |s.procs| ==> t.procs[i].reservation == s.procs[i].reservation
    requires var k := s.procs[p].reservation.lockHash; k in t.db.claims && t.db.claims[k] == s.db.claims[k]
    ensures Guarded(l, t, p, since)
  {
  }

  lemma GuardedRestore(l: Limits, s: State, a: Action, p: nat, since: nat)
    requires Numbered(s) && p < |s.procs| && FlagsOk(s.procs[p]) && Guarded(l, s, p, since)
    requires (a.Undo? && At(s, a.p, SendFailed)) || (a.UndoRefused? && At(s, a.p, Refused))
    requires HoldsFor(s, a.p, s.procs[p].reservation.lockHash) && Standing(Next(l, s, a).procs[p])
    ensures Guarded(l, Next(l, s, a), p, since)
  {
    assert a.p != p;
  }

  lemma GuardedCommit(l: Limits, s: State, a: Action, p: nat, since: nat)
    requires Numbered(s) && p < |s.procs| && Guarded(l, s, p, since)
    requires a.Record? && HoldsFor(s, a.p, s.procs[p].reservation.lockHash)
    ensures Guarded(l, Next(l, s, a), p, since)
  {
  }

  lemma GuardedStep(l: Limits, s: State, a: Action, p: nat, since: nat)
    requires Numbered(s) && p < |s.procs| && FlagsOk(s.procs[p]) && Guarded(l, s, p, since) && !a.Begin?
    requires Standing(Next(l, s, a).procs[p])
    ensures Guarded(l, Next(l, s, a), p, since)
  {
    var k := s.procs[p].reservation.lockHash;
    if !EndsHold(s, a, k) {
      UnendedStep(l, s, a, k);
      GuardedElsewhere(l, s, Next(l, s, a), p, since);
    } else if a.Record? {
      GuardedCommit(l, s, a, p, since);
    } else {
      GuardedRestore(l, s, a, p, since);
    }
  }

  lemma StandingBefore(l: Limits, s: State, a: Action, p: nat)
    requires p < |s.procs| && FlagsOk(s.procs[p]) && Standing(Next(l, s, a).procs[p])
    ensures Standing(s.procs[p])
  {
  }

  lemma FlagsStep(l: Limits, s: State, a: Action)
    requires forall p :: 0 <= p < |s.procs| ==> FlagsOk(s.procs[p])
    ensures forall p :: 0 <= p < |Next(l, s, a).procs| ==> FlagsOk(Next(l, s, a).procs[p])
  {
  }

  // Two calls of one recipient begin at least the wait apart, if the earlier one stands.
  ghost predicate Apart(l: Limits, s: State, times: seq<nat>, p: nat, q: nat)
    requires |times| == |s.procs| && p < q < |s.procs|
  {
    s.procs[p].reservation.lockHash == s.procs[q].reservation.lockHash && Standing(s.procs[p]) ==>
      times[q] >= times[p] + Wait(l)
  }

  ghost predicate AllGuarded(l: Limits, s: State, times: seq<nat>) {
    && |times| == |s.procs| && Numbered(s) && (forall p :: 0 <= p < |s.procs| ==> FlagsOk(s.procs[p]))
    && (forall p :: 0 <= p < |s.procs| && Standing(s.procs[p]) ==> Guarded(l, s, p, times[p]))
    && (forall p, q :: 0 <= p < q < |s.procs| ==> Apart(l, s, times, p, q))
  }

  lemma BeginsGuarded(l: Limits, s: State, times: seq<nat>, k: LockHash)
    requires AllGuarded(l, s, times) && Begins(l, s, k)
    ensures AllGuarded(l, Next(l, s, Begin(k)), times + [s.clock])
  {
    var t, after, n := Next(l, s, Begin(k)), times + [s.clock], |s.procs|;
    FlagsStep(l, s, Begin(k));
    forall p | 0 <= p < |t.procs| && Standing(t.procs[p])
      ensures Guarded(l, t, p, after[p])
    {
      if p < n {
        GuardedBegin(l, s, k, p, times[p]);
      }
    }
    forall p, q | 0 <= p < q < |t.procs|
      ensures Apart(l, t, after, p, q)
    {
      if q < n {
        assert Apart(l, s, times, p, q);
      } else if Standing(s.procs[p]) {
        GuardedBegin(l, s, k, p, times[p]);
      }
    }
  }

  lemma StepGuarded(l: Limits, s: State, times: seq<nat>, a: Action)
    requires AllGuarded(l, s, times) && |Next(l, s, a).procs| == |s.procs|
    ensures AllGuarded(l, Next(l, s, a), times)
  {
    var t := Next(l, s, a);
    FlagsStep(l, s, a);
    forall p | 0 <= p < |t.procs|
      ensures Standing(t.procs[p]) ==> Standing(s.procs[p]) && Guarded(l, t, p, times[p])
      ensures t.procs[p].reservation == s.procs[p].reservation
    {
      if Standing(t.procs[p]) {
        StandingBefore(l, s, a, p);
        if a.Begin? {
          assert t == s;
        } else {
          GuardedStep(l, s, a, p, times[p]);
        }
      }
    }
    forall p, q | 0 <= p < q < |t.procs|
      ensures Apart(l, t, times, p, q)
    {
      assert Apart(l, s, times, p, q);
    }
  }

  lemma GuardedNext(l: Limits, s: State, times: seq<nat>, a: Action)
    requires AllGuarded(l, s, times)
    ensures var t := Next(l, s, a);
      AllGuarded(l, t, times + if |t.procs| > |s.procs| then [s.clock] else [])
  {
    if |Next(l, s, a).procs| > |s.procs| {
      BeginsGuarded(l, s, times, a.lockHash);
    } else {
      StepGuarded(l, s, times, a);
      assert times + [] == times;
    }
  }

  lemma {:induction false} RunIsGuarded(l: Limits, s: State, actions: seq<Action>)
    requires Fresh(s)
    ensures AllGuarded(l, Run(l, s, actions), BeginTimes(l, s, actions))
  {
    if actions != [] {
      var n := |actions| - 1;
      RunIsGuarded(l, s, actions[..n]);
      GuardedNext(l, Run(l, s, actions[..n]), BeginTimes(l, s, actions[..n]), actions[n]);
    }
  }

  // No double payment: over every run, after a call that sent, the next call that gets a reservation for the
  // same recipient begins at least the shorter of timeout and cooldown later, crashes and lost commits included.
  lemma SendsAreApart(l: Limits, s: State, actions: seq<Action>, p: nat, q: nat)
    requires Fresh(s)
    ensures var t, times := Run(l, s, actions), BeginTimes(l, s, actions);
      && |times| == |t.procs|
      && (p < q < |t.procs| && t.procs[p].reservation.lockHash == t.procs[q].reservation.lockHash && t.procs[p].sent ==>
            times[q] >= times[p] + (if l.timeout <= l.cooldown then l.timeout else l.cooldown))
  {
    RunIsGuarded(l, s, actions);
    var t, times := Run(l, s, actions), BeginTimes(l, s, actions);
    if p < q < |t.procs| {
      assert FlagsOk(t.procs[p]) && Apart(l, t, times, p, q);
    }
  }

  // ---- A call on its own ----

  // The first steps of a call: reserve, take the budget, and undo the reservation when there is none.
  function Reserving(l: Limits, s: State, lockHash: LockHash): State {
    var n := |s.procs|;
    Next(l, Next(l, Next(l, s, Begin(lockHash)), Fund(n)), UndoRefused(n))
  }

  // A call that nothing interleaves does to the database what the store's operations do.
  lemma ReservingIsReserve(l: Limits, s: State, lockHash: LockHash)
    ensures var reserved := ReserveClaim(l, s.db, lockHash, s.clock, |s.procs|);
      var r := ReservationFor(s.db, lockHash, s.clock, |s.procs|);
      var t := Reserving(l, s, lockHash);
      if reserved.None? then t == s
      else if TakeBudget(l, reserved.value, DayOf(s.clock)).None? then
        t.db == RestoreClaim(reserved.value, r) && At(t, |s.procs|, Finished)
      else
        t.db == TakeBudget(l, reserved.value, DayOf(s.clock)).value && At(t, |s.procs|, Funded)
        && t.procs[|s.procs|].reservation == r
  {
  }

  lemma FailedSendReleases(l: Limits, s: State, p: nat)
    requires At(s, p, Funded)
    ensures var t := Next(l, Next(l, Next(l, s, Send(p, false)), Undo(p)), Return(p));
      var r := s.procs[p].reservation;
      t.db == GiveBack(l, RestoreClaim(s.db, r), r.day) && At(t, p, Finished)
  {
  }

  lemma SentIsCommitted(l: Limits, s: State, p: nat, tx: string)
    requires At(s, p, Funded)
    ensures var t := Next(l, Next(l, s, Send(p, true)), Record(p, tx, true));
      t.db == CommitClaim(s.db, s.procs[p].reservation, tx, s.clock) && At(t, p, Finished)
  {
  }

  // ---- Commit attempts ----

  // Each attempt to record a claim counts, whether it was lost or only its answer was; after three there is none.
  lemma AttemptsCount(l: Limits, s: State, p: nat, tx: string)
    requires p < |s.procs| && s.procs[p].phase.Sent?
    ensures var n := s.procs[p].phase.attempts;
      if n < 3 then
        At(Next(l, s, Record(p, tx, true)), p, Finished) && At(Next(l, s, Record(p, tx, false)), p, Sent(n + 1))
        && At(Next(l, s, RecordLost(p)), p, Sent(n + 1))
      else Next(l, s, Record(p, tx, true)) == Next(l, s, Record(p, tx, false)) == Next(l, s, RecordLost(p)) == s
  {
  }

  // A call that sent tries to record its claim at most three times.
  lemma {:induction false} AtMostThreeAttempts(l: Limits, s: State, actions: seq<Action>, p: nat)
    requires Fresh(s)
    ensures var t := Run(l, s, actions);
      p < |t.procs| && t.procs[p].phase.Sent? ==> t.procs[p].phase.attempts <= 3
  {
    if actions != [] {
      AtMostThreeAttempts(l, s, actions[..|actions| - 1], p);
    }
  }

  // ---- A recipient that is locked out ----

  // Reserved, but with neither a time nor a holder.
  predicate LockedOut(db: Db, lockHash: LockHash) {
    lockHash in db.claims
    && db.claims[lockHash].status == Some(RESERVED)
    && db.claims[lockHash].reservedAt.None? && db.claims[lockHash].reservationId.None?
  }

  lemma {:induction false} LockedOutForever(l: Limits, s: State, actions: seq<Action>, lockHash: LockHash)
    requires LockedOut(s.db, lockHash)
    ensures LockedOut(Run(l, s, actions).db, lockHash)
  {
    if actions != [] {
      LockedOutForever(l, s, actions[..|actions| - 1], lockHash);
    }
  }

  lemma RunSnoc(l: Limits, s: State, actions: seq<Action>, a: Action)
    ensures Run(l, s, actions + [a]) == Next(l, Run(l, s, actions), a)
  {
    assert (actions + [a])[..|actions|] == actions;
  }

  // A reservation abandoned past its timeout by a recipient new to the faucet.
  lemma Abandoned(l: Limits, s: State, lockHash: LockHash)
    requires Fresh(s) && lockHash !in s.initial
    ensures var t := Next(l, Next(l, s, Begin(lockHash)), Tick(l.timeout));
      && |t.procs| == 1 && t.db.budgets == map[] && lockHash in t.db.claims
      && t.db.claims[lockHash].status == Some(RESERVED) && Reservable(l, t.db.claims[lockHash], t.clock)
  {
  }

  // Taken over, funded, failed and undone.
  lemma TakenOverAndUndone(l: Limits, t: State, lockHash: LockHash)
    requires |t.procs| == 1 && t.db.budgets == map[] && lockHash in t.db.claims
    requires t.db.claims[lockHash].status == Some(RESERVED) && Reservable(l, t.db.claims[lockHash], t.clock)
    ensures LockedOut(Next(l, Next(l, Next(l, Next(l, t, Begin(lockHash)), Fund(1)), Send(1, false)), Undo(1)).db,
                      lockHash)
  {
    var t1 := Next(l, t, Begin(lockHash));
    assert |t1.procs| == 2 && t1.procs[1].phase == Claimed && Holds(t1.db, t1.procs[1].reservation);
    assert t1.procs[1].reservation.previousStatus == Some(RESERVED) && t1.procs[1].reservation.hadPrevious;
    var t2 := Next(l, t1, Fund(1));
    assert t2.procs[1].phase == Funded && t2.db.claims == t1.db.claims;
    var t3 := Next(l, t2, Send(1, false));
    assert t3.procs[1].phase == SendFailed && t3.db == t2.db;
  }

  // From any fresh state, for a recipient new to the faucet: a first call reserves and crashes, a second one
  // takes the reservation over after the timeout, fails to send and undoes it. From then on, whatever
  // anyone does, no call can reserve for this recipient again.
  lemma TakeoverThenUndoLocksOut(l: Limits, s: State, lockHash: LockHash) returns (actions: seq<Action>)
    requires Fresh(s) && lockHash !in s.initial
    ensures LockedOut(Run(l, s, actions).db, lockHash)
    ensures forall more: seq<Action>, now: nat, id: nat ::
      ReserveClaim(l, Run(l, Run(l, s, actions), more).db, lockHash, now, id).None?
  {
    var two := [Begin(lockHash)] + [Tick(l.timeout)];
    RunSnoc(l, s, [], Begin(lockHash));
    assert [] + [Begin(lockHash)] == [Begin(lockHash)];
    RunSnoc(l, s, [Begin(lockHash)], Tick(l.timeout));
    RunSnoc(l, s, two, Begin(lockHash));
    RunSnoc(l, s, two + [Begin(lockHash)], Fund(1));
    RunSnoc(l, s, two + [Begin(lockHash)] + [Fund(1)], Send(1, false));
    RunSnoc(l, s, two + [Begin(lockHash)] + [Fund(1)] + [Send(1, false)], Undo(1));
    actions := two + [Begin(lockHash)] + [Fund(1)] + [Send(1, false)] + [Undo(1)];
    Abandoned(l, s, lockHash);
    TakenOverAndUndone(l, Run(l, s, two), lockHash);
    forall more: seq<Action>, now: nat, id: nat
      ensures ReserveClaim(l, Run(l, Run(l, s, actions), more).db, lockHash, now, id).None?
    {
      LockedOutForever(l, Run(l, s, actions), more, lockHash);
    }
  }
}
