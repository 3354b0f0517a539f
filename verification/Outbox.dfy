/** The transactional outbox: the SQL statements of the outbox repository as functions on a
    table of rows, and a machine that interleaves any number of workers running them.
    One statement is one step. Time stamps are arbitrary: no safety result needs a clock. */
module Outbox {
  import opened Optional

  type EventId = nat
  type WorkerId = nat
  type Time = int

  datatype Status = Pending | Processing | Completed | Failed
  datatype LastError = NoError | DeliveryFailed | LeaseExpired

  datatype Row = Row(
    status: Status, attempts: int, maxAttempts: int,
    availableAt: Time, createdAt: Time,
    lockedAt: Option<Time>, lockedBy: Option<WorkerId>,
    processedAt: Option<Time>, lastError: LastError)

  type Table = map<EventId, Row>

  // ---------- Statements ----------

  function NewRow(maxAttempts: int, now: Time): Row {
    Row(Pending, 0, maxAttempts, now, now, None, None, None, NoError)
  }

  /** A lease older than the timeout. A NULL lockedAt compares as unknown, so it is not stale. */
  predicate Stale(r: Row, staleBefore: Time) {
    r.status.Processing? && r.lockedAt.Some? && r.lockedAt.value < staleBefore
  }

  predicate Exhausted(r: Row, staleBefore: Time) {
    Stale(r, staleBefore) && r.attempts >= r.maxAttempts
  }

  predicate Claimable(r: Row, staleBefore: Time, now: Time) {
    && r.attempts < r.maxAttempts
    && ((r.status.Pending? && r.availableAt <= now) || Stale(r, staleBefore))
  }

  /** ORDER BY availableAt, createdAt; ties may fall either way. */
  predicate NotAfter(a: Row, b: Row) {
    a.availableAt < b.availableAt || (a.availableAt == b.availableAt && a.createdAt <= b.createdAt)
  }

  /** Rows locked by somebody else's running statement are `skipped` (FOR UPDATE SKIP LOCKED). */
  function Candidates(t: Table, staleBefore: Time, now: Time, skipped: set<EventId>): set<EventId> {
    set id | id in t && id !in skipped && Claimable(t[id], staleBefore, now)
  }

  /** `chosen` is the first `limit` candidates in queue order, or all when there are fewer. */
  predicate IsBatch(t: Table, candidates: set<EventId>, limit: nat, chosen: set<EventId>)
    requires candidates <= t.Keys
  {
    && chosen <= candidates
    && |chosen| == (if |candidates| <= limit then |candidates| else limit)
    && forall a, b | a in chosen && b in candidates - chosen :: NotAfter(t[a], t[b])
  }

  function GiveUp(r: Row): Row {
    r.(status := Failed, lockedAt := None, lockedBy := None, lastError := LeaseExpired)
  }

  function Lease(r: Row, w: WorkerId, now: Time): Row {
    r.(status := Processing, lockedAt := Some(now), lockedBy := Some(w), attempts := r.attempts + 1)
  }

  function ClaimRows(t: Table, w: WorkerId, chosen: set<EventId>, staleBefore: Time, now: Time): Table {
    map id | id in t ::
      if Exhausted(t[id], staleBefore) then GiveUp(t[id])
      else if id in chosen then Lease(t[id], w, now)
      else t[id]
  }

  /** The WHERE clause both closing updates share. */
  predicate HeldBy(t: Table, id: EventId, w: WorkerId) {
    id in t && t[id].status.Processing? && t[id].lockedBy == Some(w)
  }

  function CompleteRows(t: Table, id: EventId, w: WorkerId, now: Time): Table {
    if HeldBy(t, id, w) then
      t[id := t[id].(status := Completed, processedAt := Some(now),
                     lockedAt := None, lockedBy := None, lastError := NoError)]
    else t
  }

  function FailRows(t: Table, id: EventId, w: WorkerId, terminal: bool, retryAt: Time): Table {
    if HeldBy(t, id, w) then
      t[id := t[id].(status := if terminal then Failed else Pending, availableAt := retryAt,
                     lockedAt := None, lockedBy := None, lastError := DeliveryFailed)]
    else t
  }

  // ---------- The machine ----------

  /** Where one delivery of a batch stands: the mail call is still to come, it returned, or
      something threw and the catch block is next. */
  datatype Phase = Claimed | Sent | Failing
  /** The copy of the row that the claim returned (the columns later steps use). */
  datatype Job = Job(attempt: int, maxAttempts: int, phase: Phase)
  /** A job belongs to one worker and one event of its current batch. */
  datatype Slot = Slot(w: WorkerId, id: EventId)
  /** One call of sendMail; `accepted` when the provider took the message. */
  datatype Mail = Mail(id: EventId, attempt: int, accepted: bool)

  datatype State = State(
    rows: Table, started: set<WorkerId>, crashed: set<WorkerId>, jobs: map<Slot, Job>, mails: seq<Mail>)

  datatype Step =
    | Enqueue(id: EventId, maxAttempts: int, now: Time)
    | StartWorker(w: WorkerId)
      // A worker awaits its whole batch before it claims again.
    | Claim(w: WorkerId, chosen: set<EventId>, skipped: set<EventId>, limit: nat, staleBefore: Time, now: Time)
    | DecodeThrows(w: WorkerId, id: EventId)
      // An accepted message may still surface as an error (a lost reply).
    | Send(w: WorkerId, id: EventId, accepted: bool, threw: bool)
      // A closing update that throws may or may not have been applied.
    | Complete(w: WorkerId, id: EventId, applied: bool, threw: bool, now: Time)
    | Retry(w: WorkerId, id: EventId, retryAt: Time)
      // Also what a throwing markDeliveryFailed leads to: the process exits.
    | Crash(w: WorkerId)

  const Init := State(map[], {}, {}, map[], [])

  predicate Alive(s: State, w: WorkerId) { w in s.started && w !in s.crashed }

  predicate InPhase(s: State, slot: Slot, phase: Phase) { slot in s.jobs && s.jobs[slot].phase == phase }

  predicate Enabled(s: State, step: Step) {
    match step
    case Enqueue(id, maxAttempts, _) => id !in s.rows && 1 <= maxAttempts
    case StartWorker(w) => w !in s.started
    case Claim(w, chosen, skipped, limit, staleBefore, now) =>
      && Alive(s, w) && (forall slot | slot in s.jobs :: slot.w != w)
      && IsBatch(s.rows, Candidates(s.rows, staleBefore, now, skipped), limit, chosen)
    case DecodeThrows(w, id) => InPhase(s, Slot(w, id), Claimed)
    case Send(w, id, accepted, threw) => InPhase(s, Slot(w, id), Claimed) && (accepted || threw)
    case Complete(w, id, applied, threw, _) => InPhase(s, Slot(w, id), Sent) && (applied || threw)
    case Retry(w, id, _) => InPhase(s, Slot(w, id), Failing)
    case Crash(w) => Alive(s, w)
  }

  function NewJobs(rows: Table, w: WorkerId, chosen: set<EventId>): map<Slot, Job>
    requires chosen <= rows.Keys
  {
    map id | id in chosen :: Slot(w, id) := Job(rows[id].attempts, rows[id].maxAttempts, Claimed)
  }

  function AfterClaim(s: State, w: WorkerId, chosen: set<EventId>, staleBefore: Time, now: Time): State
    requires chosen <= s.rows.Keys
  {
    var rows := ClaimRows(s.rows, w, chosen, staleBefore, now);
    s.(rows := rows, jobs := s.jobs + NewJobs(rows, w, chosen))
  }

  function SetPhase(s: State, slot: Slot, phase: Phase): State
    requires slot in s.jobs
  {
    s.(jobs := s.jobs[slot := s.jobs[slot].(phase := phase)])
  }

  function AfterSend(s: State, slot: Slot, accepted: bool, threw: bool): State
    requires slot in s.jobs
  {
    SetPhase(s, slot, if threw then Failing else Sent)
    .(mails := s.mails + [Mail(slot.id, s.jobs[slot].attempt, accepted)])
  }

  /** The row part of a closing update, and whether its job goes on to the catch block or ends. */
  function Close(s: State, slot: Slot, rows: Table, threw: bool): State
    requires slot in s.jobs
  {
    (if threw then SetPhase(s, slot, Failing) else s.(jobs := s.jobs - {slot})).(rows := rows)
  }

  function CrashOf(s: State, w: WorkerId): State {
    s.(crashed := s.crashed + {w}, jobs := map slot | slot in s.jobs && slot.w != w :: s.jobs[slot])
  }

  function Next(s: State, step: Step): State
    requires Enabled(s, step)
  {
    match step
    case Enqueue(id, maxAttempts, now) => s.(rows := s.rows[id := NewRow(maxAttempts, now)])
    case StartWorker(w) => s.(started := s.started + {w})
    case Claim(w, chosen, _, _, staleBefore, now) => AfterClaim(s, w, chosen, staleBefore, now)
    case DecodeThrows(w, id) => SetPhase(s, Slot(w, id), Failing)
    case Send(w, id, accepted, threw) => AfterSend(s, Slot(w, id), accepted, threw)
    case Complete(w, id, applied, threw, now) =>
      Close(s, Slot(w, id), if applied then CompleteRows(s.rows, id, w, now) else s.rows, threw)
    case Retry(w, id, retryAt) =>
      var job := s.jobs[Slot(w, id)];
      Close(s, Slot(w, id), FailRows(s.rows, id, w, job.attempt >= job.maxAttempts, retryAt), false)
    case Crash(w) => CrashOf(s, w)
  }

  ghost predicate Run(s: State, steps: seq<Step>, t: State)
    decreases |steps|
  {
    if steps == [] then s == t
    else Enabled(s, steps[0]) && Run(Next(s, steps[0]), steps[1..], t)
  }

  lemma {:induction false} RunSnoc(s: State, steps: seq<Step>, t: State, last: Step)
    requires Run(s, steps, t) && Enabled(t, last)
    ensures Run(s, steps + [last], Next(t, last))
    decreases |steps|
  {
    if steps == [] {
      assert Run(Next(t, last), [], Next(t, last));
      assert (steps + [last])[1..] == [];
    } else {
      RunSnoc(Next(s, steps[0]), steps[1..], t, last);
      assert (steps + [last])[1..] == steps[1..] + [last];
    }
  }

  ghost predicate Reachable(s: State) { exists steps :: Run(Init, steps, s) }

  // ---------- The invariant ----------

  predicate RowOk(r: Row) {
    && 1 <= r.maxAttempts && 0 <= r.attempts <= r.maxAttempts
    && (r.status.Processing? <==> r.lockedBy.Some?)
    && (r.status.Processing? <==> r.lockedAt.Some?)
    && (r.status.Processing? ==> 1 <= r.attempts)
    && (r.status.Pending? ==> r.attempts < r.maxAttempts)
    && (r.status.Failed? ==> r.attempts == r.maxAttempts)
  }

  ghost predicate RowsOk(s: State) { forall id | id in s.rows :: RowOk(s.rows[id]) }

  /** A live worker that holds a lease is still delivering that very attempt. */
  ghost predicate LeasesOk(s: State) {
    forall id, w | HeldBy(s.rows, id, w) ::
      && w in s.started
      && (w !in s.crashed ==> Slot(w, id) in s.jobs && s.jobs[Slot(w, id)].attempt == s.rows[id].attempts)
  }

  ghost predicate JobsOk(s: State) {
    forall slot | slot in s.jobs ::
      && Alive(s, slot.w)
      && slot.id in s.rows
      && s.jobs[slot].maxAttempts == s.rows[slot.id].maxAttempts
      && 1 <= s.jobs[slot].attempt <= s.rows[slot.id].attempts
  }

  /** No two workers ever deliver the same attempt of an event. */
  ghost predicate AttemptsDistinct(s: State) {
    forall a, b | a in s.jobs && b in s.jobs && a.id == b.id && a != b ::
      s.jobs[a].attempt != s.jobs[b].attempt
  }

  /** Every mail call used up an attempt of its own, and jobs in phase Claimed have made none yet. */
  ghost predicate MailsOk(s: State) {
    && (forall i | 0 <= i < |s.mails| ::
          s.mails[i].id in s.rows && 1 <= s.mails[i].attempt <= s.rows[s.mails[i].id].attempts)
    && (forall i, j | 0 <= i < j < |s.mails| && s.mails[i].id == s.mails[j].id ::
          s.mails[i].attempt != s.mails[j].attempt)
    && (forall slot, i | InPhase(s, slot, Claimed) && 0 <= i < |s.mails| && s.mails[i].id == slot.id ::
          s.mails[i].attempt != s.jobs[slot].attempt)
  }

  predicate Accepted(mails: seq<Mail>, id: EventId) {
    exists i | 0 <= i < |mails| :: mails[i].id == id && mails[i].accepted
  }

  ghost predicate DeliveredOk(s: State) {
    && (forall slot | InPhase(s, slot, Sent) :: Accepted(s.mails, slot.id))
    && (forall id | id in s.rows && s.rows[id].status.Completed? :: Accepted(s.mails, id))
  }

  ghost predicate Inv(s: State) {
    && s.crashed <= s.started
    && RowsOk(s) && LeasesOk(s) && JobsOk(s) && AttemptsDistinct(s) && MailsOk(s) && DeliveredOk(s)
  }

  lemma AcceptedGrows(mails: seq<Mail>, m: Mail)
    ensures forall id | Accepted(mails, id) :: Accepted(mails + [m], id)
    ensures m.accepted ==> Accepted(mails + [m], m.id)
  {
    forall id | Accepted(mails, id) ensures Accepted(mails + [m], id) {
      var i :| 0 <= i < |mails| && mails[i].id == id && mails[i].accepted;
      assert (mails + [m])[i] == mails[i];
    }
    assert (mails + [m])[|mails|] == m;
  }

  /** What a claim does to one row. */
  lemma ClaimedRow(s: State, w: WorkerId, chosen: set<EventId>, staleBefore: Time, now: Time, id: EventId)
    requires chosen <= s.rows.Keys && id in s.rows
    requires forall e | e in chosen :: s.rows[e].attempts < s.rows[e].maxAttempts
    ensures var r := AfterClaim(s, w, chosen, staleBefore, now).rows[id];
            r == (if id in chosen then Lease(s.rows[id], w, now)
                  else if Exhausted(s.rows[id], staleBefore) then GiveUp(s.rows[id]) else s.rows[id])
  {}

  ghost predicate ClaimPre(s: State, w: WorkerId, chosen: set<EventId>) {
    && Inv(s) && Alive(s, w) && (forall slot | slot in s.jobs :: slot.w != w)
    && chosen <= s.rows.Keys
    && forall e | e in chosen :: s.rows[e].attempts < s.rows[e].maxAttempts
  }

  lemma ClaimKeepsRowsAndLeases(s: State, w: WorkerId, chosen: set<EventId>, staleBefore: Time, now: Time)
    requires ClaimPre(s, w, chosen)
    ensures RowsOk(AfterClaim(s, w, chosen, staleBefore, now))
    ensures LeasesOk(AfterClaim(s, w, chosen, staleBefore, now))
  {
    var t := AfterClaim(s, w, chosen, staleBefore, now);
    forall id | id in t.rows ensures RowOk(t.rows[id]) {
      ClaimedRow(s, w, chosen, staleBefore, now, id);
    }
    forall id, v | HeldBy(t.rows, id, v)
      ensures v in t.started
      ensures v !in t.crashed ==> Slot(v, id) in t.jobs && t.jobs[Slot(v, id)].attempt == t.rows[id].attempts
    {
      ClaimedRow(s, w, chosen, staleBefore, now, id);
      assert id in chosen || HeldBy(s.rows, id, v);
    }
  }

  /** The jobs after a claim: the old ones of other workers, and the new batch. */
  lemma ClaimedJobs(s: State, w: WorkerId, chosen: set<EventId>, staleBefore: Time, now: Time, slot: Slot)
    requires ClaimPre(s, w, chosen) && slot in AfterClaim(s, w, chosen, staleBefore, now).jobs
    ensures var t := AfterClaim(s, w, chosen, staleBefore, now);
            if slot in s.jobs then t.jobs[slot] == s.jobs[slot] && slot.w != w
            else slot.w == w && slot.id in chosen
                 && t.jobs[slot] == Job(s.rows[slot.id].attempts + 1, s.rows[slot.id].maxAttempts, Claimed)
  {
    if slot !in s.jobs { ClaimedRow(s, w, chosen, staleBefore, now, slot.id); }
  }

  lemma ClaimKeepsJobs(s: State, w: WorkerId, chosen: set<EventId>, staleBefore: Time, now: Time)
    requires ClaimPre(s, w, chosen)
    ensures JobsOk(AfterClaim(s, w, chosen, staleBefore, now))
  {
    var t := AfterClaim(s, w, chosen, staleBefore, now);
    forall slot | slot in t.jobs
      ensures && Alive(t, slot.w) && slot.id in t.rows
              && t.jobs[slot].maxAttempts == t.rows[slot.id].maxAttempts
              && 1 <= t.jobs[slot].attempt <= t.rows[slot.id].attempts
    {
      ClaimedJobs(s, w, chosen, staleBefore, now, slot);
      ClaimedRow(s, w, chosen, staleBefore, now, slot.id);
    }
  }

  lemma ClaimKeepsDistinct(s: State, w: WorkerId, chosen: set<EventId>, staleBefore: Time, now: Time)
    requires ClaimPre(s, w, chosen)
    ensures AttemptsDistinct(AfterClaim(s, w, chosen, staleBefore, now))
  {
    var t := AfterClaim(s, w, chosen, staleBefore, now);
    forall a, b | a in t.jobs && b in t.jobs && a.id == b.id && a != b
      ensures t.jobs[a].attempt != t.jobs[b].attempt
    {
      ClaimedJobs(s, w, chosen, staleBefore, now, a);
      ClaimedJobs(s, w, chosen, staleBefore, now, b);
    }
  }

  /** What a claim does to the attempts and the completion of an event. */
  lemma ClaimedAttempts(s: State, w: WorkerId, chosen: set<EventId>, staleBefore: Time, now: Time, id: EventId)
    requires ClaimPre(s, w, chosen) && id in s.rows
    ensures var t := AfterClaim(s, w, chosen, staleBefore, now);
            && id in t.rows
            && t.rows[id].attempts == s.rows[id].attempts + (if id in chosen then 1 else 0)
            && (t.rows[id].status.Completed? ==> s.rows[id].status.Completed?)
  {
    ClaimedRow(s, w, chosen, staleBefore, now, id);
  }

  /** A job in some phase after a claim was in it before, or is one of the new batch. */
  lemma ClaimedPhase(s: State, w: WorkerId, chosen: set<EventId>, staleBefore: Time, now: Time, slot: Slot, p: Phase)
    requires ClaimPre(s, w, chosen) && InPhase(AfterClaim(s, w, chosen, staleBefore, now), slot, p)
    ensures var t := AfterClaim(s, w, chosen, staleBefore, now);
            || (InPhase(s, slot, p) && t.jobs[slot] == s.jobs[slot])
            || (p == Claimed && slot.id in chosen && t.jobs[slot].attempt == s.rows[slot.id].attempts + 1)
  {
    ClaimedJobs(s, w, chosen, staleBefore, now, slot);
  }

  lemma ClaimKeepsMails(s: State, w: WorkerId, chosen: set<EventId>, staleBefore: Time, now: Time)
    requires ClaimPre(s, w, chosen)
    ensures MailsOk(AfterClaim(s, w, chosen, staleBefore, now))
    ensures DeliveredOk(AfterClaim(s, w, chosen, staleBefore, now))
  {
    var t := AfterClaim(s, w, chosen, staleBefore, now);
    assert t.mails == s.mails;
    forall i | 0 <= i < |t.mails|
      ensures t.mails[i].id in t.rows && 1 <= t.mails[i].attempt <= t.rows[t.mails[i].id].attempts
    {
      ClaimedAttempts(s, w, chosen, staleBefore, now, t.mails[i].id);
    }
    forall slot, i | InPhase(t, slot, Claimed) && 0 <= i < |t.mails| && t.mails[i].id == slot.id
      ensures t.mails[i].attempt != t.jobs[slot].attempt
    {
      ClaimedPhase(s, w, chosen, staleBefore, now, slot, Claimed);
    }
    forall slot | InPhase(t, slot, Sent) ensures Accepted(t.mails, slot.id) {
      ClaimedPhase(s, w, chosen, staleBefore, now, slot, Sent);
    }
    forall id | id in t.rows && t.rows[id].status.Completed? ensures Accepted(t.mails, id) {
      ClaimedAttempts(s, w, chosen, staleBefore, now, id);
    }
  }

  lemma SendKeepsMails(s: State, slot: Slot, accepted: bool, threw: bool)
    requires JobsOk(s) && AttemptsDistinct(s) && MailsOk(s) && InPhase(s, slot, Claimed)
    ensures MailsOk(AfterSend(s, slot, accepted, threw))
  {
    var t := AfterSend(s, slot, accepted, threw);
    var m := Mail(slot.id, s.jobs[slot].attempt, accepted);
    forall other, i | InPhase(t, other, Claimed) && 0 <= i < |t.mails| && t.mails[i].id == other.id
      ensures t.mails[i].attempt != t.jobs[other].attempt
    {
      assert InPhase(s, other, Claimed) && other != slot;
      if i == |s.mails| { assert t.mails[i] == m; } else { assert t.mails[i] == s.mails[i]; }
    }
  }

  lemma SendKeepsDelivered(s: State, slot: Slot, accepted: bool, threw: bool)
    requires DeliveredOk(s) && InPhase(s, slot, Claimed) && (accepted || threw)
    ensures DeliveredOk(AfterSend(s, slot, accepted, threw))
  {
    AcceptedGrows(s.mails, Mail(slot.id, s.jobs[slot].attempt, accepted));
    forall other | InPhase(AfterSend(s, slot, accepted, threw), other, Sent) && other != slot
      ensures InPhase(s, other, Sent) {}
  }

  lemma SendKeepsInv(s: State, slot: Slot, accepted: bool, threw: bool)
    requires Inv(s) && InPhase(s, slot, Claimed) && (accepted || threw)
    ensures Inv(AfterSend(s, slot, accepted, threw))
  {
    SendKeepsMails(s, slot, accepted, threw);
    SendKeepsDelivered(s, slot, accepted, threw);
  }

  /** A closing update changes the row only for the holder of its lease, and only in these ways. */
  ghost predicate ClosedRow(s: State, slot: Slot, rows: Table) {
    && rows.Keys == s.rows.Keys
    && (forall id | id in rows && id != slot.id :: rows[id] == s.rows[id])
    && (slot.id in rows && rows[slot.id] != s.rows[slot.id] ==>
          var r := rows[slot.id];
          && HeldBy(s.rows, slot.id, slot.w)
          && RowOk(r) && !r.status.Processing?
          && r.attempts == s.rows[slot.id].attempts && r.maxAttempts == s.rows[slot.id].maxAttempts
          && (r.status.Completed? ==> Accepted(s.mails, slot.id)))
  }

  lemma CloseKeepsLeases(s: State, slot: Slot, rows: Table, threw: bool)
    requires RowsOk(s) && LeasesOk(s) && slot in s.jobs && ClosedRow(s, slot, rows)
    requires !threw ==> !HeldBy(rows, slot.id, slot.w)
    ensures RowsOk(Close(s, slot, rows, threw)) && LeasesOk(Close(s, slot, rows, threw))
  {
    forall id, v | HeldBy(rows, id, v) ensures HeldBy(s.rows, id, v) && rows[id] == s.rows[id] {}
  }

  lemma CloseKeepsJobs(s: State, slot: Slot, rows: Table, threw: bool)
    requires JobsOk(s) && AttemptsDistinct(s) && slot in s.jobs && ClosedRow(s, slot, rows)
    ensures JobsOk(Close(s, slot, rows, threw)) && AttemptsDistinct(Close(s, slot, rows, threw))
  {
    var t := Close(s, slot, rows, threw);
    forall other | other in t.jobs
      ensures other in s.jobs && t.jobs[other] == s.jobs[other].(phase := t.jobs[other].phase) {}
    forall id | id in s.rows
      ensures t.rows[id].attempts == s.rows[id].attempts && t.rows[id].maxAttempts == s.rows[id].maxAttempts {}
  }

  lemma CloseKeepsMails(s: State, slot: Slot, rows: Table, threw: bool)
    requires MailsOk(s) && DeliveredOk(s) && slot in s.jobs && ClosedRow(s, slot, rows)
    ensures MailsOk(Close(s, slot, rows, threw)) && DeliveredOk(Close(s, slot, rows, threw))
  {
    var t := Close(s, slot, rows, threw);
    forall other, p: Phase | InPhase(t, other, p) && p != Failing
      ensures InPhase(s, other, p) && t.jobs[other] == s.jobs[other] {}
    forall id | id in s.rows ensures t.rows[id].attempts == s.rows[id].attempts {}
  }

  lemma CloseKeepsInv(s: State, slot: Slot, rows: Table, threw: bool)
    requires Inv(s) && slot in s.jobs && ClosedRow(s, slot, rows)
    requires !threw ==> !HeldBy(rows, slot.id, slot.w)
    ensures Inv(Close(s, slot, rows, threw))
  {
    CloseKeepsLeases(s, slot, rows, threw);
    CloseKeepsJobs(s, slot, rows, threw);
    CloseKeepsMails(s, slot, rows, threw);
  }

  lemma CrashKeepsInv(s: State, w: WorkerId)
    requires Inv(s) && Alive(s, w)
    ensures Inv(CrashOf(s, w))
  {
    var t := CrashOf(s, w);
    forall slot, p: Phase | InPhase(t, slot, p) ensures InPhase(s, slot, p) {}
  }

  lemma StepKeepsInv(s: State, step: Step)
    requires Inv(s) && Enabled(s, step)
    ensures Inv(Next(s, step))
  {
    match step
    case Claim(w, chosen, skipped, _, staleBefore, now) =>
      assert chosen <= Candidates(s.rows, staleBefore, now, skipped);
      ClaimKeepsRowsAndLeases(s, w, chosen, staleBefore, now);
      ClaimKeepsJobs(s, w, chosen, staleBefore, now);
      ClaimKeepsDistinct(s, w, chosen, staleBefore, now);
      ClaimKeepsMails(s, w, chosen, staleBefore, now);
    case Send(w, id, accepted, threw) => SendKeepsInv(s, Slot(w, id), accepted, threw);
    case DecodeThrows(w, id) => CloseKeepsInv(s, Slot(w, id), s.rows, true);
    case Complete(w, id, applied, threw, now) =>
      CloseKeepsInv(s, Slot(w, id), if applied then CompleteRows(s.rows, id, w, now) else s.rows, threw);
    case Retry(w, id, retryAt) =>
      var job := s.jobs[Slot(w, id)];
      CloseKeepsInv(s, Slot(w, id), FailRows(s.rows, id, w, job.attempt >= job.maxAttempts, retryAt), false);
    case Crash(w) => CrashKeepsInv(s, w);
    case _ => EasySteps(s, step);
  }

  lemma EasySteps(s: State, step: Step)
    requires (step.Enqueue? || step.StartWorker?) && Inv(s) && Enabled(s, step)
    ensures Inv(Next(s, step))
  {
    var t := Next(s, step);
    forall slot, p: Phase | InPhase(t, slot, p) ensures InPhase(s, slot, p) {}
  }

  lemma {:induction false} RunKeepsInv(s: State, steps: seq<Step>, t: State)
    requires Inv(s) && Run(s, steps, t)
    ensures Inv(t)
    decreases |steps|
  {
    if steps != [] {
      StepKeepsInv(s, steps[0]);
      RunKeepsInv(Next(s, steps[0]), steps[1..], t);
    }
  }

  lemma ReachableInv(s: State)
    requires Reachable(s)
    ensures Inv(s)
  {
    var steps :| Run(Init, steps, s);
    RunKeepsInv(Init, steps, s);
  }
}
