/** The outbox repository and worker as objects. Each repository method is proved to be its
    statement of module Outbox; a batch of the worker is proved to be a run of the machine. */
module OutboxWorkers {
  import opened Optional
  import opened Outbox
  import opened OutboxRuns
  import Positions

  /** The columns the queue is ordered by. */
  function QueueKeys(t: Table): Positions.Keys { map id | id in t :: Positions.Key(t[id].availableAt, t[id].createdAt) }

  lemma ExtendBatch(t: Table, candidates: set<EventId>, limit: nat, chosen: set<EventId>) returns (more: set<EventId>)
    requires candidates <= t.Keys && IsBatch(t, candidates, limit, chosen) && limit < |candidates|
    ensures IsBatch(t, candidates, limit + 1, more)
  {
    var rest := candidates - chosen;
    assert |rest| == |candidates| - |chosen|;
    var next := Positions.FirstRow(QueueKeys(t), rest);
    more := chosen + {next};
    forall a, b | a in more && b in candidates - more ensures NotAfter(t[a], t[b]) {
      assert b in rest;
    }
  }

  /** The claim statement always has a batch to choose. */
  lemma {:induction false} BatchExists(t: Table, candidates: set<EventId>, limit: nat)
    requires candidates <= t.Keys
    ensures exists chosen | chosen <= candidates :: IsBatch(t, candidates, limit, chosen)
    decreases limit
  {
    if |candidates| <= limit {
      assert IsBatch(t, candidates, limit, candidates);
    } else if limit == 0 {
      assert IsBatch(t, candidates, limit, {});
    } else {
      BatchExists(t, candidates, limit - 1);
      var chosen :| chosen <= candidates && IsBatch(t, candidates, limit - 1, chosen);
      var more := ExtendBatch(t, candidates, limit - 1, chosen);
    }
  }

  /** What the claim asks of a row, column by column. */
  predicate Due(r: Row, cutoff: Time, now: Time) {
    && r.attempts < r.maxAttempts
    && (|| (r.status == Pending && r.availableAt <= now)
        || (r.status == Processing && r.lockedAt != None && r.lockedAt.value < cutoff))
  }

  /** A lease that lapsed on the last attempt. */
  predicate Spent(r: Row, cutoff: Time) {
    r.status == Processing && r.lockedAt != None && r.lockedAt.value < cutoff && r.maxAttempts <= r.attempts
  }

  /** Waiting longer, or as long and created no later. */
  predicate Sooner(a: Row, b: Row) {
    a.availableAt < b.availableAt || (a.availableAt == b.availableAt && a.createdAt <= b.createdAt)
  }

  /** The ordered subquery of the claim. */
  method FirstBatch(t: Table, candidates: set<EventId>, limit: nat) returns (chosen: set<EventId>)
    requires candidates <= t.Keys
    ensures IsBatch(t, candidates, limit, chosen)
  {
    BatchExists(t, candidates, limit);
    chosen :| chosen <= candidates && IsBatch(t, candidates, limit, chosen);
  }

  function Returning(rows: Table, ids: set<EventId>): (r: map<EventId, Row>)
    requires ids <= rows.Keys
    ensures r.Keys == ids && forall id | id in r :: r[id] == rows[id]
  {
    map id | id in ids :: rows[id]
  }

  /** Which rows a claim takes: due ones, longest waiting first, as many as fit. */
  ghost predicate TakesDue(t: Table, taken: set<EventId>, limit: nat, cutoff: Time, now: Time, skipped: set<EventId>) {
    && |taken| <= limit
    && (forall id | id in taken :: id in t && id !in skipped && Due(t[id], cutoff, now))
    && (forall id | id in t && id !in skipped && id !in taken && Due(t[id], cutoff, now) ::
          |taken| == limit && forall c | c in taken :: Sooner(t[c], t[id]))
  }

  /** What becomes of every row: leased from now on, given up, or left alone. */
  ghost predicate Leases(t: Table, taken: set<EventId>, w: WorkerId, cutoff: Time, now: Time, after: Table) {
    && taken <= t.Keys && after.Keys == t.Keys
    && (forall id | id in taken ::
          after[id] == t[id].(status := Processing, lockedAt := Some(now), lockedBy := Some(w),
                              attempts := t[id].attempts + 1))
    && (forall id | id in t && id !in taken ::
          after[id] == if Spent(t[id], cutoff)
                       then t[id].(status := Failed, lockedAt := None, lockedBy := None, lastError := LeaseExpired)
                       else t[id])
  }

  lemma BatchTakesDue(t: Table, taken: set<EventId>, limit: nat, cutoff: Time, now: Time, skipped: set<EventId>)
    requires IsBatch(t, Candidates(t, cutoff, now, skipped), limit, taken)
    ensures TakesDue(t, taken, limit, cutoff, now, skipped)
  {
    var candidates := Candidates(t, cutoff, now, skipped);
    assert forall id :: id in candidates <==> id in t && id !in skipped && Due(t[id], cutoff, now);
    if |candidates| <= limit {
      assert |candidates - taken| == 0;
      assert taken == candidates;
    }
  }

  lemma ClaimLeases(t: Table, taken: set<EventId>, w: WorkerId, cutoff: Time, now: Time, skipped: set<EventId>)
    requires taken <= Candidates(t, cutoff, now, skipped)
    ensures Leases(t, taken, w, cutoff, now, ClaimRows(t, w, taken, cutoff, now))
  {}

  /** Leases taken before this time have run out. */
  function StaleBefore(now: Time, lockTimeoutSeconds: nat): (cutoff: Time)
    ensures now - cutoff == 1000 * lockTimeoutSeconds
  {
    now - lockTimeoutSeconds * 1000
  }

  class OutboxRepository {
    var rows: Table

    constructor ()
      ensures rows == map[]
    {
      rows := map[];
    }

    method Enqueue(id: EventId, maxAttempts: int, now: Time)
      requires id !in rows
      modifies this
      ensures rows == old(rows)[id := NewRow(maxAttempts, now)]
      // Nobody holds it, and any claim from now on can take it, exactly when there is an attempt to make.
      ensures forall w :: !HeldBy(rows, id, w)
      ensures forall staleBefore, late :: Claimable(rows[id], staleBefore, late) <==> 1 <= maxAttempts && now <= late
      ensures 1 <= maxAttempts ==> RowOk(rows[id]) && Potential(rows[id]) == 2 * maxAttempts
      ensures forall other | other in old(rows) :: other in rows && rows[other] == old(rows)[other]
      ensures forall r: Row :: Sooner(r, rows[id]) <==>
                r.availableAt < now || (r.availableAt == now && r.createdAt <= now)
    {
      rows := rows[id := NewRow(maxAttempts, now)];
    }

    method ClaimBatch(workerId: WorkerId, batchSize: nat, lockTimeoutSeconds: nat, now: Time, skipped: set<EventId>)
      returns (claimed: map<EventId, Row>)
      modifies this
      ensures IsBatch(old(rows), Candidates(old(rows), StaleBefore(now, lockTimeoutSeconds), now, skipped),
                      batchSize, claimed.Keys)
      ensures rows == ClaimRows(old(rows), workerId, claimed.Keys, StaleBefore(now, lockTimeoutSeconds), now)
      ensures forall id | id in claimed :: id in rows && claimed[id] == rows[id]
      ensures TakesDue(old(rows), claimed.Keys, batchSize, StaleBefore(now, lockTimeoutSeconds), now, skipped)
      ensures Leases(old(rows), claimed.Keys, workerId, StaleBefore(now, lockTimeoutSeconds), now, rows)
    {
      var staleBefore := StaleBefore(now, lockTimeoutSeconds);
      var candidates := Candidates(rows, staleBefore, now, skipped);
      var chosen := FirstBatch(rows, candidates, batchSize);
      rows := ClaimRows(rows, workerId, chosen, staleBefore, now);
      claimed := Returning(rows, chosen);
      BatchTakesDue(old(rows), chosen, batchSize, staleBefore, now, skipped);
      ClaimLeases(old(rows), chosen, workerId, staleBefore, now, skipped);
    }

    method MarkCompleted(id: EventId, workerId: WorkerId, now: Time) returns (updated: bool)
      modifies this
      ensures rows == CompleteRows(old(rows), id, workerId, now)
      ensures updated <==>
                id in old(rows) && old(rows)[id].status == Processing && old(rows)[id].lockedBy == Some(workerId)
      ensures rows == if !updated then old(rows) else old(rows)[id := Row(
                Completed, old(rows)[id].attempts, old(rows)[id].maxAttempts, old(rows)[id].availableAt,
                old(rows)[id].createdAt, None, None, Some(now), NoError)]
    {
      updated := HeldBy(rows, id, workerId);
      if updated {
        rows := rows[id := rows[id].(status := Completed, processedAt := Some(now),
                                     lockedAt := None, lockedBy := None, lastError := NoError)];
      }
    }

    method MarkDeliveryFailed(id: EventId, event: Row, workerId: WorkerId, retryAt: Time) returns (updated: bool)
      modifies this
      ensures rows == FailRows(old(rows), id, workerId, event.attempts >= event.maxAttempts, retryAt)
      ensures updated <==>
                id in old(rows) && old(rows)[id].status == Processing && old(rows)[id].lockedBy == Some(workerId)
      ensures rows == if !updated then old(rows) else old(rows)[id := Row(
                if event.attempts >= event.maxAttempts then Failed else Pending,
                old(rows)[id].attempts, old(rows)[id].maxAttempts, retryAt,
                old(rows)[id].createdAt, None, None, old(rows)[id].processedAt, DeliveryFailed)]
    {
      var terminal := event.attempts >= event.maxAttempts;
      updated := HeldBy(rows, id, workerId);
      if updated {
        rows := rows[id := rows[id].(status := if terminal then Failed else Pending, availableAt := retryAt,
                                     lockedAt := None, lockedBy := None, lastError := DeliveryFailed)];
      }
    }
  }

  /** What happens to one event of a batch. */
  datatype Outcome =
    | Delivered
    | Undecodable
    | MailThrows(accepted: bool)
    | CompletionThrows(applied: bool)

  /** The row a delivery leaves behind, from the row as it was claimed. */
  ghost predicate Settled(claimed: Row, outcome: Outcome, now: Time, r: Row) {
    if outcome.Delivered? || (outcome.CompletionThrows? && outcome.applied) then
      r.status.Completed? && r.processedAt == Some(now) && r.attempts == claimed.attempts
    else
      && r.status == (if claimed.attempts >= claimed.maxAttempts then Failed else Pending)
      && r.attempts == claimed.attempts
      && 1 <= claimed.attempts && r.availableAt == now + RetryDelaySeconds(claimed.attempts) * 1000
  }

  /** The worker's view of a machine state: a batch of untouched deliveries. */
  ghost predicate Holding(s: State, w: WorkerId, batch: map<EventId, Row>) {
    && Alive(s, w)
    && (forall slot | slot in s.jobs && slot.w == w :: slot.id in batch)
    && (forall id | id in batch ::
          && HeldBy(s.rows, id, w) && s.rows[id] == batch[id] && 1 <= batch[id].attempts
          && Slot(w, id) in s.jobs
          && s.jobs[Slot(w, id)] == Job(batch[id].attempts, batch[id].maxAttempts, Claimed))
  }

  // ---------- Deliveries side by side ----------

  function CompletedRow(r: Row, now: Time): Row {
    r.(status := Completed, processedAt := Some(now), lockedAt := None, lockedBy := None, lastError := NoError)
  }

  /** The row of a delivery that has come as far as `phase`. */
  ghost predicate Underway(claimed: Row, outcome: Outcome, phase: Phase, now: Time, r: Row) {
    match phase
    case Claimed => r == claimed
    case Sent => r == claimed && (outcome.Delivered? || outcome.CompletionThrows?)
    case Failing =>
      !outcome.Delivered? && r == if outcome == CompletionThrows(true) then CompletedRow(claimed, now) else claimed
  }

  ghost predicate Leased(r: Row, w: WorkerId) { r.status.Processing? && r.lockedBy == Some(w) && 1 <= r.attempts }

  /** A batch some of whose deliveries are settled, while each of the others is in some phase. */
  ghost predicate InBatch(s: State, w: WorkerId, events: map<EventId, Row>, pending: map<EventId, Phase>,
                          outcomes: EventId -> Outcome, now: Time) {
    && Alive(s, w) && pending.Keys <= events.Keys
    && (forall slot | slot in s.jobs && slot.w == w :: slot.id in pending)
    && (forall id | id in events :: Leased(events[id], w) && id in s.rows)
    && (forall id | id in pending ::
          && Slot(w, id) in s.jobs
          && s.jobs[Slot(w, id)] == Job(events[id].attempts, events[id].maxAttempts, pending[id])
          && Underway(events[id], outcomes(id), pending[id], now, s.rows[id]))
    && (forall id | id in events && id !in pending :: Settled(events[id], outcomes(id), now, s.rows[id]))
  }

  /** A statement of one delivery leaves the others where they are. */
  lemma OneAdvanced(s: State, t: State, w: WorkerId, events: map<EventId, Row>, pending: map<EventId, Phase>,
                    id: EventId, phase: Phase, outcomes: EventId -> Outcome, now: Time)
    requires InBatch(s, w, events, pending, outcomes, now) && id in pending
    requires t.started == s.started && t.crashed == s.crashed && id in t.rows && t.rows == s.rows[id := t.rows[id]]
    requires t.jobs == s.jobs[Slot(w, id) := s.jobs[Slot(w, id)].(phase := phase)]
    requires Underway(events[id], outcomes(id), phase, now, t.rows[id])
    ensures InBatch(t, w, events, pending[id := phase], outcomes, now)
  {}

  lemma OneSettled(s: State, t: State, w: WorkerId, events: map<EventId, Row>, pending: map<EventId, Phase>,
                   id: EventId, outcomes: EventId -> Outcome, now: Time)
    requires InBatch(s, w, events, pending, outcomes, now) && id in pending
    requires t.started == s.started && t.crashed == s.crashed && id in t.rows && t.rows == s.rows[id := t.rows[id]]
    requires t.jobs == s.jobs - {Slot(w, id)}
    requires Settled(events[id], outcomes(id), now, t.rows[id])
    ensures InBatch(t, w, events, pending - {id}, outcomes, now)
  {}

  lemma AllClaimed(s: State, w: WorkerId, events: map<EventId, Row>, outcomes: EventId -> Outcome, now: Time)
    requires Holding(s, w, events)
    ensures InBatch(s, w, events, map id | id in events :: Claimed, outcomes, now)
  {}

  ghost function InPhaseOf(pending: map<EventId, Phase>, phase: Phase): set<EventId> {
    set id | id in pending && pending[id] == phase
  }

  /** A delivery has got on: it is done, or it has left an earlier phase. */
  ghost predicate Closer(a: map<EventId, Phase>, b: map<EventId, Phase>) {
    || b.Keys < a.Keys
    || (&& b.Keys == a.Keys
        && (|| InPhaseOf(b, Claimed) < InPhaseOf(a, Claimed)
            || (InPhaseOf(b, Claimed) == InPhaseOf(a, Claimed) && InPhaseOf(b, Sent) < InPhaseOf(a, Sent))))
  }

  lemma MovesOn(pending: map<EventId, Phase>, id: EventId, phase: Phase)
    requires id in pending && phase != Claimed
    requires pending[id].Claimed? || (pending[id].Sent? && phase.Failing?)
    ensures Closer(pending, pending[id := phase])
  {
    var rest := pending[id := phase];
    assert rest.Keys == pending.Keys;
    assert InPhaseOf(rest, Claimed) == InPhaseOf(pending, Claimed) - {id};
    if pending[id].Sent? {
      assert InPhaseOf(rest, Claimed) == InPhaseOf(pending, Claimed);
      assert InPhaseOf(rest, Sent) == InPhaseOf(pending, Sent) - {id};
      assert id in InPhaseOf(pending, Sent);
    } else {
      assert id in InPhaseOf(pending, Claimed);
    }
  }

  lemma AllDone(s: State, w: WorkerId, events: map<EventId, Row>, outcomes: EventId -> Outcome, now: Time)
    requires InBatch(s, w, events, map[], outcomes, now)
    ensures Holding(s, w, map[]) && AllSettled(events, outcomes, now, s.rows)
  {}

  // ---------- What a batch sends ----------

  ghost predicate Mailed(m: Mail, events: map<EventId, Row>, pending: map<EventId, Phase>,
                         outcomes: EventId -> Outcome) {
    && m.id in events && (m.id in pending ==> pending[m.id] != Claimed)
    && outcomes(m.id) != Undecodable && m.attempt == events[m.id].attempts
    && m.accepted == (!outcomes(m.id).MailThrows? || outcomes(m.id).accepted)
  }

  /** One call of the mail provider for each delivery that got so far and could be decoded. */
  ghost predicate MailsAre(sent: seq<Mail>, events: map<EventId, Row>, pending: map<EventId, Phase>,
                           outcomes: EventId -> Outcome) {
    && (forall i, j | 0 <= i < j < |sent| :: sent[i].id != sent[j].id)
    && (forall m :: m in sent <==> Mailed(m, events, pending, outcomes))
  }

  /** Only this delivery has got on. */
  ghost predicate OnlyMoved(pending: map<EventId, Phase>, rest: map<EventId, Phase>, id: EventId) {
    rest == pending - {id} || (id in rest && rest[id] != Claimed && rest == pending[id := rest[id]])
  }

  lemma MailsMoveOn(sent: seq<Mail>, events: map<EventId, Row>, pending: map<EventId, Phase>,
                    rest: map<EventId, Phase>, id: EventId, outcomes: EventId -> Outcome, news: seq<Mail>)
    requires MailsAre(sent, events, pending, outcomes) && OnlyMoved(pending, rest, id)
    requires id in pending && id in events
    requires news == if pending[id] != Claimed || outcomes(id) == Undecodable then []
                     else [Mail(id, events[id].attempts, !outcomes(id).MailThrows? || outcomes(id).accepted)]
    ensures MailsAre(sent + news, events, rest, outcomes)
  {
    forall m ensures m in sent + news <==> Mailed(m, events, rest, outcomes) {
      assert m in sent <==> Mailed(m, events, pending, outcomes);
    }
    forall i | 0 <= i < |sent| && news != [] ensures sent[i].id != id {
      assert sent[i] in sent && Mailed(sent[i], events, pending, outcomes);
    }
  }

  /** What a stretch of a batch has sent, and that it left all other rows alone. */
  ghost predicate Progress(s: State, t: State, events: map<EventId, Row>, pending: map<EventId, Phase>,
                           outcomes: EventId -> Outcome) {
    && s.mails <= t.mails && MailsAre(t.mails[|s.mails|..], events, pending, outcomes)
    && t.rows.Keys == s.rows.Keys && (forall id | id in t.rows && id !in events :: t.rows[id] == s.rows[id])
  }

  /** No row outside the batch changes, unless it is given up. */
  ghost predicate OthersStay(t: Table, taken: set<EventId>, cutoff: Time, after: Table) {
    && after.Keys == t.Keys
    && forall id | id in t && id !in taken ::
         after[id] == if Spent(t[id], cutoff)
                      then t[id].(status := Failed, lockedAt := None, lockedBy := None, lastError := LeaseExpired)
                      else t[id]
  }

  lemma BatchDone(s: State, m: State, t: State, events: map<EventId, Row>, cutoff: Time,
                  outcomes: EventId -> Outcome)
    requires OthersStay(s.rows, events.Keys, cutoff, m.rows) && m.mails == s.mails
    requires Progress(m, t, events, map[], outcomes)
    ensures s.mails <= t.mails && MailsAre(t.mails[|s.mails|..], events, map[], outcomes)
    ensures OthersStay(s.rows, events.Keys, cutoff, t.rows)
  {}

  lemma LeasedOthersStay(t: Table, taken: set<EventId>, w: WorkerId, cutoff: Time, now: Time, after: Table)
    requires Leases(t, taken, w, cutoff, now, after)
    ensures OthersStay(t, taken, cutoff, after)
  {}

  lemma NoProgress(s: State, events: map<EventId, Row>, outcomes: EventId -> Outcome)
    ensures Progress(s, s, events, map id | id in events :: Claimed, outcomes)
  {}

  lemma ProgressOn(s: State, t: State, u: State, events: map<EventId, Row>, pending: map<EventId, Phase>,
                   rest: map<EventId, Phase>, id: EventId, outcomes: EventId -> Outcome, news: seq<Mail>)
    requires Progress(s, t, events, pending, outcomes) && OnlyMoved(pending, rest, id)
    requires id in pending && id in events && id in t.rows && id in u.rows
    requires u.mails == t.mails + news && u.rows == t.rows[id := u.rows[id]]
    requires news == if pending[id] != Claimed || outcomes(id) == Undecodable then []
                     else [Mail(id, events[id].attempts, !outcomes(id).MailThrows? || outcomes(id).accepted)]
    ensures Progress(s, u, events, rest, outcomes)
  {
    MailsMoveOn(t.mails[|s.mails|..], events, pending, rest, id, outcomes, news);
    assert u.mails[|s.mails|..] == t.mails[|s.mails|..] + news;
  }

  class OutboxWorker {
    const workerId: WorkerId
    const repository: OutboxRepository
    const batchSize: nat
    const lockTimeoutSeconds: nat

    constructor (workerId: WorkerId, repository: OutboxRepository, batchSize: nat, lockTimeoutSeconds: nat)
      ensures this.workerId == workerId && this.repository == repository
      ensures this.batchSize == batchSize && this.lockTimeoutSeconds == lockTimeoutSeconds
    {
      this.workerId, this.repository := workerId, repository;
      this.batchSize, this.lockTimeoutSeconds := batchSize, lockTimeoutSeconds;
    }

    /** Decoding and sending: the first half of a delivery. */
    method Send(id: EventId, outcome: Outcome, ghost s: State) returns (phase: Phase, ghost step: Step)
      requires InPhase(s, Slot(workerId, id), Claimed)
      ensures phase == if outcome.Delivered? || outcome.CompletionThrows? then Sent else Failing
      ensures Outbox.Enabled(s, step) && Next(s, step).rows == s.rows
      ensures Next(s, step).jobs == s.jobs[Slot(workerId, id) := s.jobs[Slot(workerId, id)].(phase := phase)]
      ensures Next(s, step).started == s.started && Next(s, step).crashed == s.crashed
      // Every call of the mail provider is on record, and nothing else is.
      ensures Next(s, step).mails == s.mails + if outcome.Undecodable? then [] else
                [Mail(id, s.jobs[Slot(workerId, id)].attempt, !outcome.MailThrows? || outcome.accepted)]
    {
      if outcome.Undecodable? {
        step := DecodeThrows(workerId, id);
        return Failing, step;
      }
      var threw := outcome.MailThrows?;
      step := Outbox.Send(workerId, id, if threw then outcome.accepted else true, threw);
      phase := if threw then Failing else Sent;
    }

    /** The completion; it may throw with or without having been applied. */
    method Finish(id: EventId, event: Row, outcome: Outcome, now: Time, ghost s: State)
      returns (done: bool, ghost step: Step)
      requires s.rows == repository.rows && InPhase(s, Slot(workerId, id), Sent)
      requires id in s.rows && s.rows[id] == event && Leased(event, workerId)
      requires outcome.Delivered? || outcome.CompletionThrows?
      modifies repository
      ensures done <==> outcome.Delivered?
      ensures Outbox.Enabled(s, step) && Next(s, step).rows == repository.rows
      ensures repository.rows
              == if outcome == CompletionThrows(false) then s.rows else s.rows[id := CompletedRow(event, now)]
      ensures Next(s, step).jobs == if done then s.jobs - {Slot(workerId, id)}
                                    else s.jobs[Slot(workerId, id) := s.jobs[Slot(workerId, id)].(phase := Failing)]
      ensures Next(s, step).started == s.started && Next(s, step).crashed == s.crashed && Next(s, step).mails == s.mails
    {
      var applied := outcome.Delivered? || outcome.applied;
      if applied { var _ := repository.MarkCompleted(id, workerId, now); }
      done := outcome.Delivered?;
      step := Complete(workerId, id, applied, !done, now);
    }

    /** The catch block: reschedule the event or give it up, unless it is completed already. */
    method Fail(id: EventId, event: Row, outcome: Outcome, now: Time, ghost s: State) returns (ghost step: Step)
      requires s.rows == repository.rows && InPhase(s, Slot(workerId, id), Failing)
      requires s.jobs[Slot(workerId, id)] == Job(event.attempts, event.maxAttempts, Failing)
      requires id in s.rows && Leased(event, workerId) && Underway(event, outcome, Failing, now, s.rows[id])
      modifies repository
      ensures Outbox.Enabled(s, step) && Next(s, step).rows == repository.rows
      ensures id in repository.rows && repository.rows == s.rows[id := repository.rows[id]]
      ensures Settled(event, outcome, now, repository.rows[id])
      ensures Next(s, step).jobs == s.jobs - {Slot(workerId, id)}
      ensures Next(s, step).started == s.started && Next(s, step).crashed == s.crashed && Next(s, step).mails == s.mails
    {
      var retryAt := now + RetryDelaySeconds(event.attempts) * 1000;
      var _ := repository.MarkDeliveryFailed(id, event, workerId, retryAt);
      step := Retry(workerId, id, retryAt);
    }

    /** The next statement of one delivery. */
    method Advance(id: EventId, events: map<EventId, Row>, pending: map<EventId, Phase>, now: Time,
                   outcomes: EventId -> Outcome, ghost s: State) returns (rest: map<EventId, Phase>, ghost step: Step)
      requires s.rows == repository.rows && InBatch(s, workerId, events, pending, outcomes, now) && id in pending
      modifies repository
      ensures Outbox.Enabled(s, step) && Next(s, step).rows == repository.rows
      ensures InBatch(Next(s, step), workerId, events, rest, outcomes, now) && Closer(pending, rest)
      ensures OnlyMoved(pending, rest, id)
      ensures id in repository.rows && repository.rows == s.rows[id := repository.rows[id]]
      ensures Next(s, step).mails == s.mails + if pending[id] != Claimed || outcomes(id) == Undecodable then [] else
                [Mail(id, events[id].attempts, !outcomes(id).MailThrows? || outcomes(id).accepted)]
    {
      if pending[id].Claimed? {
        var phase;
        phase, step := Send(id, outcomes(id), s);
        OneAdvanced(s, Next(s, step), workerId, events, pending, id, phase, outcomes, now);
        MovesOn(pending, id, phase);
        return pending[id := phase], step;
      }
      if pending[id].Sent? {
        var done;
        done, step := Finish(id, events[id], outcomes(id), now, s);
        if !done {
          OneAdvanced(s, Next(s, step), workerId, events, pending, id, Failing, outcomes, now);
          MovesOn(pending, id, Failing);
          return pending[id := Failing], step;
        }
      } else {
        step := Fail(id, events[id], outcomes(id), now, s);
      }
      OneSettled(s, Next(s, step), workerId, events, pending, id, outcomes, now);
      rest := pending - {id};
    }

    /** The deliveries of one batch run side by side: whichever is scheduled executes its next
        statement, until all are done. */
    method DeliverAll(events: map<EventId, Row>, now: Time, outcomes: EventId -> Outcome, ghost s: State)
      returns (ghost steps: seq<Step>, ghost t: State)
      requires s.rows == repository.rows && Holding(s, workerId, events)
      modifies repository
      ensures Run(s, steps, t) && t.rows == repository.rows && Holding(t, workerId, map[])
      ensures AllSettled(events, outcomes, now, t.rows)
      // Each event is sent once, unless it cannot be decoded, and rows outside the batch stay.
      ensures Progress(s, t, events, map[], outcomes)
    {
      var pending: map<EventId, Phase> := map id | id in events :: Claimed;
      AllClaimed(s, workerId, events, outcomes, now);
      steps, t := [], s;
      NoProgress(s, events, outcomes);
      while pending != map[]
        invariant Run(s, steps, t) && t.rows == repository.rows
        invariant InBatch(t, workerId, events, pending, outcomes, now)
        invariant Progress(s, t, events, pending, outcomes)
        decreases pending.Keys, InPhaseOf(pending, Claimed), InPhaseOf(pending, Sent)
      {
        var id :| id in pending;
        ghost var step, before := Retry(workerId, id, now), pending;
        pending, step := Advance(id, events, pending, now, outcomes, t);
        ghost var news := Next(t, step).mails[|t.mails|..];
        ProgressOn(s, t, Next(t, step), events, before, pending, id, outcomes, news);
        RunSnoc(s, steps, t, step);
        steps, t := steps + [step], Next(t, step);
      }
      AllDone(t, workerId, events, outcomes, now);
    }

    /** One batch: claim it, deliver it, and only then return. */
    method RunOnce(now: Time, skipped: set<EventId>, outcomes: EventId -> Outcome, ghost s: State)
      returns (processed: nat, ghost claimed: map<EventId, Row>, ghost steps: seq<Step>, ghost t: State)
      requires s.rows == repository.rows && Inv(s) && Holding(s, workerId, map[])
      modifies repository
      ensures Run(s, steps, t) && t.rows == repository.rows && Holding(t, workerId, map[])
      ensures processed == |claimed| <= batchSize
      ensures AllSettled(claimed, outcomes, now, repository.rows)
      // The batch is what was due; each of its events is sent once, unless it cannot be decoded; and
      // all other rows are as the claim left them.
      ensures TakesDue(s.rows, claimed.Keys, batchSize, StaleBefore(now, lockTimeoutSeconds), now, skipped)
      ensures s.mails <= t.mails && MailsAre(t.mails[|s.mails|..], claimed, map[], outcomes)
      ensures OthersStay(s.rows, claimed.Keys, StaleBefore(now, lockTimeoutSeconds), repository.rows)
    {
      var events;
      ghost var claim, m;
      events, claim, m := ClaimEvents(now, skipped, s);
      processed, claimed := |events|, events;
      steps, t := DeliverAll(events, now, outcomes, m);
      RunAppend(s, [claim], m, steps, t);
      BatchTakesDue(s.rows, events.Keys, batchSize, StaleBefore(now, lockTimeoutSeconds), now, skipped);
      BatchDone(s, m, t, events, StaleBefore(now, lockTimeoutSeconds), outcomes);
      steps := [claim] + steps;
    }

    /** The first half of it: the claim as a step of the machine. */
    method ClaimEvents(now: Time, skipped: set<EventId>, ghost s: State)
      returns (events: map<EventId, Row>, ghost claim: Step, ghost m: State)
      requires s.rows == repository.rows && Inv(s) && Holding(s, workerId, map[])
      modifies repository
      ensures Run(s, [claim], m) && m.rows == repository.rows && Holding(m, workerId, events)
      ensures |events| <= batchSize && m.mails == s.mails
      ensures IsBatch(s.rows, Candidates(s.rows, StaleBefore(now, lockTimeoutSeconds), now, skipped),
                      batchSize, events.Keys)
      ensures OthersStay(s.rows, events.Keys, StaleBefore(now, lockTimeoutSeconds), m.rows)
    {
      events := repository.ClaimBatch(workerId, batchSize, lockTimeoutSeconds, now, skipped);
      ghost var cutoff := StaleBefore(now, lockTimeoutSeconds);
      LeasedOthersStay(s.rows, events.Keys, workerId, cutoff, now, repository.rows);
      claim, m := ClaimIsStep(s, workerId, batchSize, cutoff, now, skipped, repository.rows, events);
    }
  }

  ghost predicate AllSettled(events: map<EventId, Row>, outcomes: EventId -> Outcome, now: Time, t: Table) {
    forall id | id in events :: id in t && Settled(events[id], outcomes(id), now, t[id])
  }

  /** A claimed batch, seen from the machine. */
  lemma ClaimIsStep(s: State, w: WorkerId, limit: nat, cutoff: Time, now: Time, skipped: set<EventId>,
                    rows: Table, events: map<EventId, Row>) returns (claim: Step, m: State)
    requires Inv(s) && Holding(s, w, map[])
    requires IsBatch(s.rows, Candidates(s.rows, cutoff, now, skipped), limit, events.Keys)
    requires rows == ClaimRows(s.rows, w, events.Keys, cutoff, now)
    requires forall id | id in events :: id in rows && events[id] == rows[id]
    ensures Run(s, [claim], m) && m.rows == rows && Holding(m, w, events)
    ensures |events| <= limit && m.mails == s.mails
  {
    claim := Claim(w, events.Keys, skipped, limit, cutoff, now);
    m := Next(s, claim);
    assert [claim][1..] == [] && Run(m, [], m);
    assert |events| == |events.Keys|;
    ClaimHolds(s, claim, events);
  }

  lemma ClaimHolds(s: State, claim: Step, events: map<EventId, Row>)
    requires Inv(s) && claim.Claim? && Enabled(s, claim) && claim.chosen == events.Keys
    requires forall id | id in events :: id in Next(s, claim).rows && events[id] == Next(s, claim).rows[id]
    ensures Holding(Next(s, claim), claim.w, events)
  {
    var t := Next(s, claim);
    assert claim.chosen <= Candidates(s.rows, claim.staleBefore, claim.now, claim.skipped);
    forall id | id in events ensures t.rows[id] == Lease(s.rows[id], claim.w, claim.now) && RowOk(s.rows[id]) {
      ClaimedRow(s, claim.w, claim.chosen, claim.staleBefore, claim.now, id);
    }
  }

  lemma {:induction false} RunAppend(s: State, a: seq<Step>, m: State, b: seq<Step>, t: State)
    requires Run(s, a, m) && Run(m, b, t)
    ensures Run(s, a + b, t)
    decreases |a|
  {
    if a == [] {
      assert a + b == b;
    } else {
      RunAppend(Next(s, a[0]), a[1..], m, b, t);
      assert (a + b)[1..] == a[1..] + b;
    }
  }
}
