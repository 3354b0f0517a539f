/** What holds over whole runs of the outbox machine. */
module OutboxRuns {
  import opened Optional
  import opened Outbox

  // ---------- Leases ----------

  /** A live lease holder works on exactly the attempt the row counts, so the terminal test it
      makes on its own copy of the row agrees with the row. */
  lemma LeaseMatchesSnapshot(s: State, w: WorkerId, id: EventId)
    requires Reachable(s) && Alive(s, w) && HeldBy(s.rows, id, w)
    ensures Slot(w, id) in s.jobs
    ensures s.jobs[Slot(w, id)].attempt == s.rows[id].attempts
    ensures s.jobs[Slot(w, id)].maxAttempts == s.rows[id].maxAttempts
  {
    ReachableInv(s);
  }

  lemma StepAttempts(s: State, step: Step, id: EventId)
    requires Enabled(s, step) && id in s.rows
    ensures id in Next(s, step).rows
    ensures Next(s, step).rows[id].attempts >= s.rows[id].attempts
  {}

  lemma {:induction false} RunAttempts(s: State, steps: seq<Step>, t: State, id: EventId)
    requires Run(s, steps, t) && id in s.rows
    ensures id in t.rows && t.rows[id].attempts >= s.rows[id].attempts
    decreases |steps|
  {
    if steps != [] {
      StepAttempts(s, steps[0], id);
      RunAttempts(Next(s, steps[0]), steps[1..], t, id);
    }
  }

  /** Once somebody else has leased the row, every later closing write of the old job is void,
      whatever happens in between. */
  lemma LostLeaseNeverWrites(s: State, steps: seq<Step>, t: State, slot: Slot, late: Step)
    requires Reachable(s) && slot in s.jobs && slot.id in s.rows
    requires s.jobs[slot].attempt < s.rows[slot.id].attempts
    requires Run(s, steps, t)
    requires slot in t.jobs && t.jobs[slot].attempt == s.jobs[slot].attempt
    requires late.Complete? || late.Retry?
    requires late.w == slot.w && late.id == slot.id && Enabled(t, late)
    ensures Next(t, late).rows == t.rows
  {
    ReachableInv(s);
    RunKeepsInv(s, steps, t);
    RunAttempts(s, steps, t, slot.id);
    assert !HeldBy(t.rows, slot.id, slot.w);
  }

  /** A step that could end or take over a lease taken at `leasedAt`. */
  predicate Disturbs(step: Step, w: WorkerId, id: EventId, leasedAt: Time) {
    || (step.Claim? && leasedAt < step.staleBefore)
    || ((step.Complete? || step.Retry?) && step.w == w && step.id == id)
  }

  /** Mutual exclusion: while no claim counts the lease as stale, only its holder changes the row. */
  lemma {:induction false} LeaseIsExclusive(s: State, steps: seq<Step>, t: State, w: WorkerId, id: EventId)
    requires Inv(s) && Run(s, steps, t) && HeldBy(s.rows, id, w) && s.rows[id].lockedAt.Some?
    requires forall i | 0 <= i < |steps| :: !Disturbs(steps[i], w, id, s.rows[id].lockedAt.value)
    ensures id in t.rows && t.rows[id] == s.rows[id]
    decreases |steps|
  {
    if steps != [] {
      var step := steps[0];
      StepKeepsInv(s, step);
      assert !Disturbs(step, w, id, s.rows[id].lockedAt.value);
      UndisturbedStep(s, step, w, id);
      LeaseIsExclusive(Next(s, step), steps[1..], t, w, id);
    }
  }

  lemma UndisturbedStep(s: State, step: Step, w: WorkerId, id: EventId)
    requires Enabled(s, step) && HeldBy(s.rows, id, w) && s.rows[id].lockedAt.Some?
    requires !Disturbs(step, w, id, s.rows[id].lockedAt.value)
    ensures id in Next(s, step).rows && Next(s, step).rows[id] == s.rows[id]
  {
    if step.Claim? {
      assert id !in Candidates(s.rows, step.staleBefore, step.now, step.skipped);
    }
  }

  /** A step of a later time that may not touch a lease taken at `since`: no claim that regards
      leases from before a later moment as lapsed, and no closing update of the holder. */
  predicate Respects(step: Step, w: WorkerId, id: EventId, since: Time) {
    && (step.Claim? ==> step.staleBefore <= since)
    && ((step.Complete? || step.Retry?) ==> step.w != w || step.id != id)
  }

  /** A lease counts from the claim that took it: until a claim looks past that moment, whatever
      everybody else does, the claiming worker alone holds the row as its claim left it. */
  lemma LeaseCountsFromClaim(s: State, claim: Step, steps: seq<Step>, t: State, id: EventId)
    requires Inv(s) && claim.Claim? && Enabled(s, claim) && id in claim.chosen
    requires Run(Next(s, claim), steps, t)
    requires forall i | 0 <= i < |steps| :: Respects(steps[i], claim.w, id, claim.now)
    ensures id in s.rows && id in Next(s, claim).rows && id in t.rows && t.rows[id] == Next(s, claim).rows[id]
    ensures t.rows[id].status == Processing && t.rows[id].lockedBy == Some(claim.w)
    ensures t.rows[id].attempts == s.rows[id].attempts + 1
  {
    var u := Next(s, claim);
    assert claim.chosen <= Candidates(s.rows, claim.staleBefore, claim.now, claim.skipped);
    ClaimedRow(s, claim.w, claim.chosen, claim.staleBefore, claim.now, id);
    StepKeepsInv(s, claim);
    assert u.rows[id].lockedAt == Some(claim.now);
    forall i | 0 <= i < |steps| ensures !Disturbs(steps[i], claim.w, id, claim.now) {
      assert Respects(steps[i], claim.w, id, claim.now);
    }
    LeaseIsExclusive(u, steps, t, claim.w, id);
  }

  /** And no longer: a claim that looks past that moment may take the row over, as long as the
      row has an attempt left. */
  lemma LeaseLapsesExactlyWhen(s: State, claim: Step, id: EventId, staleBefore: Time, now: Time)
    requires Inv(s) && claim.Claim? && Enabled(s, claim) && id in claim.chosen
    ensures id in s.rows
    ensures id in Candidates(Next(s, claim).rows, staleBefore, now, {})
            <==> claim.now < staleBefore && s.rows[id].attempts + 1 < s.rows[id].maxAttempts
  {
    assert claim.chosen <= Candidates(s.rows, claim.staleBefore, claim.now, claim.skipped);
    ClaimedRow(s, claim.w, claim.chosen, claim.staleBefore, claim.now, id);
  }

  /** Two claims in a row, the second within the lease time of the first, never take the same event. */
  lemma ClaimsDisjoint(rows: Table, w: WorkerId, first: set<EventId>, stale1: Time, now1: Time, skipped1: set<EventId>,
                       v: WorkerId, second: set<EventId>, stale2: Time, now2: Time, skipped2: set<EventId>)
    requires first <= Candidates(rows, stale1, now1, skipped1) && stale2 <= now1
    requires second <= Candidates(ClaimRows(rows, w, first, stale1, now1), stale2, now2, skipped2)
    ensures first !! second
    ensures forall id | id in first ::
              id in rows && var after := ClaimRows(ClaimRows(rows, w, first, stale1, now1), v, second, stale2, now2);
                            id in after && after[id].lockedBy == Some(w) && after[id].attempts == rows[id].attempts + 1
  {
    var middle := ClaimRows(rows, w, first, stale1, now1);
    forall id | id in first ensures id !in Candidates(middle, stale2, now2, skipped2) {
      assert id in rows && middle[id].lockedAt == Some(now1);
    }
  }

  // ---------- Mail calls ----------

  function Calls(mails: seq<Mail>, id: EventId): nat {
    if mails == [] then 0 else (if mails[0].id == id then 1 else 0) + Calls(mails[1..], id)
  }

  /** Calls that used pairwise different attempt numbers, all within 1..n but outside `used`. */
  lemma {:induction false} DistinctCallsBounded(mails: seq<Mail>, id: EventId, n: nat, used: set<int>)
    requires forall i | 0 <= i < |mails| && mails[i].id == id :: 1 <= mails[i].attempt <= n && mails[i].attempt !in used
    requires forall i, j | 0 <= i < j < |mails| && mails[i].id == id && mails[j].id == id ::
               mails[i].attempt != mails[j].attempt
    requires forall k | k in used :: 1 <= k <= n
    ensures Calls(mails, id) + |used| <= n
    decreases |mails|
  {
    if mails == [] {
      SubsetSize(used, UpTo(n));
    } else {
      var used' := if mails[0].id == id then used + {mails[0].attempt} else used;
      assert mails[0].id == id ==> mails[0].attempt !in used;
      DistinctCallsBounded(mails[1..], id, n, used');
    }
  }

  ghost function UpTo(n: nat): (r: set<int>)
    ensures |r| == n
    ensures forall k :: k in r <==> 1 <= k <= n
  {
    if n == 0 then {} else UpTo(n - 1) + {n}
  }

  lemma {:induction false} SubsetSize<T>(a: set<T>, b: set<T>)
    requires a <= b
    ensures |a| <= |b|
    decreases |a|
  {
    if a != {} {
      var x :| x in a;
      SubsetSize(a - {x}, b - {x});
    }
  }

  /** Over any run the whole fleet calls the mail provider at most maxAttempts times per event. */
  lemma MailCallsBounded(s: State, id: EventId)
    requires Reachable(s) && id in s.rows
    ensures Calls(s.mails, id) <= s.rows[id].attempts <= s.rows[id].maxAttempts
  {
    ReachableInv(s);
    assert RowOk(s.rows[id]);
    DistinctCallsBounded(s.mails, id, s.rows[id].attempts, {});
  }

  /** At least once: a completed event was accepted by the provider, and an event is only given
      up when every attempt is used. */
  lemma TerminalMeaning(s: State, id: EventId)
    requires Reachable(s) && id in s.rows
    ensures s.rows[id].status.Completed? ==> exists i | 0 <= i < |s.mails| :: s.mails[i].id == id && s.mails[i].accepted
    ensures s.rows[id].status.Failed? ==> s.rows[id].attempts == s.rows[id].maxAttempts
  {
    ReachableInv(s);
    assert RowOk(s.rows[id]);
    assert s.rows[id].status.Completed? ==> Accepted(s.mails, id);
  }

  // ---------- Bounded work ----------

  predicate Terminal(r: Row) { r.status.Completed? || r.status.Failed? }

  /** What is left to happen to a row: two changes for each remaining attempt, and one to end
      the attempt that is running. */
  function Potential(r: Row): int {
    if Terminal(r) then 0
    else 2 * (r.maxAttempts - r.attempts) + if r.status.Processing? then 1 else 0
  }

  /** The life of one row: leased (again) with the attempt counted, or a running attempt ended. */
  predicate RowMove(r: Row, r': Row) {
    && r'.maxAttempts == r.maxAttempts
    && (|| (!Terminal(r) && r'.status.Processing? && r'.attempts == r.attempts + 1)
        || (r.status.Processing? && !r'.status.Processing? && r'.attempts == r.attempts))
  }

  lemma StepMovesRow(s: State, step: Step, id: EventId)
    requires Inv(s) && Enabled(s, step) && id in s.rows
    ensures id in Next(s, step).rows
    ensures Next(s, step).rows[id] == s.rows[id] || RowMove(s.rows[id], Next(s, step).rows[id])
  {
    if step.Claim? {
      assert step.chosen <= Candidates(s.rows, step.staleBefore, step.now, step.skipped);
      ClaimedRow(s, step.w, step.chosen, step.staleBefore, step.now, id);
      assert RowOk(s.rows[id]);
    }
  }

  lemma StepSpendsPotential(s: State, step: Step, id: EventId)
    requires Inv(s) && Enabled(s, step) && id in s.rows
    ensures id in Next(s, step).rows
    ensures var r, r' := s.rows[id], Next(s, step).rows[id];
            && r'.maxAttempts == r.maxAttempts
            && 0 <= Potential(r') <= Potential(r)
            && (r' != r ==> Potential(r') < Potential(r) && !Terminal(r))
  {
    StepMovesRow(s, step, id);
    StepKeepsInv(s, step);
    assert RowOk(s.rows[id]) && RowOk(Next(s, step).rows[id]);
  }

  /** How many steps of a run change the row of an event. */
  function Changes(s: State, steps: seq<Step>, id: EventId): nat
    decreases |steps|
  {
    if steps == [] || !Enabled(s, steps[0]) || id !in s.rows then 0
    else
      var t := Next(s, steps[0]);
      (if id in t.rows && t.rows[id] == s.rows[id] then 0 else 1) + Changes(t, steps[1..], id)
  }

  lemma {:induction false} RunSpendsPotential(s: State, steps: seq<Step>, t: State, id: EventId)
    requires Inv(s) && Run(s, steps, t) && id in s.rows
    ensures id in t.rows && t.rows[id].maxAttempts == s.rows[id].maxAttempts
    ensures 0 <= Potential(t.rows[id]) && Changes(s, steps, id) + Potential(t.rows[id]) <= Potential(s.rows[id])
    decreases |steps|
  {
    if steps == [] {
      assert RowOk(s.rows[id]);
    } else {
      StepSpendsPotential(s, steps[0], id);
      StepKeepsInv(s, steps[0]);
      RunSpendsPotential(Next(s, steps[0]), steps[1..], t, id);
    }
  }

  /** However the workers interleave, crash and lose leases, a row changes at most
      2 * maxAttempts times, and never again once it is COMPLETED or FAILED. */
  lemma BoundedWork(s: State, steps: seq<Step>, t: State, id: EventId)
    requires Reachable(s) && id in s.rows && Run(s, steps, t)
    ensures Changes(s, steps, id) <= 2 * s.rows[id].maxAttempts
    ensures Terminal(s.rows[id]) ==> Changes(s, steps, id) == 0
  {
    ReachableInv(s);
    assert RowOk(s.rows[id]);
    RunSpendsPotential(s, steps, t, id);
  }

  lemma {:induction false} TerminalForever(s: State, steps: seq<Step>, t: State, id: EventId)
    requires Inv(s) && Run(s, steps, t) && id in s.rows && Terminal(s.rows[id])
    ensures id in t.rows && t.rows[id] == s.rows[id]
    decreases |steps|
  {
    if steps != [] {
      StepSpendsPotential(s, steps[0], id);
      StepKeepsInv(s, steps[0]);
      TerminalForever(Next(s, steps[0]), steps[1..], t, id);
    }
  }

  // ---------- Nothing is stranded ----------

  /** Some claim can still act on the row, provided it runs late enough. */
  ghost predicate Recoverable(r: Row) {
    exists late: Time :: ActsOn(r, late)
  }

  predicate ActsOn(r: Row, late: Time) { Claimable(r, late, late) || Exhausted(r, late) }

  lemma NotStranded(s: State, id: EventId)
    requires Reachable(s) && id in s.rows
    ensures Recoverable(s.rows[id]) <==> !Terminal(s.rows[id])
  {
    ReachableInv(s);
    var r := s.rows[id];
    assert RowOk(r);
    if !Terminal(r) {
      assert ActsOn(r, if r.status.Pending? then r.availableAt else r.lockedAt.value + 1);
    }
  }

  lemma FreshWorker(started: set<WorkerId>) returns (w: WorkerId)
    ensures w !in started
  {
    w := MaxPlusOne(started);
  }

  ghost function MaxPlusOne(ids: set<nat>): (n: nat)
    ensures forall i | i in ids :: i < n
  {
    if ids == {} then 0
    else
      var i :| i in ids;
      var rest := MaxPlusOne(ids - {i});
      assert ids == (ids - {i}) + {i};
      if i < rest then rest else i + 1
  }

  /** No reachable state is a dead end: from every one of them some schedule (a new worker, one
      claim, one delivery) settles the event. */
  lemma CanAlwaysSettle(s: State, id: EventId) returns (steps: seq<Step>, t: State)
    requires Reachable(s) && id in s.rows
    ensures Run(s, steps, t) && id in t.rows && Terminal(t.rows[id])
    ensures s.rows[id].attempts < s.rows[id].maxAttempts && !Terminal(s.rows[id]) ==> t.rows[id].status.Completed?
  {
    if Terminal(s.rows[id]) {
      return [], s;
    }
    NotStranded(s, id);
    var late :| ActsOn(s.rows[id], late);
    var w := FreshWorker(s.started);
    ReachableInv(s);
    var claim := LoneClaim(s.rows, w, id, late);
    t := SettleClaim(s, w, id, late);
    steps := [StartWorker(w)];
    assert Run(Next(s, steps[0]), [], Next(s, steps[0])) && steps[1..] == [];
    RunSnoc(s, steps, Next(s, steps[0]), claim);
    steps := steps + [claim];
    if Claimable(s.rows[id], late, late) {
      var send, done := Send(w, id, true, false), Complete(w, id, true, false, late);
      RunSnoc(s, steps, t, send);
      RunSnoc(s, steps + [send], Next(t, send), done);
      steps, t := steps + [send] + [done], Next(Next(t, send), done);
    }
  }

  /** A claim whose statement skips every other row. */
  function LoneClaim(rows: Table, w: WorkerId, id: EventId, late: Time): Step {
    Claim(w, Candidates(rows, late, late, rows.Keys - {id}), rows.Keys - {id}, 1, late, late)
  }

  lemma SettleClaim(s: State, w: WorkerId, id: EventId, late: Time) returns (t: State)
    requires Inv(s) && id in s.rows && w !in s.started && ActsOn(s.rows[id], late)
    ensures var s1 := Next(s, StartWorker(w));
            Enabled(s1, LoneClaim(s.rows, w, id, late)) && t == Next(s1, LoneClaim(s.rows, w, id, late))
    ensures Claimable(s.rows[id], late, late) ==> HeldBy(t.rows, id, w) && InPhase(t, Slot(w, id), Claimed)
    ensures !Claimable(s.rows[id], late, late) ==> id in t.rows && t.rows[id].status.Failed?
  {
    var s1 := Next(s, StartWorker(w));
    var claim := LoneClaim(s.rows, w, id, late);
    assert claim.chosen == if Claimable(s.rows[id], late, late) then {id} else {};
    forall slot | slot in s1.jobs ensures slot.w != w { assert Alive(s, slot.w); }
    t := Next(s1, claim);
    ClaimedRow(s1, w, claim.chosen, late, late, id);
  }

  // ---------- The retry delay ----------

  function Pow2(n: nat): nat { if n == 0 then 1 else 2 * Pow2(n - 1) }

  function RetryDelaySeconds(attempts: nat): nat {
    var delay := Pow2(if attempts < 10 then attempts else 10) * 5;
    if delay < 3600 then delay else 3600
  }

  /** Delays double from ten seconds and are capped at an hour exactly from the tenth attempt on. */
  lemma RetryDelay(attempts: nat)
    requires 1 <= attempts
    ensures attempts < 9 ==> RetryDelaySeconds(attempts + 1) == 2 * RetryDelaySeconds(attempts)
    ensures 10 <= RetryDelaySeconds(attempts) <= RetryDelaySeconds(attempts + 1) <= 3600
    ensures RetryDelaySeconds(attempts) == 3600 <==> attempts >= 10
    ensures RetryDelaySeconds(1) == 10
  {
    assert Pow2(9) == 512 && Pow2(10) == 1024 by {
      assert Pow2(3) == 8;
      assert Pow2(6) == 64;
      assert Pow2(9) == 512;
    }
    if attempts < 9 { PowMonotone(attempts + 1, 9); PowMonotone(1, attempts); }
  }

  lemma {:induction false} PowMonotone(m: nat, n: nat)
    requires m <= n
    ensures Pow2(m) <= Pow2(n)
    decreases n
  {
    if m < n { PowMonotone(m, n - 1); }
  }
}
