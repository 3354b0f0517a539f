/** Time entries and the denormalised total each task keeps of them. Every repository call is
    one transaction that locks the entry it changes, so a service call is some reads followed by
    one of these, and an interleaving of service calls is a sequence of them. */
module TimeTracking {
  import opened Optional

  type EntryId = nat
  type TaskId = nat
  type UserId = nat
  /** Milliseconds. */
  type Time = int

  datatype Entry = Entry(taskId: TaskId, userId: UserId, startedAt: Time, endedAt: Option<Time>, durationSeconds: int)
  type Entries = map<EntryId, Entry>
  datatype Store = Store(entries: Entries, tracked: map<TaskId, int>)

  datatype Result = Done(entry: Entry) | Missing | WrongState | UniqueViolation | CheckViolation

  // ---------- Transactions ----------

  /** The CHECK constraints on a row. */
  predicate RowChecks(e: Entry) {
    e.durationSeconds >= 0 && (e.endedAt.Some? ==> e.endedAt.value >= e.startedAt)
  }

  function Increment(st: Store, task: TaskId, delta: int): Store
    requires task in st.tracked
  {
    st.(tracked := st.tracked[task := st.tracked[task] + delta])
  }

  function CreateManual(st: Store, id: EntryId, e: Entry): (Store, Result)
    requires id !in st.entries
  {
    if e.taskId !in st.tracked then (st, Missing)
    else if !RowChecks(e) then (st, CheckViolation)
    else (Increment(st.(entries := st.entries[id := e]), e.taskId, e.durationSeconds), Done(e))
  }

  predicate Running(e: Entry, user: UserId) { e.userId == user && e.endedAt.None? }

  predicate HasRunning(entries: Entries, user: UserId) { exists id | id in entries :: Running(entries[id], user) }

  /** The partial unique index allows one running entry per user. */
  function Start(st: Store, id: EntryId, task: TaskId, user: UserId, now: Time): (Store, Result)
    requires id !in st.entries
  {
    var e := Entry(task, user, now, None, 0);
    if task !in st.tracked then (st, Missing)
    else if HasRunning(st.entries, user) then (st, UniqueViolation)
    else (st.(entries := st.entries[id := e]), Done(e))
  }

  function StoppedDuration(startedAt: Time, endedAt: Time): int {
    var seconds := (endedAt - startedAt) / 1000;
    if seconds < 1 then 1 else seconds
  }

  function Stop(st: Store, id: EntryId, endedAt: Time): (Store, Result)
    requires id in st.entries ==> st.entries[id].taskId in st.tracked
  {
    if id !in st.entries then (st, Missing)
    else
      var current := st.entries[id];
      var e := current.(endedAt := Some(endedAt), durationSeconds := StoppedDuration(current.startedAt, endedAt));
      if current.endedAt.Some? then (st, WrongState)
      else if !RowChecks(e) then (st, CheckViolation)
      else (Increment(st.(entries := st.entries[id := e]), e.taskId, e.durationSeconds), Done(e))
  }

  /** A new duration moves the end; without one nothing that is modelled changes. */
  function UpdateCompleted(st: Store, id: EntryId, duration: Option<int>): (Store, Result)
    requires id in st.entries ==> st.entries[id].taskId in st.tracked
  {
    if id !in st.entries then (st, Missing)
    else
      var current := st.entries[id];
      if current.endedAt.None? then (st, WrongState)
      else if duration.None? then (st, Done(current))
      else
        var end := current.startedAt + duration.value * 1000;
        var e := current.(endedAt := Some(end), durationSeconds := duration.value);
        if !RowChecks(e) then (st, CheckViolation)
        else
          (Increment(st.(entries := st.entries[id := e]), e.taskId, duration.value - current.durationSeconds), Done(e))
  }

  function Delete(st: Store, id: EntryId): (Store, Result)
    requires id in st.entries ==> st.entries[id].taskId in st.tracked
  {
    if id !in st.entries then (st, Missing)
    else
      var current := st.entries[id];
      var rest := st.(entries := st.entries - {id});
      (if current.endedAt.Some? && current.durationSeconds > 0
       then Increment(rest, current.taskId, -current.durationSeconds) else rest,
       Done(current))
  }

  // ---------- The total ----------

  function Weight(e: Entry, task: TaskId): int {
    if e.taskId == task && e.endedAt.Some? then e.durationSeconds else 0
  }

  /** The sum of the durations of the ended entries of a task. */
  ghost function Total(entries: Entries, task: TaskId): int
    decreases |entries|
  {
    if entries == map[] then 0
    else
      var id :| id in entries;
      Weight(entries[id], task) + Total(entries - {id}, task)
  }

  lemma {:induction false} TotalRemove(entries: Entries, task: TaskId, id: EntryId)
    requires id in entries
    ensures Total(entries, task) == Weight(entries[id], task) + Total(entries - {id}, task)
    decreases |entries|
  {
    var first :| && first in entries
                 && Total(entries, task) == Weight(entries[first], task) + Total(entries - {first}, task);
    if first != id {
      TotalRemove(entries - {first}, task, id);
      TotalRemove(entries - {id}, task, first);
      assert entries - {first} - {id} == entries - {id} - {first};
    }
  }

  lemma TotalSet(entries: Entries, task: TaskId, id: EntryId, e: Entry)
    ensures Total(entries[id := e], task)
         == Total(entries, task) + Weight(e, task) - if id in entries then Weight(entries[id], task) else 0
  {
    TotalRemove(entries[id := e], task, id);
    assert entries[id := e] - {id} == entries - {id};
    if id in entries { TotalRemove(entries, task, id); } else { assert entries - {id} == entries; }
  }

  // ---------- The invariant ----------

  /** A running entry holds 0; an ended one at least a second, and its duration is its length in
      whole seconds (rounded up below one second). */
  predicate EntryOk(e: Entry) {
    match e.endedAt
    case None => e.durationSeconds == 0
    case Some(end) =>
      && 1 <= e.durationSeconds && e.startedAt <= end
      && -1000 <= (end - e.startedAt) - 1000 * e.durationSeconds < 1000
  }

  ghost predicate EntriesOk(st: Store) {
    forall id | id in st.entries :: EntryOk(st.entries[id]) && st.entries[id].taskId in st.tracked
  }

  ghost predicate OneTimer(entries: Entries) {
    forall a, b, user | a in entries && b in entries && Running(entries[a], user) && Running(entries[b], user) :: a == b
  }

  ghost predicate TotalsOk(st: Store) {
    forall task | task in st.tracked :: st.tracked[task] == Total(st.entries, task)
  }

  ghost predicate Valid(st: Store) { EntriesOk(st) && OneTimer(st.entries) && TotalsOk(st) }

  /** What a transaction does to one entry, and to the total of its task. */
  lemma SetKeepsValid(st: Store, id: EntryId, e: Entry)
    requires Valid(st) && EntryOk(e) && e.taskId in st.tracked
    requires id in st.entries ==> st.entries[id].taskId == e.taskId
    requires e.endedAt.None? ==> !HasRunning(st.entries, e.userId)
    ensures var was := if id in st.entries then Weight(st.entries[id], e.taskId) else 0;
            Valid(Increment(st.(entries := st.entries[id := e]), e.taskId, Weight(e, e.taskId) - was))
  {
    var was := if id in st.entries then Weight(st.entries[id], e.taskId) else 0;
    var t := Increment(st.(entries := st.entries[id := e]), e.taskId, Weight(e, e.taskId) - was);
    forall task | task in t.tracked ensures t.tracked[task] == Total(t.entries, task) {
      TotalSet(st.entries, task, id, e);
    }
    forall a, user | a in t.entries && Running(t.entries[a], user)
      ensures if a == id then e.endedAt.None? && e.userId == user else a in st.entries && Running(st.entries[a], user)
    {}
  }

  lemma DeleteKeepsValid(st: Store, id: EntryId)
    requires Valid(st) && id in st.entries
    ensures Valid(Delete(st, id).0)
  {
    var t := Delete(st, id).0;
    assert EntryOk(st.entries[id]);
    forall task | task in t.tracked ensures t.tracked[task] == Total(t.entries, task) {
      TotalRemove(st.entries, task, id);
    }
  }

  lemma StoppedDurationOk(startedAt: Time, endedAt: Time)
    requires startedAt <= endedAt
    ensures var d := StoppedDuration(startedAt, endedAt);
            1 <= d && -1000 <= (endedAt - startedAt) - 1000 * d < 1000
  {}

  // ---------- Runs ----------

  /** The transactions the service issues: durations come in whole minutes, at most a day. */
  datatype Step =
    | LogStep(id: EntryId, task: TaskId, user: UserId, startedAt: Time, minutes: int)
    | StartStep(id: EntryId, task: TaskId, user: UserId, now: Time)
    | StopStep(id: EntryId, endedAt: Time)
    | EditStep(id: EntryId, newMinutes: Option<int>)
    | DeleteStep(id: EntryId)
    | NewTask(task: TaskId)

  predicate Minutes(m: int) { 1 <= m <= 1440 }

  function Manual(task: TaskId, user: UserId, startedAt: Time, minutes: int): Entry {
    Entry(task, user, startedAt, Some(startedAt + minutes * 60 * 1000), minutes * 60)
  }

  predicate Enabled(st: Store, step: Step) {
    && (forall id | id in st.entries :: st.entries[id].taskId in st.tracked)
    && match step
       case LogStep(id, _, _, _, minutes) => id !in st.entries && Minutes(minutes)
       case StartStep(id, _, _, _) => id !in st.entries
       case StopStep(_, _) => true
       case EditStep(_, minutes) => minutes.Some? ==> Minutes(minutes.value)
       case DeleteStep(_) => true
       case NewTask(task) => task !in st.tracked
  }

  function Next(st: Store, step: Step): Store
    requires Enabled(st, step)
  {
    match step
    case LogStep(id, task, user, startedAt, minutes) => CreateManual(st, id, Manual(task, user, startedAt, minutes)).0
    case StartStep(id, task, user, now) => Start(st, id, task, user, now).0
    case StopStep(id, endedAt) => Stop(st, id, endedAt).0
    case EditStep(id, minutes) =>
      UpdateCompleted(st, id, if minutes.None? then None else Some(minutes.value * 60)).0
    case DeleteStep(id) => Delete(st, id).0
    case NewTask(task) => st.(tracked := st.tracked[task := 0])
  }

  lemma {:induction false} NoEntriesNoTotal(entries: Entries, task: TaskId)
    requires forall id | id in entries :: entries[id].taskId != task
    ensures Total(entries, task) == 0
    decreases |entries|
  {
    if entries != map[] {
      var id :| id in entries;
      TotalRemove(entries, task, id);
      NoEntriesNoTotal(entries - {id}, task);
    }
  }

  lemma LogKeepsValid(st: Store, id: EntryId, e: Entry)
    requires Valid(st) && id !in st.entries && EntryOk(e) && e.endedAt.Some?
    ensures Valid(CreateManual(st, id, e).0)
  {
    if e.taskId in st.tracked { SetKeepsValid(st, id, e); }
  }

  lemma StartKeepsValid(st: Store, id: EntryId, task: TaskId, user: UserId, now: Time)
    requires Valid(st) && id !in st.entries
    ensures Valid(Start(st, id, task, user, now).0)
  {
    if task in st.tracked && !HasRunning(st.entries, user) {
      SetKeepsValid(st, id, Entry(task, user, now, None, 0));
      assert st.tracked[task := st.tracked[task] + 0] == st.tracked;
    }
  }

  lemma StopKeepsValid(st: Store, id: EntryId, endedAt: Time)
    requires Valid(st)
    ensures Valid(Stop(st, id, endedAt).0)
  {
    if id in st.entries && st.entries[id].endedAt.None? && st.entries[id].startedAt <= endedAt {
      StoppedDurationOk(st.entries[id].startedAt, endedAt);
      SetKeepsValid(st, id, st.entries[id].(
        endedAt := Some(endedAt), durationSeconds := StoppedDuration(st.entries[id].startedAt, endedAt)));
    }
  }

  lemma EditKeepsValid(st: Store, id: EntryId, duration: Option<int>)
    requires Valid(st) && (duration.Some? ==> 1 <= duration.value)
    ensures Valid(UpdateCompleted(st, id, duration).0)
  {
    if id in st.entries && st.entries[id].endedAt.Some? && duration.Some? {
      var e := st.entries[id];
      var end := e.startedAt + duration.value * 1000;
      SetKeepsValid(st, id, e.(endedAt := Some(end), durationSeconds := duration.value));
    }
  }

  lemma StepKeepsValid(st: Store, step: Step)
    requires Valid(st) && Enabled(st, step)
    ensures Valid(Next(st, step))
  {
    match step
    case LogStep(id, task, user, startedAt, minutes) => LogKeepsValid(st, id, Manual(task, user, startedAt, minutes));
    case StartStep(id, task, user, now) => StartKeepsValid(st, id, task, user, now);
    case StopStep(id, endedAt) => StopKeepsValid(st, id, endedAt);
    case EditStep(id, minutes) => EditKeepsValid(st, id, if minutes.None? then None else Some(minutes.value * 60));
    case DeleteStep(id) => if id in st.entries { DeleteKeepsValid(st, id); }
    case NewTask(task) =>
      forall other | other in Next(st, step).tracked
        ensures Next(st, step).tracked[other] == Total(st.entries, other)
      {
        if other == task { NoEntriesNoTotal(st.entries, task); }
      }
  }

  ghost predicate Run(st: Store, steps: seq<Step>, t: Store)
    decreases |steps|
  {
    if steps == [] then st == t
    else Enabled(st, steps[0]) && Run(Next(st, steps[0]), steps[1..], t)
  }

  lemma {:induction false} RunKeepsValid(st: Store, steps: seq<Step>, t: Store)
    requires Valid(st) && Run(st, steps, t)
    ensures Valid(t)
    decreases |steps|
  {
    if steps != [] {
      StepKeepsValid(st, steps[0]);
      RunKeepsValid(Next(st, steps[0]), steps[1..], t);
    }
  }

  /** In every interleaving of log, start, stop, edit and delete, each task's trackedSeconds is
      the sum of its ended entries, and every entry is in order. */
  lemma TrackedIsSum(steps: seq<Step>, t: Store, task: TaskId)
    requires Run(Store(map[], map[]), steps, t) && task in t.tracked
    ensures t.tracked[task] == Total(t.entries, task)
    ensures forall id | id in t.entries :: EntryOk(t.entries[id])
    ensures forall a, b, user | a in t.entries && b in t.entries
                                && Running(t.entries[a], user) && Running(t.entries[b], user) :: a == b
  {
    RunKeepsValid(Store(map[], map[]), steps, t);
  }

  // ---------- What one call undoes ----------

  lemma DeleteUndoesLog(st: Store, id: EntryId, task: TaskId, user: UserId, startedAt: Time, minutes: int)
    requires id !in st.entries && task in st.tracked && Minutes(minutes)
    ensures var logged := CreateManual(st, id, Manual(task, user, startedAt, minutes)).0;
            id in logged.entries && Delete(logged, id).0 == st
  {
    var logged := CreateManual(st, id, Manual(task, user, startedAt, minutes)).0;
    var back := Delete(logged, id).0;
    assert back.entries == st.entries;
    assert back.tracked == st.tracked;
  }

  predicate StopsOrEdits(step: Step, id: EntryId) { (step.StopStep? || step.EditStep?) && step.id == id }

  /** Stopping or editing an entry changes neither what deleting it leaves nor that it is there. */
  lemma ChangeForgotten(st: Store, step: Step)
    requires Valid(st) && Enabled(st, step) && (step.StopStep? || step.EditStep?) && step.id in st.entries
    ensures var t := Next(st, step);
            && step.id in t.entries && t.entries[step.id].taskId in t.tracked
            && Delete(t, step.id).0 == Delete(st, step.id).0
  {
    var a, b := Delete(Next(st, step), step.id).0, Delete(st, step.id).0;
    assert EntryOk(st.entries[step.id]);
    assert a.entries == b.entries;
    assert a.tracked == b.tracked;
  }

  /** Deleting an entry forgets any history of stops and edits of it. */
  lemma {:induction false} DeleteForgetsEdits(st: Store, steps: seq<Step>, t: Store, id: EntryId)
    requires Valid(st) && id in st.entries && Run(st, steps, t)
    requires forall i | 0 <= i < |steps| :: StopsOrEdits(steps[i], id)
    ensures id in t.entries && t.entries[id].taskId in t.tracked
    ensures Delete(t, id).0 == Delete(st, id).0
    decreases |steps|
  {
    if steps != [] {
      assert StopsOrEdits(steps[0], id);
      ChangeForgotten(st, steps[0]);
      StepKeepsValid(st, steps[0]);
      DeleteForgetsEdits(Next(st, steps[0]), steps[1..], t, id);
    }
  }
}
