/** The burndown of an organization: daily buckets summed by a window, against the direct count
    of the tasks open at the end of each day. Days are UTC days of 86 400 000 milliseconds, as
    the database session counts them. */
module Burndown {
  import opened Optional

  type Time = int
  const DAY_MS := 24 * 60 * 60 * 1000

  /** The columns of a task the queries read. */
  datatype Task = Task(orgId: nat, parentId: Option<nat>, isDeleted: bool,
                       createdAt: Time, isCompleted: bool, completedAt: Option<Time>)

  function Day(t: Time): int { t / DAY_MS }

  /** The window starts at midnight, `days` - 1 days before today. */
  function WindowStart(now: Time, days: int): Time { Day(now) * DAY_MS - (days - 1) * DAY_MS }

  // ---------- The queries ----------

  predicate Active(t: Task, orgId: nat) { t.orgId == orgId && !t.isDeleted && t.parentId.None? }

  function Count(tasks: seq<Task>, p: Task -> bool): nat {
    if tasks == [] then 0 else (if p(tasks[0]) then 1 else 0) + Count(tasks[1..], p)
  }

  predicate CreatedOn(t: Task, from: Time, day: int) { t.createdAt >= from && Day(t.createdAt) == day }

  predicate CompletedOn(t: Task, from: Time, day: int) {
    t.isCompleted && t.completedAt.Some? && t.completedAt.value >= from && Day(t.completedAt.value) == day
  }

  predicate InitiallyOpen(t: Task, from: Time) {
    t.createdAt < from && (t.completedAt.None? || t.completedAt.value >= from)
  }

  function Created(tasks: seq<Task>, orgId: nat, from: Time, day: int): nat {
    Count(tasks, t => Active(t, orgId) && CreatedOn(t, from, day))
  }

  function Completed(tasks: seq<Task>, orgId: nat, from: Time, day: int): nat {
    Count(tasks, t => Active(t, orgId) && CompletedOn(t, from, day))
  }

  function InitialOpen(tasks: seq<Task>, orgId: nat, from: Time): nat {
    Count(tasks, t => Active(t, orgId) && InitiallyOpen(t, from))
  }

  /** The window sum of created - completed over the days from Day(from) up to and including day. */
  function NetUpTo(tasks: seq<Task>, orgId: nat, from: Time, day: int): int
    decreases day - Day(from) + 1
  {
    if day < Day(from) then 0
    else NetUpTo(tasks, orgId, from, day - 1) + Created(tasks, orgId, from, day) - Completed(tasks, orgId, from, day)
  }

  datatype TrendPoint = TrendPoint(day: int, created: nat, completed: nat, remaining: int)

  function Remaining(tasks: seq<Task>, orgId: nat, from: Time, day: int): int {
    var open := InitialOpen(tasks, orgId, from) + NetUpTo(tasks, orgId, from, day);
    if open < 0 then 0 else open
  }

  function Trend(tasks: seq<Task>, orgId: nat, from: Time, to: Time): seq<TrendPoint>
    requires Day(from) <= Day(to)
  {
    seq(Day(to) - Day(from) + 1, i =>
      var day := Day(from) + i;
      TrendPoint(day, Created(tasks, orgId, from, day), Completed(tasks, orgId, from, day),
                 Remaining(tasks, orgId, from, day)))
  }

  function OpenTasks(tasks: seq<Task>, orgId: nat): nat { Count(tasks, t => Active(t, orgId) && !t.isCompleted) }

  function CreatedInPeriod(tasks: seq<Task>, orgId: nat, from: Time): nat {
    Count(tasks, t => Active(t, orgId) && t.createdAt >= from)
  }

  function CompletedInPeriod(tasks: seq<Task>, orgId: nat, from: Time): nat {
    Count(tasks, t => Active(t, orgId) && t.isCompleted && t.completedAt.Some? && t.completedAt.value >= from)
  }

  // ---------- The direct count ----------

  predicate OpenAt(t: Task, end: Time) {
    t.createdAt < end && !(t.completedAt.Some? && t.completedAt.value < end)
  }

  function EndOf(day: int): Time { (day + 1) * DAY_MS }

  /** How many tasks of the organization are open when the day ends. */
  function OpenAtEnd(tasks: seq<Task>, orgId: nat, day: int): nat {
    Count(tasks, t => Active(t, orgId) && OpenAt(t, EndOf(day)))
  }

  // ---------- One task ----------

  function Bit(b: bool): int { if b then 1 else 0 }

  /** What one task adds to initial_open plus the window sum. */
  function Share(t: Task, from: Time, day: int): int {
    Bit(InitiallyOpen(t, from))
    + Bit(t.createdAt >= from && Day(t.createdAt) <= day)
    - Bit(t.isCompleted && t.completedAt.Some? && t.completedAt.value >= from && Day(t.completedAt.value) <= day)
  }

  /** The rows on which window and direct count agree: never completed, completed before the
      window without a time paradox, or completed in it, flagged, and not before the day of
      creation. */
  predicate Consistent(t: Task, from: Time) {
    match t.completedAt
    case None => true
    case Some(c) =>
      if c < from then t.createdAt < from
      else t.isCompleted && (t.createdAt >= from ==> Day(t.createdAt) <= Day(c))
  }

  lemma DayBefore(t: Time, day: int)
    ensures Day(t) <= day <==> t < EndOf(day)
  {}

  /** For one task the two counts agree on every day of the window exactly when it is consistent. */
  lemma ShareExactlyWhen(t: Task, from: Time)
    requires from == Day(from) * DAY_MS
    ensures (forall day | day >= Day(from) :: Share(t, from, day) == Bit(OpenAt(t, EndOf(day))))
            <==> Consistent(t, from)
  {
    if Consistent(t, from) {
      forall day | day >= Day(from) ensures Share(t, from, day) == Bit(OpenAt(t, EndOf(day))) {
        DayBefore(t.createdAt, day);
        if t.completedAt.Some? { DayBefore(t.completedAt.value, day); }
        DayBefore(from, day);
      }
    } else {
      var c := t.completedAt.value;
      var first := if c >= from && t.isCompleted then Day(c)
                   else if Day(t.createdAt) >= Day(c) then Day(t.createdAt) else Day(c);
      var day := if first < Day(from) then Day(from) else first;
      DayBefore(t.createdAt, day);
      DayBefore(c, day);
      DayBefore(from, day);
      assert Share(t, from, day) != Bit(OpenAt(t, EndOf(day)));
    }
  }

  // ---------- All tasks ----------

  ghost function Shares(tasks: seq<Task>, orgId: nat, from: Time, day: int): int {
    if tasks == [] then 0
    else (if Active(tasks[0], orgId) then Share(tasks[0], from, day) else 0) + Shares(tasks[1..], orgId, from, day)
  }

  lemma {:induction false} CountCons(tasks: seq<Task>, p: Task -> bool)
    requires tasks != []
    ensures Count(tasks, p) == Bit(p(tasks[0])) + Count(tasks[1..], p)
  {}

  lemma {:induction false} NetCons(tasks: seq<Task>, orgId: nat, from: Time, day: int)
    requires tasks != []
    ensures NetUpTo(tasks, orgId, from, day) == NetUpTo(tasks[1..], orgId, from, day)
            + (if !Active(tasks[0], orgId) then 0
               else Bit(tasks[0].createdAt >= from && Day(tasks[0].createdAt) <= day)
                    - Bit(tasks[0].isCompleted && tasks[0].completedAt.Some?
                          && tasks[0].completedAt.value >= from && Day(tasks[0].completedAt.value) <= day))
    decreases day - Day(from) + 1
  {
    if day >= Day(from) {
      NetCons(tasks, orgId, from, day - 1);
      CountCons(tasks, t => Active(t, orgId) && CreatedOn(t, from, day));
      CountCons(tasks, t => Active(t, orgId) && CompletedOn(t, from, day));
    }
  }

  /** Summing buckets day by day is the same as summing task by task. */
  lemma {:induction false} WindowIsShares(tasks: seq<Task>, orgId: nat, from: Time, day: int)
    ensures InitialOpen(tasks, orgId, from) + NetUpTo(tasks, orgId, from, day) == Shares(tasks, orgId, from, day)
    decreases |tasks|
  {
    if tasks == [] {
      NetOfNothing(orgId, from, day);
    } else {
      WindowIsShares(tasks[1..], orgId, from, day);
      NetCons(tasks, orgId, from, day);
    }
  }

  lemma {:induction false} NetOfNothing(orgId: nat, from: Time, day: int)
    ensures NetUpTo([], orgId, from, day) == 0
    decreases day - Day(from) + 1
  {
    if day >= Day(from) { NetOfNothing(orgId, from, day - 1); }
  }

  ghost predicate AllConsistent(tasks: seq<Task>, orgId: nat, from: Time) {
    forall i | 0 <= i < |tasks| && Active(tasks[i], orgId) :: Consistent(tasks[i], from)
  }

  lemma {:induction false} SharesAreOpen(tasks: seq<Task>, orgId: nat, from: Time, day: int)
    requires from == Day(from) * DAY_MS && day >= Day(from) && AllConsistent(tasks, orgId, from)
    ensures Shares(tasks, orgId, from, day) == OpenAtEnd(tasks, orgId, day)
    decreases |tasks|
  {
    if tasks != [] {
      assert Active(tasks[0], orgId) ==> Consistent(tasks[0], from);
      forall i | 0 <= i < |tasks[1..]| && Active(tasks[1..][i], orgId) ensures Consistent(tasks[1..][i], from) {
        assert tasks[1..][i] == tasks[i + 1];
      }
      SharesAreOpen(tasks[1..], orgId, from, day);
      ShareExactlyWhen(tasks[0], from);
      CountCons(tasks, t => Active(t, orgId) && OpenAt(t, EndOf(day)));
    }
  }

  /** The burndown is right: on consistent rows `remaining` is the number of tasks open when the
      day ends, and the clamp at zero never cuts anything off. */
  lemma BurndownIsOpenCount(tasks: seq<Task>, orgId: nat, from: Time, to: Time, i: nat)
    requires from == Day(from) * DAY_MS && from <= to && i <= Day(to) - Day(from)
    requires AllConsistent(tasks, orgId, from)
    ensures Day(from) <= Day(to)
    ensures var p := Trend(tasks, orgId, from, to)[i];
            && p.remaining == OpenAtEnd(tasks, orgId, Day(from) + i)
            && p.remaining == InitialOpen(tasks, orgId, from) + NetUpTo(tasks, orgId, from, Day(from) + i)
  {
    var day := Day(from) + i;
    WindowIsShares(tasks, orgId, from, day);
    SharesAreOpen(tasks, orgId, from, day);
  }

  // ---------- The completion invariant ----------

  /** What the task service keeps: the flag and the time stamp of completion agree, and nothing
      is completed before it is created. */
  predicate CompletionOk(t: Task, now: Time) {
    && (t.isCompleted <==> t.completedAt.Some?)
    && t.createdAt <= now
    && (t.completedAt.Some? ==> t.createdAt <= t.completedAt.value <= now)
  }

  lemma CompletionConsistent(t: Task, now: Time, from: Time)
    requires CompletionOk(t, now)
    ensures Consistent(t, from)
  {}

  /** The writes of the task service to these columns, at the time of a nondecreasing clock. */
  datatype Write =
    | CreateTask(orgId: nat, parentId: Option<nat>)
    | UpdateTask(index: nat, isCompleted: Option<bool>)
    | DeleteTask(index: nat)

  function Apply(tasks: seq<Task>, w: Write, now: Time): seq<Task> {
    match w
    case CreateTask(orgId, parentId) => tasks + [Task(orgId, parentId, false, now, false, None)]
    case UpdateTask(i, isCompleted) =>
      if i >= |tasks| || tasks[i].isDeleted || isCompleted.None? then tasks
      else tasks[i := tasks[i].(isCompleted := isCompleted.value,
                                completedAt := if isCompleted.value then Some(now) else None)]
    case DeleteTask(i) => if i >= |tasks| || tasks[i].isDeleted then tasks else tasks[i := tasks[i].(isDeleted := true)]
  }

  ghost predicate Run(tasks: seq<Task>, now: Time, writes: seq<(Write, Time)>, after: seq<Task>, end: Time)
    decreases |writes|
  {
    if writes == [] then tasks == after && now <= end
    else now <= writes[0].1 && Run(Apply(tasks, writes[0].0, writes[0].1), writes[0].1, writes[1..], after, end)
  }

  lemma {:induction false} RunKeepsCompletion(tasks: seq<Task>, now: Time, writes: seq<(Write, Time)>,
                                              after: seq<Task>, end: Time)
    requires Run(tasks, now, writes, after, end)
    requires forall i | 0 <= i < |tasks| :: CompletionOk(tasks[i], now)
    ensures forall i | 0 <= i < |after| :: CompletionOk(after[i], end)
    decreases |writes|
  {
    if writes != [] {
      var (w, at) := writes[0];
      RunKeepsCompletion(Apply(tasks, w, at), at, writes[1..], after, end);
    }
  }

  lemma {:induction false} CountSame(tasks: seq<Task>, p: Task -> bool, q: Task -> bool)
    requires forall i | 0 <= i < |tasks| :: p(tasks[i]) == q(tasks[i])
    ensures Count(tasks, p) == Count(tasks, q)
    decreases |tasks|
  {
    if tasks != [] {
      forall i | 0 <= i < |tasks[1..]| ensures p(tasks[1..][i]) == q(tasks[1..][i]) {
        assert tasks[1..][i] == tasks[i + 1];
      }
      CountSame(tasks[1..], p, q);
    }
  }

  lemma AllCompletionConsistent(tasks: seq<Task>, now: Time, from: Time)
    requires forall i | 0 <= i < |tasks| :: CompletionOk(tasks[i], now)
    ensures forall i | 0 <= i < |tasks| :: Consistent(tasks[i], from)
  {
    forall i | 0 <= i < |tasks| ensures Consistent(tasks[i], from) { CompletionConsistent(tasks[i], now, from); }
  }

  /** Whatever is completed was completed by now, so it is not open when today ends. */
  lemma OpenTodayIsOpen(tasks: seq<Task>, orgId: nat, now: Time)
    requires forall i | 0 <= i < |tasks| :: CompletionOk(tasks[i], now)
    ensures OpenAtEnd(tasks, orgId, Day(now)) == OpenTasks(tasks, orgId)
  {
    CountSame(tasks, t => Active(t, orgId) && OpenAt(t, EndOf(Day(now))), t => Active(t, orgId) && !t.isCompleted);
  }

  /** Today's point of the chart is the number of open tasks the summary shows. */
  lemma LastPointIsOpenTasks(tasks: seq<Task>, orgId: nat, from: Time, to: Time)
    requires from == Day(from) * DAY_MS && from <= to
    requires forall i | 0 <= i < |tasks| :: CompletionOk(tasks[i], to)
    ensures Day(from) <= Day(to) && |Trend(tasks, orgId, from, to)| > 0
    ensures var trend := Trend(tasks, orgId, from, to); trend[|trend| - 1].remaining == OpenTasks(tasks, orgId)
  {
    AllCompletionConsistent(tasks, to, from);
    BurndownIsOpenCount(tasks, orgId, from, to, Day(to) - Day(from));
    OpenTodayIsOpen(tasks, orgId, to);
  }

  lemma WindowIsDays(now: Time, days: int)
    requires 1 <= days
    ensures var from := WindowStart(now, days);
            Day(from) == Day(now) - (days - 1) && from == Day(from) * DAY_MS && from <= now
  {
    assert WindowStart(now, days) == (Day(now) - (days - 1)) * DAY_MS;
  }

  /** The window of a request: the last `days` UTC days, today included. */
  method TrendWindow(now: Time, days: int) returns (from: Time)
    requires 1 <= days
    ensures from == WindowStart(now, days)
    ensures Day(from) == Day(now) - (days - 1) && from == Day(from) * DAY_MS && from <= now
  {
    WindowIsDays(now, days);
    from := now;
    from := from - from % DAY_MS;
    from := from - (days - 1) * DAY_MS;
  }

  /** In every table the task service can produce, the chart has one point for each day, and every
      point is exact. */
  lemma BurndownOfReachableTables(writes: seq<(Write, Time)>, start: Time, tasks: seq<Task>, now: Time,
                                  orgId: nat, days: int, i: nat)
    requires Run([], start, writes, tasks, now) && 1 <= days && i < days
    ensures var from := WindowStart(now, days);
            && Day(from) <= Day(now)
            && |Trend(tasks, orgId, from, now)| == days
            && Trend(tasks, orgId, from, now)[i].remaining == OpenAtEnd(tasks, orgId, Day(now) - (days - 1) + i)
  {
    var from := WindowStart(now, days);
    WindowIsDays(now, days);
    RunKeepsCompletion([], start, writes, tasks, now);
    AllCompletionConsistent(tasks, now, from);
    BurndownIsOpenCount(tasks, orgId, from, now, i);
  }

  /** And its last point is the summary's open count. */
  lemma SummaryOfReachableTables(writes: seq<(Write, Time)>, start: Time, tasks: seq<Task>, now: Time,
                                 orgId: nat, days: int)
    requires Run([], start, writes, tasks, now) && 1 <= days
    ensures var from := WindowStart(now, days);
            && Day(from) <= Day(now) && |Trend(tasks, orgId, from, now)| == days
            && Trend(tasks, orgId, from, now)[days - 1].remaining == OpenTasks(tasks, orgId)
  {
    WindowIsDays(now, days);
    RunKeepsCompletion([], start, writes, tasks, now);
    LastPointIsOpenTasks(tasks, orgId, WindowStart(now, days), now);
  }

  // ---------- Conservation ----------

  function SumCreated(tasks: seq<Task>, orgId: nat, from: Time, day: int): int
    decreases day - Day(from) + 1
  {
    if day < Day(from) then 0
    else SumCreated(tasks, orgId, from, day - 1) + Created(tasks, orgId, from, day)
  }

  lemma {:induction false} SumCreatedIs(tasks: seq<Task>, orgId: nat, from: Time, day: int)
    requires day >= Day(from) - 1 && from == Day(from) * DAY_MS
    ensures SumCreated(tasks, orgId, from, day)
            == Count(tasks, t => Active(t, orgId) && t.createdAt >= from && Day(t.createdAt) <= day)
    decreases day - Day(from) + 1
  {
    var p := t => Active(t, orgId) && t.createdAt >= from && Day(t.createdAt) <= day;
    if day < Day(from) {
      CountNone(tasks, p);
    } else {
      SumCreatedIs(tasks, orgId, from, day - 1);
      CountSplit(tasks, p, t => Active(t, orgId) && t.createdAt >= from && Day(t.createdAt) <= day - 1,
                 t => Active(t, orgId) && CreatedOn(t, from, day));
    }
  }

  lemma {:induction false} CountNone(tasks: seq<Task>, p: Task -> bool)
    requires forall i | 0 <= i < |tasks| :: !p(tasks[i])
    ensures Count(tasks, p) == 0
    decreases |tasks|
  {
    if tasks != [] {
      forall i | 0 <= i < |tasks[1..]| ensures !p(tasks[1..][i]) { assert tasks[1..][i] == tasks[i + 1]; }
      CountNone(tasks[1..], p);
    }
  }

  lemma {:induction false} CountSplit(tasks: seq<Task>, p: Task -> bool, q: Task -> bool, r: Task -> bool)
    requires forall t :: Bit(p(t)) == Bit(q(t)) + Bit(r(t))
    ensures Count(tasks, p) == Count(tasks, q) + Count(tasks, r)
    decreases |tasks|
  {
    if tasks != [] { CountSplit(tasks[1..], p, q, r); }
  }

  /** The daily created counts add up to the summary's createdInPeriod. */
  lemma CreatedAddsUp(tasks: seq<Task>, orgId: nat, from: Time, to: Time)
    requires from == Day(from) * DAY_MS && from <= to
    requires forall i | 0 <= i < |tasks| :: tasks[i].createdAt <= to
    ensures SumCreated(tasks, orgId, from, Day(to)) == CreatedInPeriod(tasks, orgId, from)
  {
    SumCreatedIs(tasks, orgId, from, Day(to));
    CountSame(tasks, t => Active(t, orgId) && t.createdAt >= from && Day(t.createdAt) <= Day(to),
              t => Active(t, orgId) && t.createdAt >= from);
  }

  function SumCompleted(tasks: seq<Task>, orgId: nat, from: Time, day: int): int
    decreases day - Day(from) + 1
  {
    if day < Day(from) then 0
    else SumCompleted(tasks, orgId, from, day - 1) + Completed(tasks, orgId, from, day)
  }

  predicate CompletedUpTo(t: Task, from: Time, day: int) {
    t.isCompleted && t.completedAt.Some? && t.completedAt.value >= from && Day(t.completedAt.value) <= day
  }

  lemma {:induction false} SumCompletedIs(tasks: seq<Task>, orgId: nat, from: Time, day: int)
    requires day >= Day(from) - 1 && from == Day(from) * DAY_MS
    ensures SumCompleted(tasks, orgId, from, day) == Count(tasks, t => Active(t, orgId) && CompletedUpTo(t, from, day))
    decreases day - Day(from) + 1
  {
    var p := t => Active(t, orgId) && CompletedUpTo(t, from, day);
    if day < Day(from) {
      CountNone(tasks, p);
    } else {
      SumCompletedIs(tasks, orgId, from, day - 1);
      CountSplit(tasks, p, t => Active(t, orgId) && CompletedUpTo(t, from, day - 1),
                 t => Active(t, orgId) && CompletedOn(t, from, day));
    }
  }

  /** The daily completed counts add up to the summary's completedInPeriod. */
  lemma CompletedAddsUp(tasks: seq<Task>, orgId: nat, from: Time, to: Time)
    requires from == Day(from) * DAY_MS && from <= to
    requires forall i | 0 <= i < |tasks| :: tasks[i].completedAt.Some? ==> tasks[i].completedAt.value <= to
    ensures SumCompleted(tasks, orgId, from, Day(to)) == CompletedInPeriod(tasks, orgId, from)
  {
    SumCompletedIs(tasks, orgId, from, Day(to));
    CountSame(tasks, t => Active(t, orgId) && CompletedUpTo(t, from, Day(to)),
              t => Active(t, orgId) && t.isCompleted && t.completedAt.Some? && t.completedAt.value >= from);
  }

  // ---------- What the figures count ----------

  /** The tasks themselves, by their place in the table. */
  ghost function Rows(tasks: seq<Task>, p: Task -> bool): set<nat> { set k: nat | k < |tasks| && p(tasks[k]) }

  lemma {:induction false} CountSnoc(tasks: seq<Task>, t: Task, p: Task -> bool)
    ensures Count(tasks + [t], p) == Count(tasks, p) + Bit(p(t))
    decreases |tasks|
  {
    if tasks == [] {
      assert tasks + [t] == [t];
    } else {
      CountSnoc(tasks[1..], t, p);
      assert (tasks + [t])[1..] == tasks[1..] + [t];
    }
  }

  /** The recursive count of the queries is the number of rows. */
  lemma {:induction false} CountIsRows(tasks: seq<Task>, p: Task -> bool)
    ensures Count(tasks, p) == |Rows(tasks, p)|
    decreases |tasks|
  {
    if tasks != [] {
      var n := |tasks| - 1;
      CountIsRows(tasks[..n], p);
      CountSnoc(tasks[..n], tasks[n], p);
      assert tasks == tasks[..n] + [tasks[n]];
      assert Rows(tasks, p) == Rows(tasks[..n], p) + if p(tasks[n]) then {n} else {};
    }
  }

  lemma CountMeans(tasks: seq<Task>, p: Task -> bool, rows: set<nat>)
    requires forall k: nat :: k in rows <==> k < |tasks| && p(tasks[k])
    ensures Count(tasks, p) == |rows|
  {
    CountIsRows(tasks, p);
    assert Rows(tasks, p) == rows;
  }

  /** What every figure is about: the organization's live top-level tasks. */
  ghost function Live(tasks: seq<Task>, orgId: nat): set<nat> {
    set k: nat | k < |tasks| && tasks[k].orgId == orgId && !tasks[k].isDeleted && tasks[k].parentId == None
  }

  lemma CreatedMeans(tasks: seq<Task>, orgId: nat, from: Time, day: int)
    requires from == Day(from) * DAY_MS && day >= Day(from)
    ensures Created(tasks, orgId, from, day)
            == |set k | k in Live(tasks, orgId) && day * 86400000 <= tasks[k].createdAt < (day + 1) * 86400000|
  {
    CountMeans(tasks, t => Active(t, orgId) && CreatedOn(t, from, day),
               set k | k in Live(tasks, orgId) && day * 86400000 <= tasks[k].createdAt < (day + 1) * 86400000);
  }

  lemma CompletedMeans(tasks: seq<Task>, orgId: nat, from: Time, day: int)
    requires from == Day(from) * DAY_MS && day >= Day(from)
    ensures Completed(tasks, orgId, from, day)
            == |set k | && k in Live(tasks, orgId) && tasks[k].isCompleted && tasks[k].completedAt.Some?
                        && day * 86400000 <= tasks[k].completedAt.value < (day + 1) * 86400000|
  {
    CountMeans(tasks, t => Active(t, orgId) && CompletedOn(t, from, day),
               set k | && k in Live(tasks, orgId) && tasks[k].isCompleted && tasks[k].completedAt.Some?
                       && day * 86400000 <= tasks[k].completedAt.value < (day + 1) * 86400000);
  }

  lemma OpenAtEndMeans(tasks: seq<Task>, orgId: nat, day: int)
    ensures OpenAtEnd(tasks, orgId, day)
            == |set k | && k in Live(tasks, orgId) && tasks[k].createdAt < (day + 1) * 86400000
                        && (tasks[k].completedAt.Some? ==> (day + 1) * 86400000 <= tasks[k].completedAt.value)|
  {
    CountMeans(tasks, t => Active(t, orgId) && OpenAt(t, EndOf(day)),
               set k | && k in Live(tasks, orgId) && tasks[k].createdAt < (day + 1) * 86400000
                       && (tasks[k].completedAt.Some? ==> (day + 1) * 86400000 <= tasks[k].completedAt.value));
  }

  /** A point of the chart, in every table the task service can produce: which UTC day it is, how
      many of the tasks were created on it, how many completed, and how many were there and not
      completed when it ended. */
  lemma PointMeans(writes: seq<(Write, Time)>, start: Time, tasks: seq<Task>, now: Time, orgId: nat, days: int, i: nat)
    requires Run([], start, writes, tasks, now) && 1 <= days && i < days
    ensures Day(WindowStart(now, days)) <= Day(now) && |Trend(tasks, orgId, WindowStart(now, days), now)| == days
    ensures var live := Live(tasks, orgId);
            var point := Trend(tasks, orgId, WindowStart(now, days), now)[i];
            && point.day == now / 86400000 - (days - 1) + i
            && point.created
               == |set k | k in live && point.day * 86400000 <= tasks[k].createdAt < (point.day + 1) * 86400000|
            && point.completed
               == |set k | && k in live && tasks[k].isCompleted && tasks[k].completedAt.Some?
                           && point.day * 86400000 <= tasks[k].completedAt.value < (point.day + 1) * 86400000|
            && point.remaining
               == |set k | && k in live && tasks[k].createdAt < (point.day + 1) * 86400000
                           && (tasks[k].completedAt.Some? ==>
                                 (point.day + 1) * 86400000 <= tasks[k].completedAt.value)|
  {
    var from, day := WindowStart(now, days), Day(now) - (days - 1) + i;
    WindowIsDays(now, days);
    BurndownOfReachableTables(writes, start, tasks, now, orgId, days, i);
    CreatedMeans(tasks, orgId, from, day);
    CompletedMeans(tasks, orgId, from, day);
    OpenAtEndMeans(tasks, orgId, day);
  }

  /** The summary's figures count the same tasks. */
  lemma SummaryMeans(tasks: seq<Task>, orgId: nat, from: Time)
    ensures OpenTasks(tasks, orgId) == |set k | k in Live(tasks, orgId) && !tasks[k].isCompleted|
    ensures CreatedInPeriod(tasks, orgId, from) == |set k | k in Live(tasks, orgId) && from <= tasks[k].createdAt|
    ensures CompletedInPeriod(tasks, orgId, from)
            == |set k | && k in Live(tasks, orgId) && tasks[k].isCompleted && tasks[k].completedAt.Some?
                        && from <= tasks[k].completedAt.value|
  {
    CountMeans(tasks, t => Active(t, orgId) && !t.isCompleted,
               set k | k in Live(tasks, orgId) && !tasks[k].isCompleted);
    CountMeans(tasks, t => Active(t, orgId) && t.createdAt >= from,
               set k | k in Live(tasks, orgId) && from <= tasks[k].createdAt);
    CountMeans(tasks, t => Active(t, orgId) && t.isCompleted && t.completedAt.Some? && t.completedAt.value >= from,
               set k | && k in Live(tasks, orgId) && tasks[k].isCompleted && tasks[k].completedAt.Some?
                       && from <= tasks[k].completedAt.value);
  }

  /** What each write does to every row: a new one is open and created now; flag and time stamp are
      set and cleared together; deletion only marks the row; and a deleted row never changes. */
  lemma WritesMean(tasks: seq<Task>, w: Write, now: Time, k: nat)
    requires k < |tasks|
    ensures |Apply(tasks, w, now)| == |tasks| + (if w.CreateTask? then 1 else 0)
    ensures w.CreateTask? ==>
              Apply(tasks, w, now)[|tasks|] == Task(w.orgId, w.parentId, false, now, false, None)
    ensures Apply(tasks, w, now)[k]
            == if tasks[k].isDeleted then tasks[k]
               else if w == UpdateTask(k, Some(true)) then tasks[k].(isCompleted := true, completedAt := Some(now))
               else if w == UpdateTask(k, Some(false)) then tasks[k].(isCompleted := false, completedAt := None)
               else if w == DeleteTask(k) then tasks[k].(isDeleted := true)
               else tasks[k]
  {}
}
