/** The time repository and service as objects: one call at a time. */
module TimeServices {
  import opened Optional
  import opened TimeTracking

  const FUTURE_CLOCK_SKEW_MS := 5 * 60 * 1000

  datatype Reply = Ok(entry: Entry) | BadRequest | Conflict | NotFound | Failed

  class TaskTimeRepository {
    var store: Store

    constructor ()
      ensures store == Store(map[], map[]) && Valid(store)
    {
      store := Store(map[], map[]);
    }

    method FindActiveByUser(user: UserId) returns (id: Option<EntryId>)
      ensures id.Some? ==> id.value in store.entries && Running(store.entries[id.value], user)
      ensures id.None? ==> !HasRunning(store.entries, user)
    {
      if HasRunning(store.entries, user) {
        var found :| found in store.entries && Running(store.entries[found], user);
        return Some(found);
      }
      return None;
    }

    method InsertManual(id: EntryId, e: Entry) returns (result: Result)
      requires id !in store.entries
      modifies this
      ensures (store, result) == CreateManual(old(store), id, e)
      ensures result == Done(e) <==>
                e.taskId in old(store).tracked && 0 <= e.durationSeconds
                && (e.endedAt == None || e.startedAt <= e.endedAt.value)
      ensures store == if result != Done(e) then old(store) else Store(
                old(store).entries[id := e],
                old(store).tracked[e.taskId := old(store).tracked[e.taskId] + e.durationSeconds])
    {
      if e.taskId !in store.tracked {
        return Missing;
      }
      if !RowChecks(e) {
        return CheckViolation;
      }
      store := store.(entries := store.entries[id := e]);
      store := store.(tracked := store.tracked[e.taskId := store.tracked[e.taskId] + e.durationSeconds]);
      result := Done(e);
    }

    method InsertRunning(id: EntryId, task: TaskId, user: UserId, now: Time) returns (result: Result)
      requires id !in store.entries
      modifies this
      ensures (store, result) == Start(old(store), id, task, user, now)
      ensures result.Done? <==>
                && task in old(store).tracked
                && forall i | i in old(store).entries ::
                     old(store).entries[i].userId == user ==> old(store).entries[i].endedAt != None
      ensures result.Done? ==>
                && result.entry == Entry(task, user, now, None, 0)
                && store == old(store).(entries := old(store).entries[id := result.entry])
      ensures !result.Done? ==> store == old(store)
    {
      if task !in store.tracked {
        return Missing;
      }
      if HasRunning(store.entries, user) {
        return UniqueViolation;
      }
      var e := Entry(task, user, now, None, 0);
      store := store.(entries := store.entries[id := e]);
      result := Done(e);
    }

    method StopEntry(id: EntryId, endedAt: Time) returns (result: Result)
      requires id in store.entries ==> store.entries[id].taskId in store.tracked
      modifies this
      ensures (store, result) == Stop(old(store), id, endedAt)
      ensures result.Done? <==>
                && id in old(store).entries && old(store).entries[id].endedAt == None
                && old(store).entries[id].startedAt <= endedAt
      // The start stays, the end is what was asked for, and the length is booked in whole seconds.
      ensures result.Done? ==>
                var was, seconds := old(store).entries[id], result.entry.durationSeconds;
                && result.entry == Entry(was.taskId, was.userId, was.startedAt, Some(endedAt), seconds)
                && 1 <= seconds
                && (seconds * 1000 <= endedAt - was.startedAt < seconds * 1000 + 1000
                    || (seconds == 1 && endedAt - was.startedAt < 1000))
                && store == Store(
                     old(store).entries[id := result.entry],
                     old(store).tracked[was.taskId := old(store).tracked[was.taskId] + seconds])
      ensures !result.Done? ==> store == old(store)
    {
      if id !in store.entries {
        return Missing;
      }
      var current := store.entries[id];
      if current.endedAt.Some? {
        return WrongState;
      }
      var seconds := (endedAt - current.startedAt) / 1000;
      var duration := if seconds < 1 then 1 else seconds;
      var e := current.(endedAt := Some(endedAt), durationSeconds := duration);
      if !RowChecks(e) {
        return CheckViolation;
      }
      store := store.(entries := store.entries[id := e]);
      store := store.(tracked := store.tracked[e.taskId := store.tracked[e.taskId] + duration]);
      result := Done(e);
    }

    method UpdateEntry(id: EntryId, duration: Option<int>) returns (result: Result)
      requires id in store.entries ==> store.entries[id].taskId in store.tracked
      modifies this
      ensures (store, result) == UpdateCompleted(old(store), id, duration)
      ensures result.Done? <==>
                && id in old(store).entries && old(store).entries[id].endedAt != None
                && (duration.Some? ==> 0 <= duration.value)
      // A new duration moves the end of the entry; who, what and since when stay.
      ensures result.Done? && duration.Some? ==>
                var was := old(store).entries[id];
                && result.entry == Entry(was.taskId, was.userId, was.startedAt,
                                         Some(was.startedAt + 1000 * duration.value), duration.value)
                && store == Store(
                     old(store).entries[id := result.entry],
                     old(store).tracked[was.taskId :=
                       old(store).tracked[was.taskId] + duration.value - was.durationSeconds])
      ensures result.Done? && duration.None? ==> result.entry == old(store).entries[id]
      ensures !result.Done? || duration.None? ==> store == old(store)
    {
      if id !in store.entries {
        return Missing;
      }
      var current := store.entries[id];
      if current.endedAt.None? {
        return WrongState;
      }
      if duration.None? {
        return Done(current);
      }
      var e := current.(endedAt := Some(current.startedAt + duration.value * 1000), durationSeconds := duration.value);
      if !RowChecks(e) {
        return CheckViolation;
      }
      var delta := duration.value - current.durationSeconds;
      store := store.(entries := store.entries[id := e]);
      store := store.(tracked := store.tracked[e.taskId := store.tracked[e.taskId] + delta]);
      result := Done(e);
    }

    method DeleteEntry(id: EntryId) returns (result: Result)
      requires id in store.entries ==> store.entries[id].taskId in store.tracked
      modifies this
      ensures (store, result) == Delete(old(store), id)
      ensures result == if id in old(store).entries then Done(old(store).entries[id]) else Missing
      ensures store.entries == old(store).entries - {id}
      ensures store.tracked == if result.Missing? || result.entry.endedAt == None || result.entry.durationSeconds <= 0
                               then old(store).tracked
                               else old(store).tracked[result.entry.taskId :=
                                      old(store).tracked[result.entry.taskId] - result.entry.durationSeconds]
    {
      if id !in store.entries {
        return Missing;
      }
      var current := store.entries[id];
      store := store.(entries := store.entries - {id});
      if current.endedAt.Some? && current.durationSeconds > 0 {
        var rest := store.tracked[current.taskId] - current.durationSeconds;
        store := store.(tracked := store.tracked[current.taskId := rest]);
      }
      result := Done(current);
    }
  }

  class TaskTimeService {
    const repository: TaskTimeRepository

    constructor (repository: TaskTimeRepository)
      ensures this.repository == repository
    {
      this.repository := repository;
    }

    method Log(id: EntryId, task: TaskId, actor: UserId, minutes: int, startedAt: Option<Time>, now: Time)
      returns (reply: Reply)
      requires Valid(repository.store) && id !in repository.store.entries && Minutes(minutes)
      modifies repository
      ensures Valid(repository.store)
      ensures var start := if startedAt.Some? then startedAt.value else now - minutes * 60000;
              reply.Ok? <==> task in old(repository.store).tracked
                             && start + minutes * 60000 <= now + 5 * 60000
      ensures !reply.Ok? ==> repository.store == old(repository.store)
      ensures reply.BadRequest? <==>
                (if startedAt.Some? then startedAt.value else now - minutes * 60000) + minutes * 60000 > now + 5 * 60000
      ensures reply.Ok? ==>
                && repository.store.entries == old(repository.store).entries[id := reply.entry]
                && reply.entry == (var start := if startedAt.Some? then startedAt.value else now - minutes * 60000;
                                   Entry(task, actor, start, Some(start + minutes * 60000), minutes * 60))
                && repository.store.tracked
                   == old(repository.store).tracked[task := old(repository.store).tracked[task] + minutes * 60]
    {
      var durationSeconds := minutes * 60;
      var start := if startedAt.Some? then startedAt.value else now - durationSeconds * 1000;
      var end := start + durationSeconds * 1000;
      if start > now + FUTURE_CLOCK_SKEW_MS {
        return BadRequest;
      }
      if end > now + FUTURE_CLOCK_SKEW_MS {
        return BadRequest;
      }
      var e := Entry(task, actor, start, Some(end), durationSeconds);
      LogKeepsValid(repository.store, id, e);
      var result := repository.InsertManual(id, e);
      reply := if result.Done? then Ok(result.entry) else Failed;
    }

    method StartTimer(id: EntryId, task: TaskId, actor: UserId, now: Time) returns (reply: Reply)
      requires Valid(repository.store) && id !in repository.store.entries
      modifies repository
      ensures Valid(repository.store)
      ensures reply.Conflict? <==> HasRunning(old(repository.store).entries, actor)
      ensures reply.Ok? <==> !HasRunning(old(repository.store).entries, actor) && task in old(repository.store).tracked
      ensures repository.store.tracked == old(repository.store).tracked
      ensures repository.store.entries
              == if reply.Ok? then old(repository.store).entries[id := Entry(task, actor, now, None, 0)]
                 else old(repository.store).entries
      ensures reply.Ok? ==> reply.entry == Entry(task, actor, now, None, 0)
    {
      var active := repository.FindActiveByUser(actor);
      if active.Some? {
        return Conflict;
      }
      StartKeepsValid(repository.store, id, task, actor, now);
      var result := repository.InsertRunning(id, task, actor, now);
      reply := match result
        case Done(e) => Ok(e)
        case UniqueViolation => Conflict
        case _ => Failed;
    }

    method StopTimer(task: TaskId, actor: UserId, now: Time) returns (reply: Reply)
      requires Valid(repository.store)
      modifies repository
      ensures Valid(repository.store)
      // Only the actor's running entry on this very task is stopped, and its length is booked.
      ensures reply.Ok? <==> exists id | id in old(repository.store).entries ::
                Running(old(repository.store).entries[id], actor)
                && old(repository.store).entries[id].taskId == task
                && old(repository.store).entries[id].startedAt <= now
      ensures reply.Ok? ==>
                && !HasRunning(repository.store.entries, actor)
                && task in old(repository.store).tracked
                && (exists id | id in old(repository.store).entries ::
                      && old(repository.store).entries[id].endedAt == None
                      && reply.entry
                         == old(repository.store).entries[id].(endedAt := Some(now),
                                                               durationSeconds := reply.entry.durationSeconds)
                      && repository.store.entries == old(repository.store).entries[id := reply.entry])
                && reply.entry == Entry(task, actor, reply.entry.startedAt, Some(now), reply.entry.durationSeconds)
                && 1 <= reply.entry.durationSeconds
                && -1000 <= (now - reply.entry.startedAt) - 1000 * reply.entry.durationSeconds < 1000
                && repository.store.tracked == old(repository.store).tracked[
                     task := old(repository.store).tracked[task] + reply.entry.durationSeconds]
      ensures !reply.Ok? ==> repository.store == old(repository.store)
    {
      var active := repository.FindActiveByUser(actor);
      if active.None? || repository.store.entries[active.value].taskId != task {
        return NotFound;
      }
      ghost var before := repository.store;
      StopKeepsValid(before, active.value, now);
      var result := repository.StopEntry(active.value, now);
      if result.Done? {
        StoppedDurationOk(before.entries[active.value].startedAt, now);
        reply := Ok(result.entry);
      } else {
        reply := if result.CheckViolation? then Failed else Conflict;
      }
    }

    method Update(task: TaskId, id: EntryId, minutes: Option<int>) returns (reply: Reply)
      requires Valid(repository.store) && (minutes.Some? ==> Minutes(minutes.value))
      modifies repository
      ensures Valid(repository.store)
      ensures reply.Ok? <==> id in old(repository.store).entries && old(repository.store).entries[id].taskId == task
                             && old(repository.store).entries[id].endedAt.Some?
      ensures reply.NotFound? <==>
                id !in old(repository.store).entries || old(repository.store).entries[id].taskId != task
      ensures reply.BadRequest? <==> !reply.NotFound? && old(repository.store).entries[id].endedAt == None
      ensures reply.Ok? && minutes.Some? ==>
                && repository.store.entries == old(repository.store).entries[id := reply.entry]
                && reply.entry == (var was := old(repository.store).entries[id];
                                   Entry(task, was.userId, was.startedAt, Some(was.startedAt + minutes.value * 60000),
                                         minutes.value * 60))
                && task in old(repository.store).tracked
                && repository.store.tracked == old(repository.store).tracked[task :=
                     old(repository.store).tracked[task] + minutes.value * 60
                     - old(repository.store).entries[id].durationSeconds]
      ensures reply.Ok? && minutes.None? ==> reply.entry == old(repository.store).entries[id]
      ensures !reply.Ok? || minutes.None? ==> repository.store == old(repository.store)
    {
      if id !in repository.store.entries || repository.store.entries[id].taskId != task {
        return NotFound;
      }
      if repository.store.entries[id].endedAt.None? {
        return BadRequest;
      }
      var duration := if minutes.None? then None else Some(minutes.value * 60);
      EditKeepsValid(repository.store, id, duration);
      var result := repository.UpdateEntry(id, duration);
      reply := if result.Done? then Ok(result.entry) else Conflict;
    }

    method Remove(task: TaskId, id: EntryId) returns (reply: Reply)
      requires Valid(repository.store)
      modifies repository
      ensures Valid(repository.store)
      ensures reply.Ok? <==> id in old(repository.store).entries && old(repository.store).entries[id].taskId == task
      ensures reply.Ok? ==>
                && repository.store.entries == old(repository.store).entries - {id}
                && reply.entry == old(repository.store).entries[id]
                && task in old(repository.store).tracked
                && repository.store.tracked == old(repository.store).tracked[task :=
                     old(repository.store).tracked[task] - old(repository.store).entries[id].durationSeconds]
      ensures !reply.Ok? ==> repository.store == old(repository.store)
    {
      if id !in repository.store.entries || repository.store.entries[id].taskId != task {
        return NotFound;
      }
      DeleteKeepsValid(repository.store, id);
      assert EntryOk(repository.store.entries[id]);
      ghost var before := repository.store.tracked;
      assert before[task := before[task]] == before;
      var result := repository.DeleteEntry(id);
      reply := Ok(result.entry);
    }
  }
}
