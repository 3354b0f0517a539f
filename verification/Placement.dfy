/** Where tasks may be: a task in a column has that column's board and status, and subtasks are
    one level deep and on no board. */
module Placements {
  import opened Optional
  import opened Positions
  import opened Tasks

  datatype Column = Column(boardId: nat, statusId: nat)
  datatype Board = Board(projectId: nat, isDeleted: bool)
  datatype Status = Status(orgId: nat, isDefault: bool)

  datatype World = World(
    tasks: TaskRows, columns: map<nat, Column>, boards: map<nat, Board>, statuses: map<nat, Status>)

  datatype Result<T> = Ok(value: T) | BadRequest | NotFound

  // ---------- Service decisions ----------

  /** A column of a live board of the project. */
  function FindColumn(w: World, projectId: nat, columnId: nat): Result<Column> {
    if columnId !in w.columns then NotFound
    else
      var column := w.columns[columnId];
      if column.boardId in w.boards && !w.boards[column.boardId].isDeleted
         && w.boards[column.boardId].projectId == projectId then Ok(column)
      else BadRequest
  }

  predicate OrgStatus(w: World, orgId: nat, statusId: nat) {
    statusId in w.statuses && w.statuses[statusId].orgId == orgId
  }

  datatype Placement = Placement(boardId: Option<nat>, columnId: Option<nat>, statusId: nat)

  /** resolvePlacement; `default` is the row findDefaultStatus returns. */
  function ResolvePlacement(w: World, projectId: nat, orgId: nat, columnId: Option<nat>, statusId: Option<nat>,
                            default: Option<nat>): Result<Placement>
  {
    if columnId.Some? then
      match FindColumn(w, projectId, columnId.value)
      case Ok(column) => Ok(Placement(Some(column.boardId), columnId, column.statusId))
      case NotFound => NotFound
      case BadRequest => BadRequest
    else if statusId.Some? then
      if OrgStatus(w, orgId, statusId.value) then Ok(Placement(None, None, statusId.value)) else BadRequest
    else if default.Some? then Ok(Placement(None, None, default.value))
    else BadRequest
  }

  /** What moveTask asks of the repository. */
  function MoveTarget(w: World, orgId: nat, task: Task, columnId: Option<nat>, statusId: Option<nat>): Result<Target> {
    if task.parentId.Some? then BadRequest
    else if columnId.Some? then
      match FindColumn(w, task.projectId, columnId.value)
      case Ok(column) => Ok(Target(Some(Some(column.boardId)), Some(columnId), Some(column.statusId)))
      case NotFound => NotFound
      case BadRequest => BadRequest
    else if statusId.Some? then
      if OrgStatus(w, orgId, statusId.value) then Ok(Target(Some(None), Some(None), statusId)) else BadRequest
    else Ok(Target(None, None, statusId))
  }

  // ---------- Calls ----------

  datatype Call =
    | CreateTask(id: Id, orgId: nat, projectId: nat, columnId: Option<nat>, statusId: Option<nat>,
                 default: Option<nat>, key: Key)
    | CreateSubtask(id: Id, parent: Id, key: Key)
    | MoveTask(id: Id, orgId: nat, columnId: Option<nat>, statusId: Option<nat>, toPosition: Option<int>,
               siblings: seq<Id>)
    | DeleteTask(id: Id)
    | SetArchived(id: Id, isArchived: bool)
    | CreateBoard(board: nat, projectId: nat)
    | DeleteBoard(board: nat)
    | CreateColumn(column: nat, data: Column)
    | DeleteColumn(column: nat)
    | SetStatus(status: nat, row: Status)

  predicate LiveTask(w: World, id: Id) { id in w.tasks && !w.tasks[id].isDeleted }

  function SetTask(w: World, id: Id, t: Task): World { w.(tasks := w.tasks[id := t]) }

  /** Deleting a column sets the column of its tasks to NULL. */
  function DropColumn(w: World, column: nat): World {
    w.(columns := w.columns - {column},
       tasks := map id | id in w.tasks ::
         if w.tasks[id].columnId == Some(column) then w.tasks[id].(columnId := None) else w.tasks[id])
  }

  /** One atomic service call; a refused one changes nothing. */
  ghost predicate Next(w: World, call: Call, v: World) {
    match call
    case CreateTask(id, orgId, projectId, columnId, statusId, default, key) =>
      && id !in w.tasks
      && (match ResolvePlacement(w, projectId, orgId, columnId, statusId, default)
          case Ok(p) =>
            v == SetTask(w, id, Task(orgId, projectId, p.boardId, p.columnId, p.statusId, None, false, false, key))
          case _ => v == w)
    case CreateSubtask(id, parent, key) =>
      && id !in w.tasks
      && v == if !LiveTask(w, parent) || w.tasks[parent].parentId.Some? then w
              else
                var p := w.tasks[parent];
                SetTask(w, id, Task(p.orgId, p.projectId, None, None, p.statusId, Some(parent), false, false, key))
    case MoveTask(id, orgId, columnId, statusId, toPosition, siblings) =>
      if !LiveTask(w, id) then v == w
      else
        (match MoveTarget(w, orgId, w.tasks[id], columnId, statusId)
         case Ok(target) => Moved(w.tasks, id, target, toPosition, siblings, v.tasks) && v == w.(tasks := v.tasks)
         case _ => v == w)
    case DeleteTask(id) =>
      v == if !LiveTask(w, id) then w else SetTask(w, id, w.tasks[id].(isDeleted := true, isArchived := true))
    case SetArchived(id, isArchived) =>
      v == if !LiveTask(w, id) then w else SetTask(w, id, w.tasks[id].(isArchived := isArchived))
    case CreateBoard(board, projectId) =>
      board !in w.boards && v == w.(boards := w.boards[board := Board(projectId, false)])
    case DeleteBoard(board) =>
      board in w.boards && v == w.(boards := w.boards[board := w.boards[board].(isDeleted := true)])
    case CreateColumn(column, data) =>
      column !in w.columns && data.boardId in w.boards && v == w.(columns := w.columns[column := data])
    case DeleteColumn(column) => column in w.columns && v == DropColumn(w, column)
    case SetStatus(status, row) => v == w.(statuses := w.statuses[status := row])
  }

  // ---------- What a call does to the tasks ----------

  /** A column that exists, on a board of the project that is not deleted. */
  predicate UsableColumn(w: World, projectId: nat, columnId: nat) {
    && columnId in w.columns && w.columns[columnId].boardId in w.boards
    && !w.boards[w.columns[columnId].boardId].isDeleted
    && w.boards[w.columns[columnId].boardId].projectId == projectId
  }

  predicate UsableStatus(w: World, orgId: nat, statusId: nat) {
    statusId in w.statuses && w.statuses[statusId].orgId == orgId
  }

  predicate MayMove(w: World, id: Id, orgId: nat, columnId: Option<nat>, statusId: Option<nat>) {
    && id in w.tasks && !w.tasks[id].isDeleted && w.tasks[id].parentId == None
    && (columnId != None ==> UsableColumn(w, w.tasks[id].projectId, columnId.value))
    && (columnId == None && statusId != None ==> UsableStatus(w, orgId, statusId.value))
  }

  /** A move is refused exactly for a missing task, a subtask, or a column or status that cannot be
      used. It takes a task into the column it names, with its board and status; or off the boards,
      with the status it names; or leaves it where it is. No other task changes place. */
  lemma MoveTaskMeans(w: World, call: Call, v: World)
    requires call.MoveTask? && Next(w, call, v)
    ensures v != w ==> MayMove(w, call.id, call.orgId, call.columnId, call.statusId)
    ensures MayMove(w, call.id, call.orgId, call.columnId, call.statusId) ==>
              && v == w.(tasks := v.tasks) && v.tasks.Keys == w.tasks.Keys
              && var was, now := w.tasks[call.id], v.tasks[call.id];
                 && (if call.columnId != None then
                       && now.columnId == call.columnId
                       && now.boardId == Some(w.columns[call.columnId.value].boardId)
                       && now.statusId == w.columns[call.columnId.value].statusId
                     else if call.statusId != None then
                       now.columnId == None && now.boardId == None && now.statusId == call.statusId.value
                     else
                       now.columnId == was.columnId && now.boardId == was.boardId && now.statusId == was.statusId)
                 && now
                    == was.(boardId := now.boardId, columnId := now.columnId, statusId := now.statusId, key := now.key)
    ensures forall id | id in w.tasks && id != call.id ::
              id in v.tasks && v.tasks[id] == w.tasks[id].(key := v.tasks[id].key)
  {
    if v != w {
      forall id | id in v.tasks && id != call.id ensures v.tasks[id] == w.tasks[id].(key := v.tasks[id].key) {
        if id in call.siblings { var i :| 0 <= i < |call.siblings| && call.siblings[i] == id; }
      }
    }
  }

  /** A new task starts in the column it names, with its board and status, or on no board with the
      status it names or the default one; and it is refused exactly when it cannot. */
  lemma CreateTaskMeans(w: World, call: Call, v: World)
    requires call.CreateTask? && Next(w, call, v)
    ensures var place := if call.columnId != None then call.columnId else None;
            var ok := if call.columnId != None then UsableColumn(w, call.projectId, call.columnId.value)
                      else if call.statusId != None then UsableStatus(w, call.orgId, call.statusId.value)
                      else call.default != None;
            && (!ok ==> v == w)
            && (ok ==>
                  && v == w.(tasks := w.tasks[call.id := v.tasks[call.id]])
                  && v.tasks[call.id] == Task(
                       call.orgId, call.projectId,
                       if place == None then None else Some(w.columns[place.value].boardId), place,
                       if place != None then w.columns[place.value].statusId
                       else if call.statusId != None then call.statusId.value else call.default.value,
                       None, false, false, call.key))
  {}

  /** A subtask is on no board, starts with its parent's status, and hangs off a live task that is
      none itself. */
  lemma CreateSubtaskMeans(w: World, call: Call, v: World)
    requires call.CreateSubtask? && Next(w, call, v)
    ensures var ok := && call.parent in w.tasks && !w.tasks[call.parent].isDeleted
                      && w.tasks[call.parent].parentId == None;
            && (!ok ==> v == w)
            && (ok ==> v == w.(tasks := w.tasks[call.id := Task(
                  w.tasks[call.parent].orgId, w.tasks[call.parent].projectId, None, None,
                  w.tasks[call.parent].statusId, Some(call.parent), false, false, call.key)]))
  {}

  /** Deleting archives as well; archiving is only that; and a deleted column lets its tasks stay on
      the board with their status. Nothing else about any task changes. */
  lemma OtherCallsMean(w: World, call: Call, v: World, id: Id)
    requires Next(w, call, v) && id in w.tasks && !call.MoveTask?
    ensures id in v.tasks
    ensures v.tasks[id]
            == if call == DeleteTask(id) && !w.tasks[id].isDeleted
                 then w.tasks[id].(isDeleted := true, isArchived := true)
               else if call.SetArchived? && call.id == id && !w.tasks[id].isDeleted
                 then w.tasks[id].(isArchived := call.isArchived)
               else if call.DeleteColumn? && w.tasks[id].columnId == Some(call.column)
                 then w.tasks[id].(columnId := None)
               else w.tasks[id]
  {}

  // ---------- Coherence ----------

  predicate TaskCoherent(w: World, t: Task) {
    && (t.columnId.Some? ==>
          && t.columnId.value in w.columns
          && t.boardId == Some(w.columns[t.columnId.value].boardId)
          && t.statusId == w.columns[t.columnId.value].statusId)
    && (t.boardId.Some? ==> t.boardId.value in w.boards && w.boards[t.boardId.value].projectId == t.projectId)
    && (t.parentId.Some? ==>
          && t.boardId.None? && t.columnId.None?
          && t.parentId.value in w.tasks && w.tasks[t.parentId.value].parentId.None?
          && w.tasks[t.parentId.value].orgId == t.orgId && w.tasks[t.parentId.value].projectId == t.projectId)
  }

  ghost predicate Coherent(w: World) {
    && (forall id | id in w.tasks :: TaskCoherent(w, w.tasks[id]))
    && (forall c | c in w.columns :: w.columns[c].boardId in w.boards)
  }

  lemma FindColumnMeaning(w: World, projectId: nat, columnId: nat)
    requires FindColumn(w, projectId, columnId).Ok?
    ensures columnId in w.columns && FindColumn(w, projectId, columnId).value == w.columns[columnId]
    ensures var b := w.columns[columnId].boardId; b in w.boards && w.boards[b].projectId == projectId
  {}

  lemma MoveCoherent(w: World, call: Call, v: World)
    requires Coherent(w) && call.MoveTask? && Next(w, call, v)
    ensures Coherent(v)
  {
    if LiveTask(w, call.id) && v != w {
      var task := w.tasks[call.id];
      assert TaskCoherent(w, task);
      var target := MoveTarget(w, call.orgId, task, call.columnId, call.statusId).value;
      if call.columnId.Some? { FindColumnMeaning(w, task.projectId, call.columnId.value); }
      forall id | id in v.tasks && id != call.id
        ensures id in w.tasks && v.tasks[id] == w.tasks[id].(key := v.tasks[id].key)
      {
        if id in call.siblings { var i :| 0 <= i < |call.siblings| && call.siblings[i] == id; }
      }
      assert v.tasks[call.id] == Placed(task, target).(key := v.tasks[call.id].key);
      forall id | id in v.tasks ensures TaskCoherent(v, v.tasks[id]) {
        assert TaskCoherent(w, w.tasks[id]);
      }
    }
  }

  lemma CreateCoherent(w: World, call: Call, v: World)
    requires Coherent(w) && (call.CreateTask? || call.CreateSubtask?) && Next(w, call, v)
    ensures Coherent(v)
  {
    if v != w {
      if call.CreateTask? && call.columnId.Some? { FindColumnMeaning(w, call.projectId, call.columnId.value); }
      forall id | id in v.tasks ensures TaskCoherent(v, v.tasks[id]) {
        if id in w.tasks { assert TaskCoherent(w, w.tasks[id]); }
      }
    }
  }

  lemma OtherCoherent(w: World, call: Call, v: World)
    requires Coherent(w) && !call.MoveTask? && !call.CreateTask? && !call.CreateSubtask? && Next(w, call, v)
    ensures Coherent(v)
  {
    forall id | id in v.tasks ensures TaskCoherent(v, v.tasks[id]) {
      assert id in w.tasks && TaskCoherent(w, w.tasks[id]);
    }
  }

  lemma CallCoherent(w: World, call: Call, v: World)
    requires Coherent(w) && Next(w, call, v)
    ensures Coherent(v)
  {
    if call.MoveTask? { MoveCoherent(w, call, v); }
    else if call.CreateTask? || call.CreateSubtask? { CreateCoherent(w, call, v); }
    else { OtherCoherent(w, call, v); }
  }

  ghost predicate Run(w: World, calls: seq<Call>, v: World)
    decreases |calls|
  {
    if calls == [] then w == v
    else exists u :: Next(w, calls[0], u) && Run(u, calls[1..], v)
  }

  lemma {:induction false} RunCoherent(w: World, calls: seq<Call>, v: World)
    requires Coherent(w) && Run(w, calls, v)
    ensures Coherent(v)
    decreases |calls|
  {
    if calls != [] {
      var u :| Next(w, calls[0], u) && Run(u, calls[1..], v);
      CallCoherent(w, calls[0], u);
      RunCoherent(u, calls[1..], v);
    }
  }

  /** In every reachable state: a task in a column has the column's status and board, on a board
      of its own project; a subtask has a parent that is none, and is on no board. */
  lemma PlacementCoherent(calls: seq<Call>, w: World, id: Id)
    requires Run(World(map[], map[], map[], map[]), calls, w) && id in w.tasks
    ensures var t := w.tasks[id];
            && (t.columnId.Some? ==>
                  && t.columnId.value in w.columns
                  && t.boardId == Some(w.columns[t.columnId.value].boardId)
                  && t.statusId == w.columns[t.columnId.value].statusId)
            && (t.boardId.Some? ==> t.boardId.value in w.boards && w.boards[t.boardId.value].projectId == t.projectId)
            && (t.parentId.Some? ==>
                  && t.boardId.None? && t.columnId.None?
                  && t.parentId.value in w.tasks && w.tasks[t.parentId.value].parentId.None?)
  {
    RunCoherent(World(map[], map[], map[], map[]), calls, w);
    assert TaskCoherent(w, w.tasks[id]);
  }
}
