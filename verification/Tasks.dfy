/** Moving a task: the repository transaction that renumbers its new bucket. */
module Tasks {
  import opened Optional
  import opened Positions

  /** The columns of a task row that say where it is and in what order it is listed. */
  datatype Task = Task(
    orgId: nat, projectId: nat, boardId: Option<nat>, columnId: Option<nat>, statusId: nat,
    parentId: Option<Id>, isArchived: bool, isDeleted: bool, key: Key)

  type TaskRows = map<Id, Task>

  function KeysOf(tasks: TaskRows): Keys { map id | id in tasks :: tasks[id].key }

  /** A bucket is a column of a board, or the tasks of a project outside the columns. */
  datatype Place = Place(orgId: nat, projectId: nat, boardId: Option<nat>, columnId: Option<nat>)

  function PlaceOf(t: Task): Place { Place(t.orgId, t.projectId, t.boardId, t.columnId) }

  predicate Listed(t: Task) { t.parentId.None? && !t.isArchived && !t.isDeleted }

  function Bucket(tasks: TaskRows, place: Place): set<Id> {
    set id | id in tasks && Listed(tasks[id]) && PlaceOf(tasks[id]) == place
  }

  /** The data argument: a board or column left undefined stays as it is. */
  datatype Target = Target(boardId: Option<Option<nat>>, columnId: Option<Option<nat>>, statusId: Option<nat>)

  function GetOr<T>(o: Option<T>, default: T): T { if o.Some? then o.value else default }

  function Placed(t: Task, target: Target): Task {
    t.(boardId := GetOr(target.boardId, t.boardId), columnId := GetOr(target.columnId, t.columnId),
       statusId := GetOr(target.statusId, t.statusId))
  }

  function SpliceIndex(toPosition: Option<int>, n: nat): (k: nat)
    ensures k <= n
  {
    if toPosition.None? then n else Clamp(toPosition.value, n)
  }

  function AtPosition(t: Task, position: int): Task { t.(key := t.key.(position := position)) }

  /** The transaction as a relation: `siblings` is the listing it read. */
  ghost predicate Moved(before: TaskRows, id: Id, target: Target, toPosition: Option<int>, siblings: seq<Id>,
                        after: TaskRows) {
    && id in before && after.Keys == before.Keys
    && var place := PlaceOf(Placed(before[id], target));
       var k := SpliceIndex(toPosition, |siblings|);
       && IsListing(KeysOf(before), Bucket(before, place) - {id}, siblings)
       && after[id] == AtPosition(Placed(before[id], target), k)
       && (forall i | 0 <= i < |siblings| ::
             siblings[i] in before && after[siblings[i]] == AtPosition(before[siblings[i]], if i < k then i else i + 1))
       && (forall x | x in before && x != id && x !in siblings :: after[x] == before[x])
  }

  /** `rows` are the live, unarchived top-level tasks of a place but one, by position and then by age. */
  ghost predicate SiblingsInOrder(tasks: TaskRows, place: Place, without: Id, rows: seq<Id>) {
    && (forall id :: id in rows <==>
          && id in tasks && id != without
          && tasks[id].parentId == None && !tasks[id].isDeleted && !tasks[id].isArchived
          && tasks[id].orgId == place.orgId && tasks[id].projectId == place.projectId
          && tasks[id].boardId == place.boardId && tasks[id].columnId == place.columnId)
    && (forall i, j | 0 <= i < j < |rows| ::
          && rows[i] != rows[j] && rows[i] in tasks && rows[j] in tasks
          && (|| tasks[rows[i]].key.position < tasks[rows[j]].key.position
              || (tasks[rows[i]].key.position == tasks[rows[j]].key.position
                  && tasks[rows[i]].key.createdAt <= tasks[rows[j]].key.createdAt)))
  }

  /** The row of the moved task: board, column and status as asked for, or else as they were. */
  ghost predicate MovedRow(was: Task, target: Target, position: int, now: Task) {
    && now.boardId == (if target.boardId == None then was.boardId else target.boardId.value)
    && now.columnId == (if target.columnId == None then was.columnId else target.columnId.value)
    && now.statusId == (if target.statusId == None then was.statusId else target.statusId.value)
    && now.key == Key(position, was.key.createdAt)
    && now.orgId == was.orgId && now.projectId == was.projectId && now.parentId == was.parentId
    && now.isArchived == was.isArchived && now.isDeleted == was.isDeleted
  }

  class TasksRepository {
    var tasks: TaskRows

    constructor ()
      ensures tasks == map[]
    {
      tasks := map[];
    }

    /** An unknown task is answered with null and nothing changes. */
    method MoveTask(id: Id, target: Target, toPosition: Option<int>) returns (found: bool, ghost siblings: seq<Id>)
      modifies this
      ensures found <==> id in old(tasks)
      ensures found ==> Moved(old(tasks), id, target, toPosition, siblings, tasks)
      ensures !found ==> tasks == old(tasks)
    {
      siblings := [];
      if id !in tasks {
        return false, siblings;
      }
      var next := Placed(tasks[id], target);
      var rows := OrderedQuery(KeysOf(tasks), Bucket(tasks, PlaceOf(next)) - {id});
      siblings := rows;
      var clamped := SpliceIndex(toPosition, |rows|);
      var ordered := InsertAt(rows, clamped, id);
      InsertLists(rows, Bucket(tasks, PlaceOf(next)) - {id}, clamped, id);
      InsertElements(rows, clamped, id);
      ghost var before := tasks;
      RewritePositions(ordered);
      ghost var renumbered := tasks;
      tasks := tasks[id := Placed(tasks[id], target)];
      found := true;
      SplicedPositions(before, rows, clamped, id, ordered, renumbered);
    }

    method RewritePositions(ordered: seq<Id>)
      requires NoDuplicates(ordered) && forall i | 0 <= i < |ordered| :: ordered[i] in tasks
      modifies this
      ensures Rewritten(old(tasks), ordered, tasks)
    {
      for index := 0 to |ordered|
        invariant Rewritten(old(tasks), ordered[..index], tasks)
      {
        RewrittenNext(old(tasks), ordered, index, tasks);
        tasks := tasks[ordered[index] := AtPosition(tasks[ordered[index]], index)];
      }
      assert ordered[..|ordered|] == ordered;
    }
  }

  /** The rewriting loop: every row of `ordered` gets its index, and no other column changes. */
  predicate Rewritten(before: TaskRows, ordered: seq<Id>, after: TaskRows) {
    && after.Keys == before.Keys
    && Renumbered(KeysOf(before), ordered, KeysOf(after))
    && forall id | id in before :: after[id] == before[id].(key := after[id].key)
  }

  lemma RewrittenNext(before: TaskRows, ordered: seq<Id>, k: nat, middle: TaskRows)
    requires NoDuplicates(ordered) && k < |ordered| && ordered[k] in before
    requires Rewritten(before, ordered[..k], middle)
    ensures ordered[k] in middle
    ensures Rewritten(before, ordered[..k + 1], middle[ordered[k] := AtPosition(middle[ordered[k]], k)])
  {
    var id := ordered[k];
    RenumberedNext(KeysOf(before), ordered, k, KeysOf(middle));
    assert KeysOf(middle[id := AtPosition(middle[id], k)]) == KeysOf(middle)[id := KeysOf(middle)[id].(position := k)];
  }

  lemma SplicedPositions(before: TaskRows, rows: seq<Id>, k: nat, id: Id, ordered: seq<Id>, after: TaskRows)
    requires k <= |rows| && ordered == InsertAt(rows, k, id) && Rewritten(before, ordered, after)
    ensures id in before && after[id] == AtPosition(before[id], k)
    ensures forall i | 0 <= i < |rows| ::
              rows[i] in before && after[rows[i]] == AtPosition(before[rows[i]], if i < k then i else i + 1)
    ensures forall x | x in before && x != id && x !in rows :: after[x] == before[x]
  {
    InsertElements(rows, k, id);
    assert ordered[k] == id;
    forall i | 0 <= i < |rows|
      ensures rows[i] in before && after[rows[i]] == AtPosition(before[rows[i]], if i < k then i else i + 1)
    {
      assert ordered[if i < k then i else i + 1] == rows[i];
    }
  }

  // ---------- What a move achieves ----------

  /** The row goes where it was asked to, to the place in the order it was asked to, or to the end
      without one; the live siblings there make room for it; and no other task changes. */
  lemma MovedMeans(before: TaskRows, id: Id, target: Target, toPosition: Option<int>, siblings: seq<Id>,
                   after: TaskRows)
    requires Moved(before, id, target, toPosition, siblings, after)
    ensures after.Keys == before.Keys && id in before
    ensures MovedRow(before[id], target,
                     if toPosition == None || toPosition.value >= |siblings| then |siblings|
                     else if toPosition.value <= 0 then 0 else toPosition.value, after[id])
    ensures SiblingsInOrder(before, Place(after[id].orgId, after[id].projectId, after[id].boardId, after[id].columnId),
                            id, siblings)
    ensures forall k | 0 <= k < |siblings| ::
              && siblings[k] in before
              && after[siblings[k]] == before[siblings[k]].(
                   key := Key(if k < after[id].key.position then k else k + 1, before[siblings[k]].key.createdAt))
    ensures forall x | x in before && x != id && x !in siblings :: after[x] == before[x]
  {}

  /** The bucket the task went to, as it is afterwards. */
  lemma BucketAfter(before: TaskRows, id: Id, target: Target, toPosition: Option<int>, siblings: seq<Id>,
                    after: TaskRows)
    requires Moved(before, id, target, toPosition, siblings, after)
    ensures var place := PlaceOf(Placed(before[id], target));
            Bucket(after, place) == (Bucket(before, place) - {id}) + if Listed(before[id]) then {id} else {}
  {
    var place := PlaceOf(Placed(before[id], target));
    var rest := Bucket(before, place) - {id};
    forall x | x in before && x != id
      ensures Listed(after[x]) == Listed(before[x]) && PlaceOf(after[x]) == PlaceOf(before[x])
    {
      if x in siblings { var i :| 0 <= i < |siblings| && siblings[i] == x; }
    }
  }

  /** The order the bucket shows afterwards is the old order of the siblings with the task spliced
      in at the clamped index, and no listing can show another one. */
  lemma MoveResult(before: TaskRows, id: Id, target: Target, toPosition: Option<int>, siblings: seq<Id>,
                   after: TaskRows)
    requires Moved(before, id, target, toPosition, siblings, after) && Listed(before[id])
    ensures var place := PlaceOf(Placed(before[id], target));
            var ordered := InsertAt(siblings, SpliceIndex(toPosition, |siblings|), id);
            && Dense(KeysOf(after), Bucket(after, place), ordered)
            && forall l: seq<Id> | IsListing(KeysOf(after), Bucket(after, place), l) :: l == ordered
  {
    var place := PlaceOf(Placed(before[id], target));
    var k := SpliceIndex(toPosition, |siblings|);
    var ordered := InsertAt(siblings, k, id);
    BucketAfter(before, id, target, toPosition, siblings, after);
    InsertLists(siblings, Bucket(before, place) - {id}, k, id);
    InsertElements(siblings, k, id);
    forall i | 0 <= i < |ordered| ensures KeysOf(after)[ordered[i]].position == i {
      if i < k { assert ordered[i] == siblings[i]; }
      else if i > k { assert ordered[i] == siblings[i - 1]; }
    }
    forall l: seq<Id> | IsListing(KeysOf(after), Bucket(after, place), l) ensures l == ordered {
      DenseListing(KeysOf(after), Bucket(after, place), ordered, l);
    }
  }

  /** The siblings alone, in order: they keep every position but the one the task took. */
  lemma SiblingsOrder(before: TaskRows, id: Id, target: Target, toPosition: Option<int>, siblings: seq<Id>,
                      after: TaskRows)
    requires Moved(before, id, target, toPosition, siblings, after)
    ensures forall i, j | 0 <= i < j < |siblings| ::
              siblings[i] in after && siblings[j] in after
              && after[siblings[i]].key.position < after[siblings[j]].key.position
    ensures forall i | 0 <= i < |siblings| ::
              siblings[i] in after && after[siblings[i]].key.position != after[id].key.position
  {}

  /** findTask also returns archived tasks. Moving one renumbers the siblings around a row the
      bucket does not show, so the bucket is without gaps afterwards exactly when the task is
      not archived or went to the end. */
  lemma DenseExactlyWhen(before: TaskRows, id: Id, target: Target, toPosition: Option<int>, siblings: seq<Id>,
                         after: TaskRows)
    requires Moved(before, id, target, toPosition, siblings, after)
    requires before[id].parentId.None? && !before[id].isDeleted
    ensures var place := PlaceOf(Placed(before[id], target));
            (exists s :: Dense(KeysOf(after), Bucket(after, place), s))
            <==> (!before[id].isArchived || SpliceIndex(toPosition, |siblings|) == |siblings|)
  {
    var place := PlaceOf(Placed(before[id], target));
    var k := SpliceIndex(toPosition, |siblings|);
    BucketAfter(before, id, target, toPosition, siblings, after);
    if !before[id].isArchived {
      MoveResult(before, id, target, toPosition, siblings, after);
      assert Dense(KeysOf(after), Bucket(after, place), InsertAt(siblings, k, id));
    } else {
      assert Bucket(after, place) == Bucket(before, place) - {id};
      if k == |siblings| {
        assert Dense(KeysOf(after), Bucket(after, place), siblings);
      } else {
        GapNotDense(KeysOf(after), Bucket(after, place), siblings, k);
      }
    }
  }

  lemma PositionTaken(keys: Keys, ids: set<Id>, s: seq<Id>, k: nat)
    requires ids <= keys.Keys && Dense(keys, ids, s) && k < |s|
    ensures exists x | x in ids :: keys[x].position == k
  {
    assert s[k] in ids;
  }

  lemma GapNotDense(keys: Keys, ids: set<Id>, rows: seq<Id>, k: nat)
    requires ids <= keys.Keys && Lists(rows, ids) && k < |rows|
    requires forall i | 0 <= i < |rows| :: keys[rows[i]].position == (if i < k then i else i + 1)
    ensures !exists s :: Dense(keys, ids, s)
  {
    forall x | x in ids ensures keys[x].position != k { assert x in rows; }
    forall s ensures !Dense(keys, ids, s) {
      if Dense(keys, ids, s) {
        SameLength(s, rows, ids);
        PositionTaken(keys, ids, s, k);
      }
    }
  }

  /** Every other bucket keeps its rows and their positions; at most the task has left it. */
  lemma OtherBuckets(before: TaskRows, id: Id, target: Target, toPosition: Option<int>, siblings: seq<Id>,
                     after: TaskRows, place: Place)
    requires Moved(before, id, target, toPosition, siblings, after)
    requires place != PlaceOf(Placed(before[id], target))
    ensures Bucket(after, place) == Bucket(before, place) - {id}
    ensures forall x | x in Bucket(after, place) :: after[x] == before[x]
  {
    forall x | x in before && x != id
      ensures Listed(after[x]) == Listed(before[x]) && PlaceOf(after[x]) == PlaceOf(before[x])
      ensures x in siblings ==> x !in Bucket(before, place)
    {
      if x in siblings { var i :| 0 <= i < |siblings| && siblings[i] == x; }
    }
  }
}
