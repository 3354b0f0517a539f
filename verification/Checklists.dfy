/** Checklist items: a plain sequence kept as positions. */
module Checklists {
  import opened Positions

  /** The title and completion flag of an item play no part. */
  datatype Item = Item(checklistId: nat, body: nat, key: Key)
  type Items = map<Id, Item>

  function KeysOf(items: Items): Keys { map id | id in items :: items[id].key }

  function ItemsOf(items: Items, c: nat): set<Id> { set id | id in items && items[id].checklistId == c }

  function AtPosition(item: Item, position: int): Item { item.(key := item.key.(position := position)) }

  /** The rewriting loop: every row of `ordered` gets its index, and no other column changes. */
  predicate Rewritten(before: Items, ordered: seq<Id>, after: Items) {
    && after.Keys == before.Keys
    && Renumbered(KeysOf(before), ordered, KeysOf(after))
    && forall id | id in before :: after[id] == before[id].(key := after[id].key)
  }

  lemma RewrittenNext(before: Items, ordered: seq<Id>, k: nat, middle: Items)
    requires NoDuplicates(ordered) && k < |ordered| && ordered[k] in before
    requires Rewritten(before, ordered[..k], middle)
    ensures ordered[k] in middle
    ensures Rewritten(before, ordered[..k + 1], middle[ordered[k] := AtPosition(middle[ordered[k]], k)])
  {
    var id := ordered[k];
    RenumberedNext(KeysOf(before), ordered, k, KeysOf(middle));
    assert KeysOf(middle[id := AtPosition(middle[id], k)]) == KeysOf(middle)[id := KeysOf(middle)[id].(position := k)];
  }

  datatype Op = Create(id: Id, body: nat, createdAt: int) | Remove(id: Id) | Move(id: Id, toPosition: int)

  predicate Enabled(items: Items, c: nat, op: Op) {
    match op
    case Create(id, _, _) => id !in items
    case Remove(id) => id in ItemsOf(items, c)
    case Move(id, _) => id in ItemsOf(items, c)
  }

  /** One transaction on checklist `c`; `l` is the listing it read. */
  ghost predicate Transaction(items: Items, c: nat, op: Op, l: seq<Id>, after: Items) {
    match op
    case Create(id, body, createdAt) =>
      after == items[id := Item(c, body, Key(|ItemsOf(items, c)|, createdAt))]
    case Remove(id) =>
      && IsListing(KeysOf(items), ItemsOf(items, c) - {id}, l)
      && Rewritten(items - {id}, l, after)
    case Move(id, toPosition) =>
      && IsListing(KeysOf(items), ItemsOf(items, c) - {id}, l)
      && Rewritten(items, InsertAt(l, Clamp(toPosition, |l|), id), after)
  }

  /** Of the rows that are left, everything but the position is as it was. */
  ghost predicate OnlyPositionsDiffer(before: Items, after: Items) {
    forall id | id in after ::
      && id in before && after[id].checklistId == before[id].checklistId && after[id].body == before[id].body
      && after[id].key.createdAt == before[id].key.createdAt
  }

  /** `rows` are the items of a checklist but one, by position and then by age. */
  ghost predicate InOrder(items: Items, c: nat, without: Id, rows: seq<Id>) {
    && (forall id :: id in rows <==> id in items && items[id].checklistId == c && id != without)
    && (forall i, j | 0 <= i < j < |rows| ::
          && rows[i] != rows[j] && rows[i] in items && rows[j] in items
          && (|| items[rows[i]].key.position < items[rows[j]].key.position
              || (items[rows[i]].key.position == items[rows[j]].key.position
                  && items[rows[i]].key.createdAt <= items[rows[j]].key.createdAt)))
  }

  lemma ListedInOrder(items: Items, c: nat, without: Id, rows: seq<Id>)
    requires IsListing(KeysOf(items), ItemsOf(items, c) - {without}, rows)
    ensures InOrder(items, c, without, rows)
  {}

  lemma RewrittenColumns(before: Items, ordered: seq<Id>, after: Items)
    requires Rewritten(before, ordered, after)
    ensures OnlyPositionsDiffer(before, after)
    ensures forall k | 0 <= k < |ordered| :: ordered[k] in after && after[ordered[k]].key.position == k
    ensures forall id | id in before && id !in ordered :: id in after && after[id] == before[id]
  {
    forall id | id in after
      ensures id in before && after[id] == before[id].(key := before[id].key.(position := after[id].key.position))
    {
      assert KeysOf(after)[id] == after[id].key && KeysOf(before)[id] == before[id].key;
      if id in ordered { var k :| 0 <= k < |ordered| && ordered[k] == id; }
    }
  }

  lemma MovedPositions(before: Items, rows: seq<Id>, j: nat, id: Id, after: Items)
    requires j <= |rows| && Rewritten(before, InsertAt(rows, j, id), after)
    ensures OnlyPositionsDiffer(before, after) && after.Keys == before.Keys
    ensures id in after && after[id].key.position == j
    ensures forall k | 0 <= k < |rows| ::
              rows[k] in after && after[rows[k]].key.position == if k < j then k else k + 1
    ensures forall x | x in before && x != id && x !in rows :: after[x] == before[x]
  {
    var ordered := InsertAt(rows, j, id);
    RewrittenColumns(before, ordered, after);
    InsertElements(rows, j, id);
    assert ordered[j] == id;
    forall k | 0 <= k < |rows| ensures ordered[if k < j then k else k + 1] == rows[k] {}
  }

  class ChecklistStore {
    var items: Items

    constructor ()
      ensures items == map[]
    {
      items := map[];
    }

    method CreateItem(c: nat, id: Id, body: nat, createdAt: int)
      requires id !in items
      modifies this
      ensures Transaction(old(items), c, Create(id, body, createdAt), [], items)
      ensures items == old(items)[id := Item(c, body, Key(
                |set i | i in old(items) && old(items)[i].checklistId == c|, createdAt))]
    {
      var count := |ItemsOf(items, c)|;
      assert ItemsOf(items, c) == set i | i in items && items[i].checklistId == c;
      items := items[id := Item(c, body, Key(count, createdAt))];
    }

    method DeleteItem(c: nat, id: Id) returns (ghost remaining: seq<Id>)
      requires id in ItemsOf(items, c)
      modifies this
      ensures Transaction(old(items), c, Remove(id), remaining, items)
      ensures items.Keys == old(items).Keys - {id} && OnlyPositionsDiffer(old(items), items)
      ensures InOrder(old(items), c, id, remaining)
      ensures forall k | 0 <= k < |remaining| :: remaining[k] in items && items[remaining[k]].key.position == k
      ensures forall i | i in items && items[i].checklistId != c :: items[i] == old(items)[i]
    {
      items := items - {id};
      assert ItemsOf(items, c) == ItemsOf(old(items), c) - {id};
      var rows := OrderedQuery(KeysOf(items), ItemsOf(items, c) - {id});
      remaining := rows;
      ghost var before := items;
      ListedInOrder(before, c, id, rows);
      RewritePositions(rows);
      RewrittenColumns(before, rows, items);
    }

    method MoveItem(c: nat, id: Id, toPosition: int) returns (ghost siblings: seq<Id>)
      requires id in ItemsOf(items, c)
      modifies this
      ensures Transaction(old(items), c, Move(id, toPosition), siblings, items)
      ensures items.Keys == old(items).Keys && OnlyPositionsDiffer(old(items), items)
      ensures InOrder(old(items), c, id, siblings)
      // The item lands where it was sent, as far as there are places, and the others close ranks.
      ensures items[id].key.position
              == if toPosition <= 0 then 0 else if toPosition >= |siblings| then |siblings| else toPosition
      ensures forall k | 0 <= k < |siblings| ::
                siblings[k] in items
                && items[siblings[k]].key.position == if k < items[id].key.position then k else k + 1
      ensures forall i | i in items && items[i].checklistId != c :: items[i] == old(items)[i]
    {
      var rows := OrderedQuery(KeysOf(items), ItemsOf(items, c) - {id});
      siblings := rows;
      var clamped := Clamp(toPosition, |rows|);
      var ordered := rows[..clamped] + [id] + rows[clamped..];
      InsertLists(rows, ItemsOf(items, c) - {id}, clamped, id);
      ghost var before := items;
      ListedInOrder(before, c, id, rows);
      RewritePositions(ordered);
      MovedPositions(before, rows, clamped, id, items);
    }

    method RewritePositions(ordered: seq<Id>)
      requires NoDuplicates(ordered) && forall i | 0 <= i < |ordered| :: ordered[i] in items
      modifies this
      ensures Rewritten(old(items), ordered, items)
    {
      for position := 0 to |ordered|
        invariant Rewritten(old(items), ordered[..position], items)
      {
        RewrittenNext(old(items), ordered, position, items);
        items := items[ordered[position] := AtPosition(items[ordered[position]], position)];
      }
      assert ordered[..|ordered|] == ordered;
    }
  }

  // ---------- Refinement of a plain sequence ----------

  /** The checklist shows the sequence `s`, at positions 0 to |s| - 1. */
  ghost predicate Shows(items: Items, c: nat, s: seq<Id>) { Dense(KeysOf(items), ItemsOf(items, c), s) }

  function IndexOf(s: seq<Id>, id: Id): (k: nat)
    requires id in s
    ensures k < |s| && s[k] == id
  {
    if s[0] == id then 0 else 1 + IndexOf(s[1..], id)
  }

  /** What each operation means for a sequence: append, remove, remove and insert again. */
  function Apply(s: seq<Id>, op: Op): seq<Id>
    requires op.Create? || op.id in s
  {
    match op
    case Create(id, _, _) => s + [id]
    case Remove(id) => RemoveAt(s, IndexOf(s, id))
    case Move(id, toPosition) => InsertAt(RemoveAt(s, IndexOf(s, id)), Clamp(toPosition, |s| - 1), id)
  }

  lemma RewrittenShows(before: Items, ids: set<Id>, ordered: seq<Id>, after: Items, c: nat)
    requires Rewritten(before, ordered, after) && Lists(ordered, ids) && ItemsOf(before, c) == ids
    ensures Shows(after, c, ordered)
  {
    assert ItemsOf(after, c) == ids;
    RenumberedDense(KeysOf(before), ids, ordered, KeysOf(after));
  }

  lemma CreateRefines(items: Items, c: nat, s: seq<Id>, op: Op, after: Items)
    requires Shows(items, c, s) && op.Create? && Enabled(items, c, op) && Transaction(items, c, op, [], after)
    ensures Shows(after, c, s + [op.id])
  {
    var ids, key := ItemsOf(items, c), Key(|ItemsOf(items, c)|, op.createdAt);
    LengthIsSize(s, ids);
    assert ItemsOf(after, c) == ids + {op.id};
    assert KeysOf(after) == KeysOf(items)[op.id := key];
    DenseAppend(KeysOf(items), ids, s, op.id, key);
  }

  lemma RemoveRefines(items: Items, c: nat, s: seq<Id>, k: nat, l: seq<Id>, after: Items)
    requires Shows(items, c, s) && k < |s| && Transaction(items, c, Remove(s[k]), l, after)
    ensures Shows(after, c, RemoveAt(s, k))
  {
    var ids := ItemsOf(items, c);
    DenseListingWithout(KeysOf(items), ids, s, k, l);
    assert ItemsOf(items - {s[k]}, c) == ids - {s[k]};
    RewrittenShows(items - {s[k]}, ids - {s[k]}, l, after, c);
  }

  lemma MoveRefines(items: Items, c: nat, s: seq<Id>, k: nat, j: nat, l: seq<Id>, after: Items)
    requires Shows(items, c, s) && k < |s| && IsListing(KeysOf(items), ItemsOf(items, c) - {s[k]}, l) && j <= |l|
    requires Rewritten(items, InsertAt(l, j, s[k]), after)
    ensures j < |s| && Shows(after, c, InsertAt(RemoveAt(s, k), j, s[k]))
  {
    var ids := ItemsOf(items, c);
    DenseListingWithout(KeysOf(items), ids, s, k, l);
    var ordered := InsertAt(l, j, s[k]);
    assert Lists(ordered, ids) by {
      InsertLists(l, ids - {s[k]}, j, s[k]);
      assert ids - {s[k]} + {s[k]} == ids;
    }
    RewrittenShows(items, ids, ordered, after, c);
  }

  lemma MoveOpRefines(items: Items, c: nat, s: seq<Id>, op: Op, l: seq<Id>, after: Items)
    requires Shows(items, c, s) && op.Move? && op.id in s && Transaction(items, c, op, l, after)
    ensures Shows(after, c, Apply(s, op))
  {
    var k := IndexOf(s, op.id);
    DenseListingWithout(KeysOf(items), ItemsOf(items, c), s, k, l);
    MoveRefines(items, c, s, k, Clamp(op.toPosition, |l|), l, after);
  }

  lemma EnabledListed(items: Items, c: nat, s: seq<Id>, op: Op)
    requires Shows(items, c, s) && Enabled(items, c, op)
    ensures op.Create? || op.id in s
  {}

  lemma TransactionRefines(items: Items, c: nat, s: seq<Id>, op: Op, l: seq<Id>, after: Items)
    requires Shows(items, c, s) && Enabled(items, c, op) && Transaction(items, c, op, l, after)
    ensures op.Create? || op.id in s
    ensures Shows(after, c, Apply(s, op))
  {
    EnabledListed(items, c, s, op);
    match op
    case Create(_, _, _) => CreateRefines(items, c, s, op, after);
    case Remove(id) => RemoveRefines(items, c, s, IndexOf(s, id), l, after);
    case Move(_, _) => MoveOpRefines(items, c, s, op, l, after);
  }

  /** A transaction on one checklist shows in no other. */
  lemma ElsewhereStays(items: Items, c: nat, op: Op, l: seq<Id>, after: Items, d: nat, s: seq<Id>)
    requires Enabled(items, c, op) && Transaction(items, c, op, l, after) && c != d && Shows(items, d, s)
    ensures Shows(after, d, s)
  {
    forall id | id in items && items[id].checklistId == d ensures id in after && after[id] == items[id] {
      OthersUntouched(items, c, op, l, after, id);
    }
    forall id | id in after && id !in ItemsOf(items, d) ensures after[id].checklistId != d {
      assert op.Create? || id in KeysOf(after);
    }
    assert ItemsOf(after, d) == ItemsOf(items, d);
  }

  /** An operation and the checklist it is for. */
  datatype Request = Request(checklist: nat, op: Op)

  /** Any run of transactions, on any checklists. */
  ghost predicate Run(items: Items, requests: seq<Request>, after: Items)
    decreases |requests|
  {
    if requests == [] then items == after
    else
      var r := requests[0];
      Enabled(items, r.checklist, r.op)
      && exists l, middle :: Transaction(items, r.checklist, r.op, l, middle) && Run(middle, requests[1..], after)
  }

  /** What the requests for checklist `c` make of a plain sequence. */
  ghost predicate Applies(s: seq<Id>, c: nat, requests: seq<Request>, t: seq<Id>)
    decreases |requests|
  {
    if requests == [] then s == t
    else
      var r := requests[0];
      if r.checklist != c then Applies(s, c, requests[1..], t)
      else (r.op.Create? || r.op.id in s) && Applies(Apply(s, r.op), c, requests[1..], t)
  }

  /** After any run, however it mixes checklists, the positions of each are 0 to n - 1 again and its
      order is the one a plain sequence has after the same operations. */
  lemma {:induction false} RunRefinesSequence(items: Items, c: nat, s: seq<Id>, requests: seq<Request>, after: Items)
    returns (t: seq<Id>)
    requires Shows(items, c, s) && Run(items, requests, after)
    ensures Applies(s, c, requests, t) && Shows(after, c, t)
    decreases |requests|
  {
    if requests == [] {
      t := s;
    } else {
      var r := requests[0];
      var l, middle :| Transaction(items, r.checklist, r.op, l, middle) && Run(middle, requests[1..], after);
      if r.checklist == c {
        TransactionRefines(items, c, s, r.op, l, middle);
        t := RunRefinesSequence(middle, c, Apply(s, r.op), requests[1..], after);
      } else {
        ElsewhereStays(items, r.checklist, r.op, l, middle, c, s);
        t := RunRefinesSequence(middle, c, s, requests[1..], after);
      }
    }
  }

  /** A checklist shows one sequence only. */
  lemma ShowsOne(items: Items, c: nat, s: seq<Id>, t: seq<Id>)
    requires Shows(items, c, s) && Shows(items, c, t)
    ensures s == t
  {
    DenseListing(KeysOf(items), ItemsOf(items, c), s, t);
  }

  /** Moving an item away and back to its former index restores the list. */
  lemma MoveAndBack(items: Items, c: nat, s: seq<Id>, id: Id, toPosition: int, l: seq<Id>, middle: Items,
                    m: seq<Id>, after: Items)
    requires Shows(items, c, s) && id in ItemsOf(items, c) && id in s
    requires Transaction(items, c, Move(id, toPosition), l, middle)
    requires Transaction(middle, c, Move(id, IndexOf(s, id)), m, after)
    ensures Shows(after, c, s)
  {
    var k, j := IndexOf(s, id), Clamp(toPosition, |s| - 1);
    TransactionRefines(items, c, s, Move(id, toPosition), l, middle);
    MoveBack(s, k, j);
    var moved := Apply(s, Move(id, toPosition));
    assert moved[j] == id && IndexOf(moved, id) == j by {
      assert NoDuplicates(moved);
    }
    TransactionRefines(middle, c, moved, Move(id, k), m, after);
  }

  /** Other checklists are left alone. */
  lemma OthersUntouched(items: Items, c: nat, op: Op, l: seq<Id>, after: Items, id: Id)
    requires Enabled(items, c, op) && Transaction(items, c, op, l, after)
    requires id in items && items[id].checklistId != c
    ensures id in after && after[id] == items[id]
  {
    if !op.Create? { assert id !in l; }
    if op.Move? {
      var k := Clamp(op.toPosition, |l|);
      assert id !in InsertAt(l, k, op.id) by {
        assert id !in l[..k] && id !in l[k..];
      }
    }
  }
}
