/** Ordered lists kept as integer positions: what a listing of rows is, and what the loops that
    rewrite positions after a splice achieve. */
module Positions {
  type Id = nat

  /** The columns the listings sort by. */
  datatype Key = Key(position: int, createdAt: int)
  type Keys = map<Id, Key>

  /** ORDER BY position, createdAt; equal keys may come either way. */
  predicate NotAfter(a: Key, b: Key) {
    a.position < b.position || (a.position == b.position && a.createdAt <= b.createdAt)
  }

  predicate NoDuplicates(s: seq<Id>) { forall i, j | 0 <= i < j < |s| :: s[i] != s[j] }

  predicate Lists(s: seq<Id>, ids: set<Id>) {
    NoDuplicates(s) && (forall id | id in ids :: id in s) && (forall i | 0 <= i < |s| :: s[i] in ids)
  }

  /** `s` is a result of selecting the rows `ids` in order. */
  predicate IsListing(keys: Keys, ids: set<Id>, s: seq<Id>)
    requires ids <= keys.Keys
  {
    Lists(s, ids) && forall i, j | 0 <= i < j < |s| :: NotAfter(keys[s[i]], keys[s[j]])
  }

  lemma {:induction false} FirstRow(keys: Keys, ids: set<Id>) returns (first: Id)
    requires ids != {} && ids <= keys.Keys
    ensures first in ids && forall id | id in ids :: NotAfter(keys[first], keys[id])
    decreases |ids|
  {
    first :| first in ids;
    if ids != {first} {
      assert ids - {first} != {};
      var second := FirstRow(keys, ids - {first});
      if !NotAfter(keys[first], keys[second]) { first := second; }
    }
  }

  /** An ordered query; the database does the sorting. */
  method OrderedQuery(keys: Keys, ids: set<Id>) returns (rows: seq<Id>)
    requires ids <= keys.Keys
    ensures IsListing(keys, ids, rows)
    // Each row once, by position and then by age.
    ensures forall id :: id in rows <==> id in ids
    ensures forall i, j | 0 <= i < j < |rows| ::
              && rows[i] != rows[j]
              && (keys[rows[i]].position < keys[rows[j]].position
                  || (keys[rows[i]].position == keys[rows[j]].position
                      && keys[rows[i]].createdAt <= keys[rows[j]].createdAt))
  {
    var rest := ids;
    rows := [];
    while rest != {}
      invariant rest <= ids
      invariant IsListing(keys, ids - rest, rows)
      invariant forall i, id | 0 <= i < |rows| && id in rest :: NotAfter(keys[rows[i]], keys[id])
      decreases rest
    {
      ghost var _ := FirstRow(keys, rest);
      var first :| first in rest && forall id | id in rest :: NotAfter(keys[first], keys[id]);
      rows := rows + [first];
      rest := rest - {first};
    }
  }

  // ---------- Splicing ----------

  function Clamp(to: int, n: nat): nat { if to < 0 then 0 else if to > n then n else to }

  function InsertAt(s: seq<Id>, k: nat, id: Id): seq<Id>
    requires k <= |s|
  {
    s[..k] + [id] + s[k..]
  }

  function RemoveAt(s: seq<Id>, k: nat): seq<Id>
    requires k < |s|
  {
    s[..k] + s[k + 1..]
  }

  /** Where each element of a spliced list comes from. */
  lemma InsertElements(s: seq<Id>, k: nat, id: Id)
    requires k <= |s|
    ensures var t := InsertAt(s, k, id);
            |t| == |s| + 1 && t[k] == id
            && (forall i | 0 <= i < k :: t[i] == s[i])
            && (forall i | k <= i < |s| :: t[i + 1] == s[i])
            && (forall x :: x in t <==> x == id || x in s)
  {
    var t := InsertAt(s, k, id);
    forall x ensures x in t <==> x == id || x in s {
      if x in s {
        var i :| 0 <= i < |s| && s[i] == x;
        assert t[if i < k then i else i + 1] == x;
      }
      assert t[k] == id;
    }
  }

  lemma SplicedLists(s: seq<Id>, ids: set<Id>, k: nat, id: Id, t: seq<Id>)
    requires Lists(s, ids) && id !in ids && k <= |s| && |t| == |s| + 1 && t[k] == id
    requires forall i | 0 <= i < |t| && i != k :: t[i] == s[if i < k then i else i - 1]
    requires forall x | x in s :: x in t
    ensures Lists(t, ids + {id})
  {}

  lemma InsertLists(s: seq<Id>, ids: set<Id>, k: nat, id: Id)
    requires Lists(s, ids) && id !in ids && k <= |s|
    ensures Lists(InsertAt(s, k, id), ids + {id})
  {
    InsertElements(s, k, id);
    SplicedLists(s, ids, k, id, InsertAt(s, k, id));
  }

  lemma RemoveLists(s: seq<Id>, ids: set<Id>, k: nat)
    requires Lists(s, ids) && k < |s|
    ensures Lists(RemoveAt(s, k), ids - {s[k]})
  {
    var t := RemoveAt(s, k);
    forall i | 0 <= i < |t| ensures t[i] == s[if i < k then i else i + 1] {}
    forall x | x in ids - {s[k]} ensures x in t {
      var i :| 0 <= i < |s| && s[i] == x;
      assert t[if i < k then i else i - 1] == x;
    }
  }

  /** Moving an element and then moving it back restores the order. */
  lemma MoveBack(s: seq<Id>, k: nat, j: nat)
    requires k < |s| && j < |s|
    ensures var moved := InsertAt(RemoveAt(s, k), j, s[k]);
            moved[j] == s[k] && |moved| == |s| && InsertAt(RemoveAt(moved, j), k, s[k]) == s
  {
    var rest := RemoveAt(s, k);
    var moved := InsertAt(rest, j, s[k]);
    assert RemoveAt(moved, j) == rest;
  }

  // ---------- Dense lists ----------

  /** The rows `ids` are the list `s`, numbered from 0 without gaps. */
  ghost predicate Dense(keys: Keys, ids: set<Id>, s: seq<Id>)
    requires ids <= keys.Keys
  {
    Lists(s, ids) && forall i | 0 <= i < |s| :: keys[s[i]].position == i
  }

  lemma AppendLists(s: seq<Id>, ids: set<Id>, id: Id)
    requires Lists(s, ids) && id !in ids
    ensures Lists(s + [id], ids + {id})
  {
    assert InsertAt(s, |s|, id) == s + [id];
    InsertLists(s, ids, |s|, id);
  }

  lemma DenseAppend(keys: Keys, ids: set<Id>, s: seq<Id>, id: Id, key: Key)
    requires ids <= keys.Keys && Dense(keys, ids, s) && id !in keys && key.position == |s|
    ensures Dense(keys[id := key], ids + {id}, s + [id])
  {
    var t, after := s + [id], keys[id := key];
    AppendLists(s, ids, id);
    forall i | 0 <= i < |t| ensures after[t[i]].position == i {
      if i < |s| { assert t[i] == s[i] && s[i] in ids; }
    }
  }

  lemma {:induction false} LengthIsSize(s: seq<Id>, ids: set<Id>)
    requires Lists(s, ids)
    ensures |s| == |ids|
    decreases |s|
  {
    if s == [] {
      assert ids == {};
    } else {
      RemoveLists(s, ids, 0);
      assert RemoveAt(s, 0) == s[1..];
      LengthIsSize(s[1..], ids - {s[0]});
    }
  }

  lemma SameLength(s: seq<Id>, l: seq<Id>, ids: set<Id>)
    requires Lists(s, ids) && Lists(l, ids)
    ensures |s| == |l|
  {
    LengthIsSize(s, ids);
    LengthIsSize(l, ids);
  }

  /** Removing a row keeps the order of the others, whatever gap it leaves. */
  lemma ListingWithout(keys: Keys, ids: set<Id>, s: seq<Id>, k: nat)
    requires ids <= keys.Keys && IsListing(keys, ids, s) && k < |s|
    ensures IsListing(keys, ids - {s[k]}, RemoveAt(s, k))
  {
    RemoveLists(s, ids, k);
  }

  lemma HeadFirst(keys: Keys, ids: set<Id>, s: seq<Id>, id: Id)
    requires ids <= keys.Keys && IsListing(keys, ids, s) && id in ids
    ensures s != [] && NotAfter(keys[s[0]], keys[id])
  {
    var i :| 0 <= i < |s| && s[i] == id;
  }

  /** Listings of rows with pairwise different positions are unique. */
  lemma {:induction false} ListingUnique(keys: Keys, ids: set<Id>, s: seq<Id>, l: seq<Id>)
    requires ids <= keys.Keys && IsListing(keys, ids, s) && IsListing(keys, ids, l)
    requires forall a, b | a in ids && b in ids && a != b :: keys[a].position != keys[b].position
    ensures s == l
    decreases |s|
  {
    SameLength(s, l, ids);
    if s != [] {
      HeadFirst(keys, ids, s, l[0]);
      HeadFirst(keys, ids, l, s[0]);
      ListingWithout(keys, ids, s, 0);
      ListingWithout(keys, ids, l, 0);
      assert RemoveAt(s, 0) == s[1..] && RemoveAt(l, 0) == l[1..];
      ListingUnique(keys, ids - {s[0]}, s[1..], l[1..]);
    }
  }

  /** A dense list determines every listing of its rows. */
  lemma DenseListing(keys: Keys, ids: set<Id>, s: seq<Id>, l: seq<Id>)
    requires ids <= keys.Keys && Dense(keys, ids, s) && IsListing(keys, ids, l)
    ensures l == s
  {
    forall a, b | a in ids && b in ids && a != b ensures keys[a].position != keys[b].position {
      assert a in s && b in s;
    }
    ListingUnique(keys, ids, s, l);
  }

  /** And so do the listings that leave one row out, although they have a gap. */
  lemma DenseListingWithout(keys: Keys, ids: set<Id>, s: seq<Id>, k: nat, l: seq<Id>)
    requires ids <= keys.Keys && Dense(keys, ids, s) && k < |s| && IsListing(keys, ids - {s[k]}, l)
    ensures l == RemoveAt(s, k)
  {
    ListingWithout(keys, ids, s, k);
    forall a, b | a in ids && b in ids && a != b ensures keys[a].position != keys[b].position {
      assert a in s && b in s;
    }
    ListingUnique(keys, ids - {s[k]}, RemoveAt(s, k), l);
  }

  // ---------- Renumbering ----------

  /** Every row of `ordered` got its index as position; all other keys stayed. */
  predicate Renumbered(before: Keys, ordered: seq<Id>, after: Keys) {
    && after.Keys == before.Keys
    && (forall i | 0 <= i < |ordered| :: ordered[i] in after && after[ordered[i]] == before[ordered[i]].(position := i))
    && (forall id | id in before && id !in ordered :: after[id] == before[id])
  }

  /** One more round of a rewriting loop. */
  lemma RenumberedNext(before: Keys, ordered: seq<Id>, k: nat, middle: Keys)
    requires NoDuplicates(ordered) && k < |ordered| && ordered[k] in before && Renumbered(before, ordered[..k], middle)
    ensures ordered[k] in middle && middle[ordered[k]] == before[ordered[k]]
    ensures Renumbered(before, ordered[..k + 1], middle[ordered[k] := middle[ordered[k]].(position := k)])
  {
    assert ordered[k] !in ordered[..k];
    forall id | id in before && id !in ordered[..k + 1] ensures id !in ordered[..k] && id != ordered[k] {
      assert ordered[..k + 1] == ordered[..k] + [ordered[k]];
    }
  }

  lemma RenumberedDense(before: Keys, ids: set<Id>, ordered: seq<Id>, after: Keys)
    requires ids <= before.Keys && Lists(ordered, ids) && Renumbered(before, ordered, after)
    ensures Dense(after, ids, ordered)
  {}
}
