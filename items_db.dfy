/**
 * The items table: an id-keyed map of records and the AUTOINCREMENT counter
 * that hands out ids. The SQL engine is replaced by the map; the listing
 * order it produces with ORDER BY created_at DESC is built by insertion.
 */
module ItemsDb {
  import opened Wrappers
  import opened StoreTypes

  /** What the table raises when an UPDATE writes NaN into the NOT NULL price column (SQLite stores NaN as NULL). */
  const PriceNotNull := "NOT NULL constraint failed: items.price"

  /** The columns an UPDATE sets, in the order update collects them. */
  datatype Column = NameColumn | PriceColumn | ImagePathColumn | SoundFileColumn

  /** The record after a partial update: the supplied fields replaced, every other field kept. */
  function Patched(item: StoreItem, p: ItemPatch): (r: StoreItem)
    requires p.price != Some(NotANumber)
    ensures r.id == item.id && r.createdAt == item.createdAt
    ensures item.imagePath.Some? ==> r.imagePath.Some?
    ensures item.soundFile.Some? ==> r.soundFile.Some?
    ensures SuppliesNothing(p) ==> r == item
  {
    item.(
      name := if p.name.Some? then p.name.value else item.name,
      price := if p.price.Some? then p.price.value.cents else item.price,
      imagePath := if p.imagePath.Some? then p.imagePath else item.imagePath,
      soundFile := if p.soundFile.Some? then p.soundFile else item.soundFile)
  }

  /** Applying the same partial update twice is applying it once. */
  lemma PatchedIdempotent(item: StoreItem, p: ItemPatch)
    requires p.price != Some(NotANumber)
    ensures Patched(Patched(item, p), p) == Patched(item, p)
  {
  }

  /** A field the update does not supply keeps its value; a supplied one takes the supplied value. */
  lemma PatchedChangesOnlySupplied(item: StoreItem, p: ItemPatch)
    requires p.price != Some(NotANumber)
    ensures Patched(item, p).name == (if p.name.Some? then p.name.value else item.name)
    ensures Patched(item, p).price == (if p.price.Some? then p.price.value.cents else item.price)
    ensures Patched(item, p).imagePath == (if p.imagePath.Some? then p.imagePath else item.imagePath)
    ensures Patched(item, p).soundFile == (if p.soundFile.Some? then p.soundFile else item.soundFile)
  {
  }

  // ----------------------------------------------------------------------
  // Listing order
  // ----------------------------------------------------------------------

  /** Newest first: created_at never increases along the listing. */
  predicate NewestFirst(r: seq<StoreItem>) {
    forall i, j :: 0 <= i < j < |r| ==> r[i].createdAt >= r[j].createdAt
  }

  predicate DistinctIds(r: seq<StoreItem>) {
    forall i, j :: 0 <= i < j < |r| ==> r[i].id != r[j].id
  }

  /** r lists table m: every record exactly once, each stored under its own id, nothing else. */
  ghost predicate ListsTable(r: seq<StoreItem>, m: map<int, StoreItem>) {
    && |r| == |m|
    && DistinctIds(r)
    && (forall i :: 0 <= i < |r| ==> r[i].id in m && m[r[i].id] == r[i])
    && (forall id :: id in m ==> m[id] in r)
  }

  /** Puts x into a newest-first listing ahead of every record that is not newer than it. */
  function InsertNewestFirst(r: seq<StoreItem>, x: StoreItem): seq<StoreItem> {
    if r == [] || x.createdAt >= r[0].createdAt then [x] + r
    else [r[0]] + InsertNewestFirst(r[1..], x)
  }

  predicate NoneNewerThan(r: seq<StoreItem>, t: int) {
    forall i :: 0 <= i < |r| ==> r[i].createdAt <= t
  }

  predicate NoneWithId(r: seq<StoreItem>, id: int) {
    forall i :: 0 <= i < |r| ==> r[i].id != id
  }

  lemma {:induction false} InsertBounds(r: seq<StoreItem>, x: StoreItem, t: int, id: int)
    ensures multiset(InsertNewestFirst(r, x)) == multiset(r) + multiset{x}
    ensures NoneNewerThan(r, t) && x.createdAt <= t ==> NoneNewerThan(InsertNewestFirst(r, x), t)
    ensures NoneWithId(r, id) && x.id != id ==> NoneWithId(InsertNewestFirst(r, x), id)
  {
    if r != [] && x.createdAt < r[0].createdAt {
      InsertBounds(r[1..], x, t, id);
      assert r == [r[0]] + r[1..];
    }
  }

  /** Insertion keeps a listing newest first, and keeps its ids distinct when x's id is new. */
  lemma {:induction false} InsertKeepsOrder(r: seq<StoreItem>, x: StoreItem)
    requires NewestFirst(r)
    requires DistinctIds(r) && NoneWithId(r, x.id)
    ensures NewestFirst(InsertNewestFirst(r, x))
    ensures DistinctIds(InsertNewestFirst(r, x))
  {
    if r != [] && x.createdAt < r[0].createdAt {
      var tail := r[1..];
      InsertKeepsOrder(tail, x);
      InsertBounds(tail, x, r[0].createdAt, r[0].id);
      var t := InsertNewestFirst(tail, x);
      assert NoneNewerThan(tail, r[0].createdAt) by {
        forall i | 0 <= i < |tail| ensures tail[i].createdAt <= r[0].createdAt {
          assert tail[i] == r[i + 1];
        }
      }
      assert NoneWithId(tail, r[0].id) by {
        forall i | 0 <= i < |tail| ensures tail[i].id != r[0].id {
          assert tail[i] == r[i + 1];
        }
      }
      forall i, j | 0 <= i < j < |t| + 1
        ensures ([r[0]] + t)[i].createdAt >= ([r[0]] + t)[j].createdAt
        ensures ([r[0]] + t)[i].id != ([r[0]] + t)[j].id
      {
        if i > 0 {
          assert ([r[0]] + t)[i] == t[i - 1];
        }
        assert ([r[0]] + t)[j] == t[j - 1];
      }
    } else {
      var s := [x] + r;
      forall i, j | 0 <= i < j < |s|
        ensures s[i].createdAt >= s[j].createdAt
        ensures s[i].id != s[j].id
      {
        if i > 0 {
          assert s[i] == r[i - 1];
        } else {
          assert s[j] == r[j - 1];
          assert r[0].createdAt >= r[j - 1].createdAt || j - 1 == 0;
        }
      }
    }
  }

  /** Inserting a record under a new id turns a listing of m into a listing of m with that record. */
  lemma InsertKeepsListing(r: seq<StoreItem>, m: map<int, StoreItem>, x: StoreItem)
    requires ListsTable(r, m) && NewestFirst(r)
    requires x.id !in m
    ensures ListsTable(InsertNewestFirst(r, x), m[x.id := x])
    ensures NewestFirst(InsertNewestFirst(r, x))
  {
    var s := InsertNewestFirst(r, x);
    var m' := m[x.id := x];
    InsertBounds(r, x, 0, x.id);
    assert NoneWithId(r, x.id) by {
      forall i | 0 <= i < |r| ensures r[i].id != x.id {
        assert r[i].id in m;
      }
    }
    InsertKeepsOrder(r, x);
    assert |m'| == |m| + 1;
    assert |s| == |multiset(s)| == |r| + 1;
    InsertedRowsStored(r, m, m', x, s);
    StoredRowsInserted(r, m, m', x, s);
  }

  /** Every row of the new listing s is stored under its own id in the extended table m'. */
  lemma InsertedRowsStored(r: seq<StoreItem>, m: map<int, StoreItem>, m': map<int, StoreItem>, x: StoreItem, s: seq<StoreItem>)
    requires forall i :: 0 <= i < |r| ==> r[i].id in m && m[r[i].id] == r[i]
    requires x.id !in m && m' == m[x.id := x]
    requires multiset(s) == multiset(r) + multiset{x}
    ensures forall i :: 0 <= i < |s| ==> s[i].id in m' && m'[s[i].id] == s[i]
  {
    forall i | 0 <= i < |s| ensures s[i].id in m' && m'[s[i].id] == s[i] {
      assert s[i] in multiset(s);
      if s[i] != x {
        assert s[i] in multiset(r);
        var k :| 0 <= k < |r| && r[k] == s[i];
      }
    }
  }

  /** Every row of the extended table m' appears in the new listing s. */
  lemma StoredRowsInserted(r: seq<StoreItem>, m: map<int, StoreItem>, m': map<int, StoreItem>, x: StoreItem, s: seq<StoreItem>)
    requires forall id :: id in m ==> m[id] in r
    requires m' == m[x.id := x]
    requires multiset(s) == multiset(r) + multiset{x}
    ensures forall id :: id in m' ==> m'[id] in s
  {
    forall id | id in m' ensures m'[id] in s {
      if id != x.id {
        assert m[id] in r;
        assert m[id] in multiset(s);
      } else {
        assert x in multiset(s);
      }
    }
  }

  /** The keys of table are split between the rows already listed (done) and those still pending. */
  ghost predicate SplitsTable(table: map<int, StoreItem>, done: map<int, StoreItem>, pending: set<int>) {
    && (forall id :: id in table ==> table[id].id == id)
    && pending !! done.Keys && pending + done.Keys == table.Keys
    && (forall id :: id in done ==> done[id] == table[id])
  }

  /** One step of GetAll: listing the row under a pending key keeps the listing exact and newest first. */
  lemma ListingStep(table: map<int, StoreItem>, done: map<int, StoreItem>, pending: set<int>, r: seq<StoreItem>, k: int)
    requires SplitsTable(table, done, pending)
    requires ListsTable(r, done) && NewestFirst(r)
    requires k in pending
    ensures SplitsTable(table, done[k := table[k]], pending - {k})
    ensures ListsTable(InsertNewestFirst(r, table[k]), done[k := table[k]])
    ensures NewestFirst(InsertNewestFirst(r, table[k]))
  {
    assert table[k].id == k && k !in done;
    InsertKeepsListing(r, done, table[k]);
    MoveKey(table, done, pending, k);
  }

  /** Moving one pending key to the listed rows keeps the split. */
  lemma MoveKey(table: map<int, StoreItem>, done: map<int, StoreItem>, pending: set<int>, k: int)
    requires SplitsTable(table, done, pending)
    requires k in pending
    ensures SplitsTable(table, done[k := table[k]], pending - {k})
  {
    var done' := done[k := table[k]];
    assert done'.Keys == done.Keys + {k};
    assert forall id :: id in done' ==> done'[id] == table[id];
  }

  lemma SomeKey(pending: set<int>) returns (k: int)
    requires pending != {}
    ensures k in pending
  {
    if forall x :: x !in pending {
      assert false;
    }
    k :| k in pending;
  }

  lemma SameRows(a: map<int, StoreItem>, b: map<int, StoreItem>)
    requires a.Keys == b.Keys
    requires forall id :: id in a ==> a[id] == b[id]
    ensures a == b
  {
    assert forall id :: id in a <==> id in b;
    assert forall id :: id in a ==> a[id] == b[id];
    assert a.Keys == b.Keys;
  }

  // ----------------------------------------------------------------------
  // The table
  // ----------------------------------------------------------------------

  class ItemTable {
    /** The rows, keyed by id. */
    var rows: map<int, StoreItem>
    /** The id the next insertion receives: one more than the largest id ever handed out. */
    var nextId: int
    /** Every id ever handed out, including those of rows since deleted. */
    ghost var issued: set<int>

    ghost predicate Valid()
      reads this
    {
      && 1 <= nextId
      && (forall id :: id in rows ==> rows[id].id == id)
      && rows.Keys <= issued
      && (forall id :: id in issued ==> 1 <= id < nextId)
    }

    /** A freshly created table: no rows, and the first id is 1. */
    constructor ()
      ensures Valid()
      ensures rows == map[] && issued == {} && nextId == 1
    {
      rows := map[];
      nextId := 1;
      issued := {};
    }

    /** SELECT * FROM items ORDER BY created_at DESC: every row once, newest first. */
    method GetAll() returns (r: seq<StoreItem>)
      requires Valid()
      ensures ListsTable(r, rows)
      ensures NewestFirst(r)
    {
      var table := rows;
      r := [];
      var pending := table.Keys;
      ghost var done: map<int, StoreItem> := map[];
      while pending != {}
        invariant SplitsTable(table, done, pending)
        invariant ListsTable(r, done) && NewestFirst(r)
        decreases pending
      {
        ghost var some := SomeKey(pending);
        var k :| k in pending;
        ListingStep(table, done, pending, r, k);
        r := InsertNewestFirst(r, table[k]);
        done := done[k := table[k]];
        pending := pending - {k};
      }
      SameRows(done, table);
    }

    /** SELECT * FROM items WHERE id = ?: the stored record, or absence. */
    method GetById(id: int) returns (r: Option<StoreItem>)
      requires Valid()
      ensures r.Some? <==> id in rows
      ensures r.Some? ==> r.value == rows[id] && r.value.id == id
    {
      if id in rows {
        r := Some(rows[id]);
      } else {
        r := None;
      }
    }

    /** INSERT: the row gets the next AUTOINCREMENT id, never one handed out before, and the clock reading now. */
    method Create(name: string, price: int, imagePath: Option<string>, soundFile: Option<string>, now: int)
      returns (id: int)
      requires Valid()
      modifies this
      ensures Valid()
      ensures id == old(nextId) && id !in old(issued) && id !in old(rows)
      ensures issued == old(issued) + {id} && nextId == id + 1
      ensures rows == old(rows)[id := StoreItem(id, name, price, imagePath, soundFile, now)]
    {
      id := nextId;
      rows := rows[id := StoreItem(id, name, price, imagePath, soundFile, now)];
      issued := issued + {id};
      nextId := nextId + 1;
    }

    /**
     * UPDATE items SET <supplied columns> WHERE id = ?. Supplying nothing is
     * false without touching the table; otherwise the answer is whether a row
     * changed, and a NaN price on an existing row fails the NOT NULL constraint.
     */
    method Update(id: int, p: ItemPatch) returns (r: Result<bool, string>)
      requires Valid()
      modifies this
      ensures Valid() && nextId == old(nextId) && issued == old(issued)
      ensures SuppliesNothing(p) ==> r == Ok(false)
      ensures r == Ok(true) <==> !SuppliesNothing(p) && id in old(rows) && p.price != Some(NotANumber)
      ensures r.Err? <==> !SuppliesNothing(p) && id in old(rows) && p.price == Some(NotANumber)
      ensures r.Err? ==> r.error == PriceNotNull
      ensures rows == if r == Ok(true) then old(rows)[id := Patched(old(rows)[id], p)] else old(rows)
    {
      var updates: seq<Column> := [];
      if p.name.Some? {
        updates := updates + [NameColumn];
      }
      if p.price.Some? {
        updates := updates + [PriceColumn];
      }
      if p.imagePath.Some? {
        updates := updates + [ImagePathColumn];
      }
      if p.soundFile.Some? {
        updates := updates + [SoundFileColumn];
      }
      if |updates| == 0 {
        return Ok(false);
      }
      if id !in rows {
        return Ok(false);
      }
      if p.price == Some(NotANumber) {
        return Err(PriceNotNull);
      }
      rows := rows[id := Patched(rows[id], p)];
      return Ok(true);
    }

    /** DELETE FROM items WHERE id = ?: true exactly when the row existed; every other row stays. */
    method Delete(id: int) returns (removed: bool)
      requires Valid()
      modifies this
      ensures Valid() && nextId == old(nextId) && issued == old(issued)
      ensures removed == (id in old(rows))
      ensures rows == old(rows) - {id}
    {
      removed := id in rows;
      rows := rows - {id};
    }
  }
}
