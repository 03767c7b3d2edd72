/**
 * The nested-relation reconciliation of the `HasNestedSync` trait: a model
 * that owns child collections replaces them from a request payload, either by
 * diffing on the primary key (`syncRelation`) or by deleting and recreating
 * them (`overwriteRelation`), and `syncRelationsFromRequest` picks the policy
 * per collection name.
 *
 * A relation is the set of rows of one child table whose owner is the model.
 * Each operation is a method of the owning model that rewrites its tables and
 * is proved equal to a function of the old tables; the lemmas below state
 * what those functions do in terms of the payload.
 */
module NestedSync {
  import opened Wrappers
  import opened PhpValues

  /** A child row: the id of the model that owns it, and its attributes. */
  datatype Child = Child(owner: int, attrs: Attrs)

  /** A child table: rows by primary key, and the next auto-increment key. */
  datatype Table = Table(rows: map<int, Child>, nextId: int) {
    /** Auto-increment keys start at 1 and stay below `nextId`. */
    predicate Valid() {
      1 <= nextId && forall k :: k in rows ==> 1 <= k < nextId
    }
  }

  /** Row `k` exists and belongs to `owner`: `$relation->find(k)` finds it. */
  predicate Owns(t: Table, owner: int, k: int) {
    k in t.rows && t.rows[k].owner == owner
  }

  /** The keys of the children of `owner`: what `$this->{$relationName}()` sees. */
  function Relation(t: Table, owner: int): set<int> {
    set k | k in t.rows && t.rows[k].owner == owner
  }

  /** What mass assignment writes from a payload item: everything but the primary key. */
  function Writable(item: Attrs): Attrs {
    item - {"id"}
  }

  /** `$relation->create($attrs)`: a new row of `owner` under the next key. */
  function Insert(t: Table, owner: int, attrs: Attrs): Table {
    Table(t.rows[t.nextId := Child(owner, attrs)], t.nextId + 1)
  }

  /** `$child->update($item)` on row `k`: the item's attributes overwrite the row's. */
  function Update(t: Table, k: int, item: Attrs): Table
    requires k in t.rows
  {
    t.(rows := t.rows[k := t.rows[k].(attrs := t.rows[k].attrs + Writable(item))])
  }

  /** The id the item contributes to `pluck('id')->filter()`, when it names an integer key. */
  function PayloadId(item: Attrs): Option<int> {
    if "id" in item && Truthy(item["id"]) then KeyOf(item["id"]) else None
  }

  /** The ids kept by the bulk delete of `syncRelation`. */
  function KeptIds(items: seq<Attrs>): set<int> {
    set i | 0 <= i < |items| && PayloadId(items[i]).Some? :: PayloadId(items[i]).value
  }

  /** `$relation->whereNotIn('id', $kept)->delete()`: drop the owner's rows whose key is not kept. */
  function Prune(t: Table, owner: int, kept: set<int>): Table {
    Table(map k | k in t.rows && (t.rows[k].owner != owner || k in kept) :: t.rows[k], t.nextId)
  }

  // ---------------------------------------------------------------------------
  // syncRelation
  // ---------------------------------------------------------------------------

  /**
   * One iteration of the `foreach` of `syncRelation`, corrected: an item with
   * an id set updates the owner's row of that key if there is one and is
   * skipped otherwise; an item without an id creates a row.
   */
  function SyncItem(t: Table, owner: int, item: Attrs): Table {
    if IsSet(item, "id") then
      var key := KeyOf(item["id"]);
      if key.Some? && Owns(t, owner, key.value) then Update(t, key.value, item) else t
    else
      Insert(t, owner, Writable(item))
  }

  /** The `foreach` of `syncRelation` over `items`, in payload order. */
  function SyncItems(t: Table, owner: int, items: seq<Attrs>): Table
    decreases |items|
  {
    if |items| == 0 then t
    else SyncItem(SyncItems(t, owner, items[..|items| - 1]), owner, items[|items| - 1])
  }

  /** `syncRelation`: the bulk delete, then the update-or-create loop. */
  function Sync(t: Table, owner: int, items: seq<Attrs>): Table {
    SyncItems(Prune(t, owner, KeptIds(items)), owner, items)
  }

  /** The items without an id (`! isset($item['id'])`), in payload order. */
  function NewItems(items: seq<Attrs>): seq<Attrs>
    decreases |items|
  {
    if |items| == 0 then []
    else
      var last := items[|items| - 1];
      NewItems(items[..|items| - 1]) + if IsSet(last, "id") then [] else [last]
  }

  /** The writable parts of the items whose id is the integer `k`, in payload order. */
  function UpdatesFor(items: seq<Attrs>, k: int): seq<Attrs>
    decreases |items|
  {
    if |items| == 0 then []
    else
      var last := items[|items| - 1];
      UpdatesFor(items[..|items| - 1], k) + if KeyOf(Get(last, "id")) == Some(k) then [Writable(last)] else []
  }

  /** Attributes `a` after the updates, applied in order. */
  function Merged(a: Attrs, updates: seq<Attrs>): Attrs
    decreases |updates|
  {
    if |updates| == 0 then a else Merged(a, updates[..|updates| - 1]) + updates[|updates| - 1]
  }

  /** Every integer id in the payload names a key already handed out. */
  predicate IdsBelow(items: seq<Attrs>, n: int) {
    forall i :: 0 <= i < |items| && KeyOf(Get(items[i], "id")).Some? ==> KeyOf(Get(items[i], "id")).value < n
  }

  lemma PruneShape(t: Table, owner: int, kept: set<int>)
    requires t.Valid()
    ensures var p := Prune(t, owner, kept);
      && p.Valid() && p.nextId == t.nextId
      && (forall k :: k in p.rows <==> k in t.rows && (t.rows[k].owner != owner || k in kept))
      && (forall k :: k in p.rows ==> p.rows[k] == t.rows[k])
  {
  }

  /** The loop never deletes, never re-owns, only touches the owner's rows and adds one row per new item. */
  lemma {:induction false} SyncItemsShape(t: Table, owner: int, items: seq<Attrs>)
    requires t.Valid()
    ensures var r := SyncItems(t, owner, items);
      && r.Valid()
      && r.nextId == t.nextId + |NewItems(items)|
      && (forall k :: k in r.rows <==> k in t.rows || t.nextId <= k < r.nextId)
      && (forall k :: k in t.rows ==> r.rows[k].owner == t.rows[k].owner)
      && (forall k :: k in t.rows && t.rows[k].owner != owner ==> r.rows[k] == t.rows[k])
      && (forall k :: k in r.rows && k !in t.rows ==> r.rows[k].owner == owner)
  {
    if |items| > 0 {
      SyncItemsShape(t, owner, items[..|items| - 1]);
    }
  }

  /** A row of the owner that exists before the loop ends up with every update that names it, in order. */
  lemma {:induction false} SyncItemsMatched(t: Table, owner: int, items: seq<Attrs>, k: int)
    requires t.Valid() && Owns(t, owner, k)
    ensures var r := SyncItems(t, owner, items);
      k in r.rows && r.rows[k] == Child(owner, Merged(t.rows[k].attrs, UpdatesFor(items, k)))
  {
    if |items| > 0 {
      var init, last := items[..|items| - 1], items[|items| - 1];
      SyncItemsMatched(t, owner, init, k);
      SyncItemsShape(t, owner, init);
      var u := UpdatesFor(init, k);
      if KeyOf(Get(last, "id")) == Some(k) {
        assert (u + [Writable(last)])[..|u|] == u;
      } else {
        assert u + [] == u;
      }
    }
  }

  /** When the payload names only keys handed out before, the j-th new item becomes the j-th new row. */
  lemma {:induction false} SyncItemsCreated(t: Table, owner: int, items: seq<Attrs>, j: int)
    requires t.Valid() && IdsBelow(items, t.nextId)
    requires 0 <= j < |NewItems(items)|
    ensures var r := SyncItems(t, owner, items);
      t.nextId + j in r.rows && r.rows[t.nextId + j] == Child(owner, Writable(NewItems(items)[j]))
  {
    var init, last := items[..|items| - 1], items[|items| - 1];
    assert IdsBelow(init, t.nextId) by {
      forall i | 0 <= i < |init| ensures init[i] == items[i] { }
    }
    SyncItemsShape(t, owner, init);
    var n := NewItems(init);
    if IsSet(last, "id") {
      assert NewItems(items) == n + [];
      SyncItemsCreated(t, owner, init, j);
      assert KeyOf(Get(items[|items| - 1], "id")).Some? ==> KeyOf(Get(items[|items| - 1], "id")).value < t.nextId;
    } else {
      assert NewItems(items) == n + [last];
      if j < |n| {
        SyncItemsCreated(t, owner, init, j);
      }
    }
  }

  /** After `syncRelation`, a row the owner had survives exactly when the payload lists its id. */
  lemma SyncPrunesUnlisted(t: Table, owner: int, items: seq<Attrs>)
    requires t.Valid()
    ensures var r := Sync(t, owner, items);
      forall k :: Owns(t, owner, k) ==> (k in r.rows <==> k in KeptIds(items))
  {
    var p := Prune(t, owner, KeptIds(items));
    PruneShape(t, owner, KeptIds(items));
    SyncItemsShape(p, owner, items);
  }

  /** A surviving row of the owner is overwritten by the payload items that carry its id, in order. */
  lemma SyncUpdatesMatched(t: Table, owner: int, items: seq<Attrs>, k: int)
    requires t.Valid() && Owns(t, owner, k) && k in KeptIds(items)
    ensures var r := Sync(t, owner, items);
      k in r.rows && r.rows[k] == Child(owner, Merged(t.rows[k].attrs, UpdatesFor(items, k)))
  {
    var p := Prune(t, owner, KeptIds(items));
    PruneShape(t, owner, KeptIds(items));
    SyncItemsMatched(p, owner, items, k);
  }

  /** Rows of other owners are neither deleted nor changed by `syncRelation`. */
  lemma SyncLeavesOtherOwners(t: Table, owner: int, items: seq<Attrs>)
    requires t.Valid()
    ensures var r := Sync(t, owner, items);
      forall k :: k in t.rows && t.rows[k].owner != owner ==> k in r.rows && r.rows[k] == t.rows[k]
  {
    var p := Prune(t, owner, KeptIds(items));
    PruneShape(t, owner, KeptIds(items));
    SyncItemsShape(p, owner, items);
  }

  /**
   * After `syncRelation` the relation is exactly the kept old rows plus one
   * fresh row per item without an id; pruning runs first, so no new row is
   * deleted, and the table stays valid.
   */
  lemma SyncRelationExactly(t: Table, owner: int, items: seq<Attrs>)
    requires t.Valid()
    ensures var r := Sync(t, owner, items);
      && r.Valid()
      && r.nextId == t.nextId + |NewItems(items)|
      && forall k :: k in Relation(r, owner) <==> (k in Relation(t, owner) && k in KeptIds(items)) || t.nextId <= k < r.nextId
  {
    var kept := KeptIds(items);
    var p := Prune(t, owner, kept);
    PruneShape(t, owner, kept);
    SyncItemsShape(p, owner, items);
    var r := Sync(t, owner, items);
    forall k ensures k in Relation(r, owner) <==> (k in Relation(t, owner) && k in kept) || t.nextId <= k < r.nextId {
      if k in p.rows {
        assert k < t.nextId;
      }
    }
  }

  /** When the payload names only keys handed out before, the j-th item without an id is the j-th new row. */
  lemma SyncCreatesNewItems(t: Table, owner: int, items: seq<Attrs>, j: int)
    requires t.Valid() && IdsBelow(items, t.nextId)
    requires 0 <= j < |NewItems(items)|
    ensures var r := Sync(t, owner, items);
      t.nextId + j in r.rows && r.rows[t.nextId + j] == Child(owner, Writable(NewItems(items)[j]))
  {
    var p := Prune(t, owner, KeptIds(items));
    PruneShape(t, owner, KeptIds(items));
    SyncItemsCreated(p, owner, items, j);
  }

  /** An item whose id is set but falsy (0, "", false, "0") is neither kept, nor updated, nor created. */
  lemma SyncIgnoresFalsyId(t: Table, owner: int, items: seq<Attrs>, item: Attrs)
    requires t.Valid()
    requires IsSet(item, "id") && !Truthy(item["id"])
    ensures Sync(t, owner, items + [item]) == Sync(t, owner, items)
  {
    var all := items + [item];
    assert all[..|items|] == items;
    assert KeptIds(all) == KeptIds(items) by {
      forall i | 0 <= i < |items| ensures all[i] == items[i] { }
    }
    var p := Prune(t, owner, KeptIds(items));
    PruneShape(t, owner, KeptIds(items));
    SyncItemsShape(p, owner, items);
  }

  /**
   * An item whose id is not a row of the owner (unknown, or another owner's)
   * is skipped: no update, no create, no error.
   */
  lemma SyncSkipsUnknownId(t: Table, owner: int, items: seq<Attrs>, item: Attrs, k: int)
    requires t.Valid()
    requires KeyOf(Get(item, "id")) == Some(k) && k < t.nextId && !Owns(t, owner, k)
    ensures Sync(t, owner, items + [item]) == Sync(t, owner, items)
  {
    var all := items + [item];
    assert all[..|items|] == items;
    var kept := KeptIds(items);
    assert KeptIds(all) <= kept + {k} by {
      forall i | 0 <= i < |items| ensures all[i] == items[i] { }
    }
    assert kept <= KeptIds(all) by {
      forall i | 0 <= i < |items| ensures all[i] == items[i] { }
    }
    assert Prune(t, owner, KeptIds(all)) == Prune(t, owner, kept);
    var p := Prune(t, owner, kept);
    PruneShape(t, owner, kept);
    SyncItemsShape(p, owner, items);
  }

  // ---------------------------------------------------------------------------
  // syncRelation as written
  // ---------------------------------------------------------------------------

  /**
   * One iteration of the `foreach` of `syncRelation` as written. `$relation`
   * is one query builder for the whole call, so the `whereNotIn` of the bulk
   * delete is still on it when `find` runs: `find` only sees rows of the owner
   * whose key is NOT among the kept ids.
   */
  function SyncItemAsWritten(t: Table, owner: int, kept: set<int>, item: Attrs): Table {
    if IsSet(item, "id") then
      var key := KeyOf(item["id"]);
      if key.Some? && key.value !in kept && Owns(t, owner, key.value) then Update(t, key.value, item) else t
    else
      Insert(t, owner, Writable(item))
  }

  /** The `foreach` of `syncRelation` as written, with the delete's constraint still in force. */
  function SyncItemsAsWritten(t: Table, owner: int, kept: set<int>, items: seq<Attrs>): Table
    decreases |items|
  {
    if |items| == 0 then t
    else SyncItemAsWritten(SyncItemsAsWritten(t, owner, kept, items[..|items| - 1]), owner, kept, items[|items| - 1])
  }

  /** `syncRelation` as written. */
  function SyncAsWritten(t: Table, owner: int, items: seq<Attrs>): Table {
    var kept := KeptIds(items);
    SyncItemsAsWritten(Prune(t, owner, kept), owner, kept, items)
  }

  /**
   * When every id the items contribute is kept, the loop as written never
   * changes an existing row: an item with an id is either filtered out of
   * `find` by `whereNotIn`, or names key 0, which no row has.
   */
  lemma {:induction false} SyncItemsAsWrittenKeepsRows(t: Table, owner: int, kept: set<int>, items: seq<Attrs>)
    requires t.Valid()
    requires forall i :: 0 <= i < |items| && PayloadId(items[i]).Some? ==> PayloadId(items[i]).value in kept
    ensures var r := SyncItemsAsWritten(t, owner, kept, items);
      && r.Valid()
      && r.nextId == t.nextId + |NewItems(items)|
      && (forall k :: k in r.rows <==> k in t.rows || t.nextId <= k < r.nextId)
      && forall k :: k in t.rows ==> k in r.rows && r.rows[k] == t.rows[k]
  {
    if |items| > 0 {
      var init, last := items[..|items| - 1], items[|items| - 1];
      assert forall i :: 0 <= i < |init| ==> init[i] == items[i];
      SyncItemsAsWrittenKeepsRows(t, owner, kept, init);
      if IsSet(last, "id") {
        assert NewItems(items) == NewItems(init) + [];
        var key := KeyOf(last["id"]);
        if key.Some? && key.value !in kept {
          assert PayloadId(items[|items| - 1]).None?;
          assert key.value == 0;
        }
      } else {
        assert NewItems(items) == NewItems(init) + [last];
      }
    }
  }

  /**
   * As written, `syncRelation` never updates a row: every row the relation
   * keeps still holds its old attributes, and every row that survives the
   * delete is one the payload lists or another owner's.
   */
  lemma SyncAsWrittenNeverUpdates(t: Table, owner: int, items: seq<Attrs>)
    requires t.Valid()
    ensures var r := SyncAsWritten(t, owner, items);
      && (forall k :: k in t.rows && k in r.rows ==> r.rows[k] == t.rows[k])
      && (forall k :: Owns(t, owner, k) ==> (k in r.rows <==> k in KeptIds(items)))
  {
    var kept := KeptIds(items);
    PruneShape(t, owner, kept);
    SyncItemsAsWrittenKeepsRows(Prune(t, owner, kept), owner, kept, items);
  }

  /** Row 5 of owner 1 holds "old"; the payload renames it "new". As written it stays "old"; corrected it becomes "new". */
  lemma SyncAsWrittenDropsUpdate()
    ensures var t := Table(map[5 := Child(1, map["name" := Str("old")])], 6);
      var items := [map["id" := Int(5), "name" := Str("new")]];
      && SyncAsWritten(t, 1, items).rows[5].attrs["name"] == Str("old")
      && Sync(t, 1, items).rows[5].attrs["name"] == Str("new")
  {
    var t := Table(map[5 := Child(1, map["name" := Str("old")])], 6);
    var item := map["id" := Int(5), "name" := Str("new")];
    var items := [item];
    assert PayloadId(items[0]) == Some(5);
    assert KeptIds(items) == {5};
    var p := Prune(t, 1, {5});
    assert p == t;
    assert items[..0] == [];
    assert SyncItemsAsWritten(p, 1, {5}, items[..0]) == p;
    assert SyncItemAsWritten(p, 1, {5}, item) == p;
    assert SyncAsWritten(t, 1, items) == t;
    assert SyncItems(p, 1, items[..0]) == p;
    assert Owns(p, 1, 5);
    assert SyncItem(p, 1, item) == Update(t, 5, item);
    assert Sync(t, 1, items) == Update(t, 5, item);
  }

  // ---------------------------------------------------------------------------
  // overwriteRelation
  // ---------------------------------------------------------------------------

  /** The `foreach` of `overwriteRelation`: one new row per item, in payload order. */
  function CreateItems(t: Table, owner: int, items: seq<Attrs>): Table
    decreases |items|
  {
    if |items| == 0 then t
    else Insert(CreateItems(t, owner, items[..|items| - 1]), owner, Writable(items[|items| - 1]))
  }

  /** `overwriteRelation`: delete all the owner's rows, then create one per item. */
  function Overwrite(t: Table, owner: int, items: seq<Attrs>): Table {
    CreateItems(Prune(t, owner, {}), owner, items)
  }

  lemma {:induction false} CreateItemsShape(t: Table, owner: int, items: seq<Attrs>)
    requires t.Valid()
    ensures var r := CreateItems(t, owner, items);
      && r.Valid()
      && r.nextId == t.nextId + |items|
      && (forall k :: k in r.rows <==> k in t.rows || t.nextId <= k < r.nextId)
      && (forall k :: k in t.rows ==> r.rows[k] == t.rows[k])
      && (forall j :: 0 <= j < |items| ==> t.nextId + j in r.rows && r.rows[t.nextId + j] == Child(owner, Writable(items[j])))
  {
    if |items| > 0 {
      var init := items[..|items| - 1];
      CreateItemsShape(t, owner, init);
      forall j | 0 <= j < |init| ensures init[j] == items[j] { }
    }
  }

  /**
   * After `overwriteRelation` the relation is exactly one fresh row per item,
   * holding that item's attributes, and other owners' rows are untouched; an
   * empty payload leaves the relation empty.
   */
  lemma OverwriteRelationExactly(t: Table, owner: int, items: seq<Attrs>)
    requires t.Valid()
    ensures var r := Overwrite(t, owner, items);
      && r.Valid()
      && r.nextId == t.nextId + |items|
      && (forall k :: k in Relation(r, owner) <==> t.nextId <= k < r.nextId)
      && (forall j :: 0 <= j < |items| ==> t.nextId + j in r.rows && r.rows[t.nextId + j] == Child(owner, Writable(items[j])))
      && (forall k :: k in t.rows && t.rows[k].owner != owner ==> k in r.rows && r.rows[k] == t.rows[k])
      && (|items| == 0 ==> Relation(r, owner) == {})
  {
    var p := Prune(t, owner, {});
    PruneShape(t, owner, {});
    CreateItemsShape(p, owner, items);
    var r := Overwrite(t, owner, items);
    forall k ensures k in Relation(r, owner) <==> t.nextId <= k < r.nextId {
      if t.nextId <= k < r.nextId {
        var j := k - t.nextId;
        assert r.rows[t.nextId + j] == Child(owner, Writable(items[j]));
      }
      if k in p.rows {
        assert k < t.nextId && r.rows[k] == p.rows[k];
      }
    }
  }

  // ---------------------------------------------------------------------------
  // syncRelationsFromRequest
  // ---------------------------------------------------------------------------

  datatype Policy = SyncPolicy | OverwritePolicy

  /** The reconciliation policy of a collection, by its snake_case name. */
  function PolicyFor(relation: string): Policy {
    if relation in ["addresses", "language_pairs_rates"] then SyncPolicy else OverwritePolicy
  }

  function Reconcile(policy: Policy, t: Table, owner: int, items: seq<Attrs>): Table {
    match policy
    case SyncPolicy => Sync(t, owner, items)
    case OverwritePolicy => Overwrite(t, owner, items)
  }

  predicate IsWordSeparator(c: char) {
    c == '_' || c == '-' || c == ' '
  }

  function UpperAscii(c: char): char {
    if 'a' <= c <= 'z' then (c as int - 32) as char else c
  }

  function LowerAscii(c: char): char {
    if 'A' <= c <= 'Z' then (c as int + 32) as char else c
  }

  /** `Str::studly` from position 0 of `s`: separators dropped, each word's first letter upper-cased. */
  function StudlyFrom(s: string, wordStart: bool): string
    decreases |s|
  {
    if |s| == 0 then ""
    else if IsWordSeparator(s[0]) then StudlyFrom(s[1..], true)
    else [if wordStart then UpperAscii(s[0]) else s[0]] + StudlyFrom(s[1..], false)
  }

  /** `Str::camel`: the relation method a snake_case collection name refers to. */
  function Camel(s: string): string {
    var studly := StudlyFrom(s, true);
    if |studly| == 0 then studly else [LowerAscii(studly[0])] + studly[1..]
  }

  /** A word without separators keeps its letters; only its first one may be upper-cased. */
  lemma {:induction false} StudlyFromWord(word: string, rest: string, wordStart: bool)
    requires |word| > 0 && forall i :: 0 <= i < |word| ==> !IsWordSeparator(word[i])
    ensures StudlyFrom(word + rest, wordStart)
         == [if wordStart then UpperAscii(word[0]) else word[0]] + word[1..] + StudlyFrom(rest, false)
  {
    assert (word + rest)[1..] == word[1..] + rest;
    if |word| > 1 {
      StudlyFromWord(word[1..], rest, false);
    }
  }

  /** `Str::camel('addresses')` is the relation method `addresses`. */
  lemma CamelOfAddresses()
    ensures Camel("addresses") == "addresses"
  {
    var w := "addresses";
    assert forall i :: 0 <= i < |w| ==> !IsWordSeparator(w[i]);
    StudlyFromWord(w, "", true);
    assert w + "" == w;
    var studly := StudlyFrom(w, true);
    assert studly == ['A'] + w[1..];
    assert studly[0] == 'A' && studly[1..] == w[1..];
  }

  /** A word followed by `_` and more words: the word is capitalised and the next word starts afresh. */
  lemma StudlyFromWordThenSeparator(word: string, rest: string)
    requires |word| > 0 && forall i :: 0 <= i < |word| ==> !IsWordSeparator(word[i])
    ensures StudlyFrom(word + "_" + rest, true) == [UpperAscii(word[0])] + word[1..] + StudlyFrom(rest, true)
  {
    StudlyFromWord(word, "_" + rest, true);
    assert word + "_" + rest == word + ("_" + rest);
    var tail := "_" + rest;
    assert tail[0] == '_' && tail[1..] == rest;
  }

  /** The studly form of the single word `rates`. */
  lemma StudlyOfRates()
    ensures StudlyFrom("rates", true) == "Rates"
  {
    var w := "rates";
    assert forall i :: 0 <= i < |w| ==> !IsWordSeparator(w[i]);
    StudlyFromWord(w, "", true);
    assert w + "" == w;
  }

  /** The studly form of `pairs_rates`. */
  lemma StudlyOfPairsRates()
    ensures StudlyFrom("pairs_rates", true) == "PairsRates"
  {
    var w := "pairs";
    assert forall i :: 0 <= i < |w| ==> !IsWordSeparator(w[i]);
    StudlyFromWordThenSeparator(w, "rates");
    StudlyOfRates();
    assert UpperAscii(w[0]) == 'P' && w[1..] == "airs";
    PairsRatesSpelling();
  }

  /** How the pieces of `pairs_rates` and of its studly form spell out. */
  lemma PairsRatesSpelling()
    ensures "pairs" + "_" + "rates" == "pairs_rates"
    ensures ['P'] + "airs" + "Rates" == "PairsRates"
  {
  }

  /** `Str::camel` lower-cases the first letter of the studly form. */
  lemma CamelFromStudly(s: string, studly: string)
    requires StudlyFrom(s, true) == studly && |studly| > 0
    ensures Camel(s) == [LowerAscii(studly[0])] + studly[1..]
  {
  }

  /** The first element and the rest of a sequence that starts with `c`. */
  lemma FirstAndRest(c: char, x: string, y: string)
    ensures ([c] + x + y)[0] == c && ([c] + x + y)[1..] == x + y
  {
  }

  /** How the pieces of `language_pairs_rates` and of its camel form spell out. */
  lemma CamelSpelling()
    ensures "language" + "_" + "pairs_rates" == "language_pairs_rates"
    ensures ['l'] + ("anguage" + "PairsRates") == "languagePairsRates"
  {
  }

  /** `Str::camel('language_pairs_rates')` is the relation method `languagePairsRates`. */
  lemma CamelOfLanguagePairsRates()
    ensures Camel("language_pairs_rates") == "languagePairsRates"
  {
    var w := "language";
    assert forall i :: 0 <= i < |w| ==> !IsWordSeparator(w[i]);
    StudlyFromWordThenSeparator(w, "pairs_rates");
    CamelSpelling();
    StudlyOfPairsRates();
    var studly := [UpperAscii(w[0])] + w[1..] + "PairsRates";
    CamelFromStudly("language_pairs_rates", studly);
    FirstAndRest(UpperAscii(w[0]), w[1..], "PairsRates");
    assert UpperAscii(w[0]) == 'L' && LowerAscii('L') == 'l';
    assert Camel("language_pairs_rates") == ['l'] + (w[1..] + "PairsRates");
    assert w[1..] == "anguage";
  }

  /** One iteration of `syncRelationsFromRequest`. */
  function ApplyRequested(relations: map<string, Table>, owner: int, data: map<string, seq<Attrs>>, name: string): map<string, Table> {
    var relationMethod := Camel(name);
    if name in data && relationMethod in relations then
      relations[relationMethod := Reconcile(PolicyFor(name), relations[relationMethod], owner, data[name])]
    else relations
  }

  /** `syncRelationsFromRequest` over the listed names, in order. */
  function SyncFromRequest(relations: map<string, Table>, owner: int, data: map<string, seq<Attrs>>, names: seq<string>): map<string, Table>
    decreases |names|
  {
    if |names| == 0 then relations
    else ApplyRequested(SyncFromRequest(relations, owner, data, names[..|names| - 1]), owner, data, names[|names| - 1])
  }

  /** Some listed name is present in the data and refers to relation `method`. */
  predicate Requested(relationMethod: string, data: map<string, seq<Attrs>>, names: seq<string>) {
    exists i :: 0 <= i < |names| && names[i] in data && Camel(names[i]) == relationMethod
  }

  /** Only relations that are listed, present in the data and defined are touched. */
  lemma {:induction false} SyncFromRequestFrame(relations: map<string, Table>, owner: int, data: map<string, seq<Attrs>>, names: seq<string>)
    ensures var r := SyncFromRequest(relations, owner, data, names);
      && r.Keys == relations.Keys
      && forall m :: m in relations && !Requested(m, data, names) ==> r[m] == relations[m]
  {
    if |names| > 0 {
      var init := names[..|names| - 1];
      SyncFromRequestFrame(relations, owner, data, init);
    }
  }

  /**
   * A relation requested by exactly one listed name is reconciled once, by
   * that name's policy: sync for `addresses` and `language_pairs_rates`,
   * overwrite for every other name.
   */
  lemma {:induction false} SyncFromRequestPolicy(relations: map<string, Table>, owner: int, data: map<string, seq<Attrs>>, names: seq<string>, i: int)
    requires 0 <= i < |names| && names[i] in data && Camel(names[i]) in relations
    requires forall j :: 0 <= j < |names| && j != i && names[j] in data ==> Camel(names[j]) != Camel(names[i])
    ensures var r := SyncFromRequest(relations, owner, data, names);
      var m := Camel(names[i]);
      var p := if names[i] == "addresses" || names[i] == "language_pairs_rates" then SyncPolicy else OverwritePolicy;
      m in r && r[m] == Reconcile(p, relations[m], owner, data[names[i]])
  {
    var init, m := names[..|names| - 1], Camel(names[i]);
    if i == |names| - 1 {
      SyncFromRequestFrame(relations, owner, data, init);
    } else {
      SyncFromRequestPolicy(relations, owner, data, init, i);
      SyncFromRequestFrame(relations, owner, data, init);
    }
  }

  lemma SyncValid(t: Table, owner: int, items: seq<Attrs>)
    requires t.Valid()
    ensures Sync(t, owner, items).Valid()
  {
    SyncRelationExactly(t, owner, items);
  }

  lemma OverwriteValid(t: Table, owner: int, items: seq<Attrs>)
    requires t.Valid()
    ensures Overwrite(t, owner, items).Valid()
  {
    OverwriteRelationExactly(t, owner, items);
  }

  // ---------------------------------------------------------------------------
  // The owning model
  // ---------------------------------------------------------------------------

  /** A model that uses `HasNestedSync`: its id, and the child tables of its relation methods. */
  class SyncingModel {
    const id: int
    var relations: map<string, Table>

    /** Every child table keeps its auto-increment invariant. */
    predicate Valid()
      reads this
    {
      forall m :: m in relations ==> relations[m].Valid()
    }

    constructor (id: int, relations: map<string, Table>)
      ensures this.id == id && this.relations == relations
    {
      this.id := id;
      this.relations := relations;
    }

    /** `syncRelation($relationName, $items)`, corrected so that `find` sees every row of the relation (`SyncAsWritten` is the code as written). */
    method SyncRelation(relationName: string, items: seq<Attrs>)
      requires relationName in relations && Valid()
      modifies this
      ensures Valid()
      ensures relations == old(relations)[relationName := Sync(old(relations)[relationName], id, items)]
    {
      var relation := relations[relationName];
      SyncValid(relation, id, items);
      ghost var pruned := Prune(relation, id, KeptIds(items));
      relation := Prune(relation, id, KeptIds(items));
      var i := 0;
      while i < |items|
        invariant 0 <= i <= |items|
        invariant relation == SyncItems(pruned, id, items[..i])
      {
        var item := items[i];
        if IsSet(item, "id") {
          var key := KeyOf(item["id"]);
          if key.Some? && key.value in relation.rows && relation.rows[key.value].owner == id {
            var child := relation.rows[key.value];
            relation := relation.(rows := relation.rows[key.value := child.(attrs := child.attrs + Writable(item))]);
          }
        } else {
          relation := Table(relation.rows[relation.nextId := Child(id, Writable(item))], relation.nextId + 1);
        }
        assert items[..i + 1][..i] == items[..i];
        i := i + 1;
      }
      assert items[..|items|] == items;
      relations := relations[relationName := relation];
    }

    /** `overwriteRelation($relationName, $items)`. */
    method OverwriteRelation(relationName: string, items: seq<Attrs>)
      requires relationName in relations && Valid()
      modifies this
      ensures Valid()
      ensures relations == old(relations)[relationName := Overwrite(old(relations)[relationName], id, items)]
    {
      var relation := relations[relationName];
      OverwriteValid(relation, id, items);
      ghost var emptied := Prune(relation, id, {});
      relation := Prune(relation, id, {});
      var i := 0;
      while i < |items|
        invariant 0 <= i <= |items|
        invariant relation == CreateItems(emptied, id, items[..i])
      {
        relation := Table(relation.rows[relation.nextId := Child(id, Writable(items[i]))], relation.nextId + 1);
        assert items[..i + 1][..i] == items[..i];
        i := i + 1;
      }
      assert items[..|items|] == items;
      relations := relations[relationName := relation];
    }

    /** One iteration of `syncRelationsFromRequest`: reconcile the relation `relation` names, if it is present and defined. */
    method SyncRequested(validatedData: map<string, seq<Attrs>>, relation: string)
      requires Valid()
      modifies this
      ensures Valid()
      ensures relations == ApplyRequested(old(relations), id, validatedData, relation)
    {
      if relation in validatedData {
        var camelRelation := Camel(relation);
        if camelRelation in relations {
          if relation in ["addresses", "language_pairs_rates"] {
            SyncRelation(camelRelation, validatedData[relation]);
          } else {
            OverwriteRelation(camelRelation, validatedData[relation]);
          }
        }
      }
    }

    /** `syncRelationsFromRequest($validatedData, $relationsToSync)`. */
    method SyncRelationsFromRequest(validatedData: map<string, seq<Attrs>>, relationsToSync: seq<string>)
      requires Valid()
      modifies this
      ensures Valid()
      ensures relations == SyncFromRequest(old(relations), id, validatedData, relationsToSync)
    {
      var i := 0;
      while i < |relationsToSync|
        invariant 0 <= i <= |relationsToSync|
        invariant Valid()
        invariant relations == SyncFromRequest(old(relations), id, validatedData, relationsToSync[..i])
      {
        SyncRequested(validatedData, relationsToSync[i]);
        assert relationsToSync[..i + 1][..i] == relationsToSync[..i];
        i := i + 1;
      }
      assert relationsToSync[..|relationsToSync|] == relationsToSync;
    }
  }
}
