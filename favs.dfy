/** `FavStore` (src/pixiv/favs.js:24-53): per-conversation favourite images
    in one JSON object keyed by context key. `addMany` upserts by id into an
    insertion-ordered map built from the stored list, `remove` filters one id
    out, `list` reads the list. The file is the field `data`: a missing or
    unreadable file reads as the empty object, and each call writes the
    whole object back. */
module Favs {
  import opened Text

  /** A stored favourite. */
  datatype Fav = Fav(id: string, imagePath: string, addedAt: string)

  /** A value in the file: a list of favourites, or anything that is not an
      array. */
  datatype Value = Favs(entries: seq<Fav>) | NotArray

  /** An item handed to `addMany`: `String(it?.id || '')` and
      `String(it?.imagePath || '')`. */
  datatype Item = Item(id: string, imagePath: string)

  /** `Array.isArray(j[key]) ? j[key] : []` */
  function Stored(data: map<string, Value>, key: string): seq<Fav> {
    if key in data && data[key].Favs? then data[key].entries else []
  }

  /** Index of the first entry with this id, or `|xs|`. */
  function IdIndex(xs: seq<Fav>, id: string): (k: nat)
    ensures k <= |xs| && (k < |xs| ==> xs[k].id == id)
    ensures forall j :: 0 <= j < k ==> xs[j].id != id
  {
    if |xs| == 0 || xs[0].id == id then 0 else 1 + IdIndex(xs[1..], id)
  }

  predicate HasId(xs: seq<Fav>, id: string) {
    exists k :: 0 <= k < |xs| && xs[k].id == id
  }

  predicate UniqueIds(xs: seq<Fav>) {
    forall a, b :: 0 <= a < b < |xs| ==> xs[a].id != xs[b].id
  }

  /** `byId.set(f.id, f)` on an insertion-ordered map held as a list: an
      id already present keeps its position and takes the new entry, a new
      id goes at the end. */
  function Upsert(xs: seq<Fav>, f: Fav): (r: seq<Fav>)
    ensures IdIndex(xs, f.id) < |xs| ==> r == xs[IdIndex(xs, f.id) := f]
    ensures IdIndex(xs, f.id) == |xs| ==> r == xs + [f]
  {
    if |xs| == 0 then [f]
    else if xs[0].id == f.id then [f] + xs[1..]
    else [xs[0]] + Upsert(xs[1..], f)
  }

  /** `new Map(arr.map(x => [String(x.id), x]))` */
  function Indexed(arr: seq<Fav>): seq<Fav>
    decreases |arr|
  {
    if |arr| == 0 then [] else Upsert(Indexed(arr[..|arr| - 1]), arr[|arr| - 1])
  }

  /** An item is stored only when its trimmed id and trimmed path are both
      non-empty. */
  predicate Valid(it: Item) {
    Trim(it.id) != "" && Trim(it.imagePath) != ""
  }

  function EntryOf(it: Item, stamp: string): Fav {
    Fav(Trim(it.id), Trim(it.imagePath), stamp)
  }

  /** The map after the item loop of `addMany`. */
  function AddItems(byId: seq<Fav>, items: seq<Item>, stamp: string): seq<Fav>
    decreases |items|
  {
    if |items| == 0 then byId
    else
      var prev := AddItems(byId, items[..|items| - 1], stamp);
      var it := items[|items| - 1];
      if Valid(it) then Upsert(prev, EntryOf(it, stamp)) else prev
  }

  /** The list `addMany` stores under its key. */
  function Merged(arr: seq<Fav>, items: seq<Item>, stamp: string): seq<Fav> {
    AddItems(Indexed(arr), items, stamp)
  }

  /** The entries `remove` keeps: those whose id differs, in order. */
  function Without(xs: seq<Fav>, id: string): seq<Fav>
    decreases |xs|
  {
    if |xs| == 0 then []
    else (if xs[0].id != id then [xs[0]] else []) + Without(xs[1..], id)
  }

  // ---------------------------------------------------------------- upsert

  lemma UpsertUnique(xs: seq<Fav>, f: Fav)
    requires UniqueIds(xs)
    ensures UniqueIds(Upsert(xs, f))
    ensures HasId(Upsert(xs, f), f.id)
    ensures forall id :: HasId(Upsert(xs, f), id) <==> HasId(xs, id) || id == f.id
  {
    var k := IdIndex(xs, f.id);
    var r := Upsert(xs, f);
    if k == |xs| {
      assert r[|xs|] == f;
      forall id | HasId(xs, id) ensures HasId(r, id) {
        var j :| 0 <= j < |xs| && xs[j].id == id;
        assert r[j] == xs[j];
      }
    } else {
      assert r[k] == f;
      forall id | HasId(r, id) ensures HasId(xs, id) || id == f.id {
        var j :| 0 <= j < |r| && r[j].id == id;
        if j != k {
          assert xs[j] == r[j];
        }
      }
      forall id | HasId(xs, id) ensures HasId(r, id) {
        var j :| 0 <= j < |xs| && xs[j].id == id;
        assert r[j].id == id;
      }
    }
  }

  /** An entry with another id survives an upsert. */
  lemma UpsertKeeps(xs: seq<Fav>, f: Fav, e: Fav)
    requires e in xs && e.id != f.id
    ensures e in Upsert(xs, f)
  {
    var j :| 0 <= j < |xs| && xs[j] == e;
    assert Upsert(xs, f)[j] == e;
  }

  // ------------------------------------------------------------- addMany

  /** The stored list never holds two entries with the same id: the map
      built from the old list has unique ids and every upsert keeps it so. */
  lemma {:induction false} IndexedUnique(arr: seq<Fav>)
    ensures UniqueIds(Indexed(arr))
    decreases |arr|
  {
    if |arr| > 0 {
      IndexedUnique(arr[..|arr| - 1]);
      UpsertUnique(Indexed(arr[..|arr| - 1]), arr[|arr| - 1]);
    }
  }

  lemma {:induction false} AddItemsUnique(byId: seq<Fav>, items: seq<Item>, stamp: string)
    requires UniqueIds(byId)
    ensures UniqueIds(AddItems(byId, items, stamp))
    decreases |items|
  {
    if |items| > 0 {
      AddItemsUnique(byId, items[..|items| - 1], stamp);
      var it := items[|items| - 1];
      if Valid(it) {
        UpsertUnique(AddItems(byId, items[..|items| - 1], stamp), EntryOf(it, stamp));
      }
    }
  }

  lemma MergedUnique(arr: seq<Fav>, items: seq<Item>, stamp: string)
    ensures UniqueIds(Merged(arr, items, stamp))
  {
    IndexedUnique(arr);
    AddItemsUnique(Indexed(arr), items, stamp);
  }

  /** Entries already in the map keep their positions and ids; new ids only
      ever go after them. */
  lemma {:induction false} AddItemsKeepsOrder(byId: seq<Fav>, items: seq<Item>, stamp: string)
    ensures |AddItems(byId, items, stamp)| >= |byId|
    ensures forall k :: 0 <= k < |byId| ==> AddItems(byId, items, stamp)[k].id == byId[k].id
    decreases |items|
  {
    if |items| > 0 {
      AddItemsKeepsOrder(byId, items[..|items| - 1], stamp);
    }
  }

  /** Items whose ids are new and distinct are appended after the existing
      entries, in input order. */
  lemma {:induction false} FreshItemsAppended(byId: seq<Fav>, items: seq<Item>, stamp: string)
    requires UniqueIds(byId + ValidEntries(items, stamp))
    ensures AddItems(byId, items, stamp) == byId + ValidEntries(items, stamp)
    decreases |items|
  {
    if |items| > 0 {
      var init := items[..|items| - 1];
      var it := items[|items| - 1];
      var prev := byId + ValidEntries(init, stamp);
      var added := if Valid(it) then [EntryOf(it, stamp)] else [];
      assert byId + ValidEntries(items, stamp) == prev + added;
      UniqueIdsPrefix(prev, added);
      FreshItemsAppended(byId, init, stamp);
      if Valid(it) {
        UpsertFresh(prev, EntryOf(it, stamp));
      }
    }
  }

  lemma UniqueIdsPrefix(xs: seq<Fav>, ys: seq<Fav>)
    requires UniqueIds(xs + ys)
    ensures UniqueIds(xs)
  {
    forall a, b | 0 <= a < b < |xs| ensures xs[a].id != xs[b].id {
      assert (xs + ys)[a] == xs[a] && (xs + ys)[b] == xs[b];
    }
  }

  /** Upserting an entry whose id is new appends it. */
  lemma UpsertFresh(xs: seq<Fav>, f: Fav)
    requires UniqueIds(xs + [f])
    ensures Upsert(xs, f) == xs + [f]
  {
    forall j | 0 <= j < |xs| ensures xs[j].id != f.id {
      assert (xs + [f])[j] == xs[j] && (xs + [f])[|xs|] == f;
    }
  }

  /** The entries of the valid items, in order. */
  function ValidEntries(items: seq<Item>, stamp: string): seq<Fav>
    decreases |items|
  {
    if |items| == 0 then []
    else
      var it := items[|items| - 1];
      ValidEntries(items[..|items| - 1], stamp) + (if Valid(it) then [EntryOf(it, stamp)] else [])
  }

  /** Every entry of the result is an old entry or the entry of a valid
      item; an item with a blank id or path never contributes. */
  lemma {:induction false} AddItemsSources(byId: seq<Fav>, items: seq<Item>, stamp: string)
    ensures forall e :: e in AddItems(byId, items, stamp) ==> e in byId || e in ValidEntries(items, stamp)
    decreases |items|
  {
    if |items| > 0 {
      var init := items[..|items| - 1];
      var it := items[|items| - 1];
      AddItemsSources(byId, init, stamp);
      if Valid(it) {
        UpsertSources(AddItems(byId, init, stamp), EntryOf(it, stamp));
      }
    }
  }

  /** The entry of every valid item is among the valid entries. */
  lemma {:induction false} ValidEntriesHas(items: seq<Item>, stamp: string, j: nat)
    requires j < |items| && Valid(items[j])
    ensures EntryOf(items[j], stamp) in ValidEntries(items, stamp)
    decreases |items|
  {
    var init := items[..|items| - 1];
    if j < |init| {
      assert init[j] == items[j];
      ValidEntriesHas(init, stamp, j);
      ValidEntriesGrow(items, stamp, EntryOf(items[j], stamp));
    } else {
      assert j == |items| - 1;
      ValidEntriesLast(items, stamp);
    }
  }

  /** The last item's entry is among the valid entries when it is valid. */
  lemma ValidEntriesLast(items: seq<Item>, stamp: string)
    requires |items| > 0 && Valid(items[|items| - 1])
    ensures EntryOf(items[|items| - 1], stamp) in ValidEntries(items, stamp)
  {
  }

  /** Appending an item keeps every valid entry of the items before it. */
  lemma ValidEntriesGrow(items: seq<Item>, stamp: string, e: Fav)
    requires |items| > 0 && e in ValidEntries(items[..|items| - 1], stamp)
    ensures e in ValidEntries(items, stamp)
  {
  }

  /** Every valid entry is the entry of a valid item: the one at `j`. */
  lemma {:induction false} ValidEntriesFrom(items: seq<Item>, stamp: string, e: Fav) returns (j: nat)
    requires e in ValidEntries(items, stamp)
    ensures j < |items| && Valid(items[j]) && e == EntryOf(items[j], stamp)
    decreases |items|
  {
    var init := items[..|items| - 1];
    if e in ValidEntries(init, stamp) {
      j := ValidEntriesFrom(init, stamp, e);
      assert items[j] == init[j];
    } else {
      j := |items| - 1;
    }
  }

  /** An upsert adds only its own entry. */
  lemma UpsertSources(xs: seq<Fav>, f: Fav)
    ensures forall e :: e in Upsert(xs, f) ==> e in xs || e == f
  {
    var k := IdIndex(xs, f.id);
    forall e | e in Upsert(xs, f) ensures e in xs || e == f {
      var i :| 0 <= i < |Upsert(xs, f)| && Upsert(xs, f)[i] == e;
      if i < |xs| && i != k {
        assert xs[i] == e;
      }
    }
  }

  /** Upserting a list of entries in order. */
  function UpsertAll(byId: seq<Fav>, es: seq<Fav>): seq<Fav>
    decreases |es|
  {
    if |es| == 0 then byId else Upsert(UpsertAll(byId, es[..|es| - 1]), es[|es| - 1])
  }

  /** The item loop upserts the entries of the valid items, in order. */
  lemma {:induction false} AddItemsUpserts(byId: seq<Fav>, items: seq<Item>, stamp: string)
    ensures AddItems(byId, items, stamp) == UpsertAll(byId, ValidEntries(items, stamp))
    decreases |items|
  {
    if |items| > 0 {
      var init := items[..|items| - 1];
      var it := items[|items| - 1];
      AddItemsUpserts(byId, init, stamp);
      var es := ValidEntries(init, stamp);
      var prev := AddItems(byId, init, stamp);
      assert prev == UpsertAll(byId, es);
      if Valid(it) {
        var f := EntryOf(it, stamp);
        assert AddItems(byId, items, stamp) == Upsert(prev, f);
        assert ValidEntries(items, stamp) == es + [f];
        assert (es + [f])[..|es|] == es;
        assert UpsertAll(byId, es + [f]) == Upsert(UpsertAll(byId, es), f);
      } else {
        assert AddItems(byId, items, stamp) == prev;
        assert ValidEntries(items, stamp) == es;
      }
    }
  }

  /** An entry that no later entry shares an id with ends up in the list. */
  lemma {:induction false} LastEntryWins(byId: seq<Fav>, es: seq<Fav>, j: nat)
    requires j < |es|
    requires forall k :: j < k < |es| ==> es[k].id != es[j].id
    ensures es[j] in UpsertAll(byId, es)
    decreases |es|
  {
    var last := |es| - 1;
    var init := es[..last];
    var prev := UpsertAll(byId, init);
    assert UpsertAll(byId, es) == Upsert(prev, es[last]);
    if j == last {
      UpsertHas(prev, es[last]);
    } else {
      assert es[j] in prev by {
        assert init[j] == es[j];
        assert forall k :: j < k < |init| ==> init[k].id != init[j].id by {
          forall k | j < k < |init| ensures init[k].id != init[j].id {
            assert init[k] == es[k];
          }
        }
        LastEntryWins(byId, init, j);
      }
      assert es[last].id != es[j].id;
      UpsertKeeps(prev, es[last], es[j]);
    }
  }

  /** A re-added id takes the content of its last valid item: the entry of
      a valid item that no later valid item shares an id with is stored. */
  lemma LastItemWins(byId: seq<Fav>, items: seq<Item>, stamp: string, j: nat)
    requires j < |ValidEntries(items, stamp)|
    requires forall k :: j < k < |ValidEntries(items, stamp)| ==> ValidEntries(items, stamp)[k].id != ValidEntries(items, stamp)[j].id
    ensures ValidEntries(items, stamp)[j] in AddItems(byId, items, stamp)
  {
    AddItemsUpserts(byId, items, stamp);
    LastEntryWins(byId, ValidEntries(items, stamp), j);
  }

  lemma UpsertHas(xs: seq<Fav>, f: Fav)
    ensures f in Upsert(xs, f)
  {
    var k := IdIndex(xs, f.id);
    if k < |xs| {
      assert Upsert(xs, f)[k] == f;
    } else {
      assert Upsert(xs, f)[|xs|] == f;
    }
  }

  // -------------------------------------------------------------- remove

  /** `remove` keeps exactly the entries with another id. */
  lemma {:induction false} WithoutExactly(xs: seq<Fav>, id: string)
    ensures forall e :: e in Without(xs, id) <==> e in xs && e.id != id
    ensures |Without(xs, id)| <= |xs|
    decreases |xs|
  {
    if |xs| > 0 {
      WithoutExactly(xs[1..], id);
      assert xs == [xs[0]] + xs[1..];
    }
  }

  /** Filtering distributes over concatenation, so the kept entries stay in
      their original order. */
  lemma {:induction false} WithoutAppend(xs: seq<Fav>, ys: seq<Fav>, id: string)
    ensures Without(xs + ys, id) == Without(xs, id) + Without(ys, id)
    decreases |xs|
  {
    if |xs| > 0 {
      WithoutAppend(xs[1..], ys, id);
      assert (xs + ys)[1..] == xs[1..] + ys;
    } else {
      assert xs + ys == ys;
    }
  }

  /** With unique ids, `remove` drops one entry when the id is present and
      none otherwise. */
  lemma {:induction false} WithoutCount(xs: seq<Fav>, id: string)
    requires UniqueIds(xs)
    ensures |Without(xs, id)| == |xs| - (if HasId(xs, id) then 1 else 0)
    decreases |xs|
  {
    if |xs| > 0 {
      var rest := xs[1..];
      assert UniqueIds(rest);
      WithoutCount(rest, id);
      if xs[0].id == id {
        assert !HasId(rest, id) by {
          forall k | 0 <= k < |rest| ensures rest[k].id != id {
            assert xs[k + 1] == rest[k];
          }
        }
      } else {
        assert HasId(xs, id) <==> HasId(rest, id) by {
          if HasId(xs, id) {
            var k :| 0 <= k < |xs| && xs[k].id == id;
            assert rest[k - 1] == xs[k];
          }
          if HasId(rest, id) {
            var k :| 0 <= k < |rest| && rest[k].id == id;
            assert xs[k + 1] == rest[k];
          }
        }
      }
    }
  }

  // --------------------------------------------------------------- store

  class FavStore {
    /** The parsed contents of `pixiv-favs.json`. */
    var data: map<string, Value>

    constructor (initial: map<string, Value>)
      ensures data == initial
    {
      data := initial;
    }

    /** `list(contextKey)`: the stored list, or none when the key is absent
        or holds something other than an array. */
    method List(key: string) returns (r: seq<Fav>)
      ensures key !in data || data[key].NotArray? ==> r == []
      ensures key in data && data[key].Favs? ==> r == data[key].entries
    {
      r := Stored(data, key);
    }

    /** `addMany(contextKey, items)`, every new entry stamped `stamp`. */
    method AddMany(key: string, items: seq<Item>, stamp: string) returns (count: nat)
      modifies this
      ensures data == old(data)[key := Favs(Merged(Stored(old(data), key), items, stamp))]
      ensures count == |Merged(Stored(old(data), key), items, stamp)|
    {
      var arr := Stored(data, key);
      var byId: seq<Fav> := [];
      var i := 0;
      while i < |arr|
        invariant 0 <= i <= |arr|
        invariant byId == Indexed(arr[..i])
      {
        assert arr[..i + 1][..i] == arr[..i];
        byId := Upsert(byId, arr[i]);
        i := i + 1;
      }
      assert arr[..|arr|] == arr;
      i := 0;
      while i < |items|
        invariant 0 <= i <= |items|
        invariant byId == AddItems(Indexed(arr), items[..i], stamp)
      {
        assert items[..i + 1][..i] == items[..i];
        var id := Trim(items[i].id);
        var imagePath := Trim(items[i].imagePath);
        if id != "" && imagePath != "" {
          byId := Upsert(byId, Fav(id, imagePath, stamp));
        }
        i := i + 1;
      }
      assert items[..|items|] == items;
      data := data[key := Favs(byId)];
      count := |byId|;
    }

    /** `remove(contextKey, id)`; the key is written even when it held
        nothing. */
    method Remove(key: string, id: string) returns (count: nat)
      modifies this
      ensures data == old(data)[key := Favs(Without(Stored(old(data), key), id))]
      ensures count == |Without(Stored(old(data), key), id)|
    {
      var arr := Stored(data, key);
      var kept := Without(arr, id);
      data := data[key := Favs(kept)];
      count := |kept|;
    }
  }
}
