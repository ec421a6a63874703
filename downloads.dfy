/**
 * The catalog of src/storage/downloads.ts over the KV namespace (the same
 * functions appear in src/worker.js): one JSON record per item, a
 * filename-to-id mapping for files, and an index of ids, newest first.
 */
module Downloads {
  import opened Wrappers
  import opened JsString
  import opened KvStore
  import opened DownloadTypes
  import opened Constants

  const SeededKey: string := "seeded"

  function ItemKey(id: string): string {
    "downloads:item:" + id
  }

  function FilenameKey(filename: string): string {
    "downloads:filename:" + filename
  }

  /** The item keys, the filename keys, the index key and the seed flag
      never collide. */
  lemma CatalogKeysDistinct(id: string, filename: string)
    ensures ItemKey(id) != DownloadIndexKey && FilenameKey(filename) != DownloadIndexKey
    ensures ItemKey(id) != FilenameKey(filename)
    ensures ItemKey(id) != SeededKey && FilenameKey(filename) != SeededKey && DownloadIndexKey != SeededKey
  {
    assert ItemKey(id)[11] == 't' && DownloadIndexKey[11] == 'n';
    assert FilenameKey(filename)[10] == 'f' && ItemKey(id)[10] == 'i' && DownloadIndexKey[10] == 'i';
    assert ItemKey(id)[0] == 'd' && FilenameKey(filename)[0] == 'd' && SeededKey[0] == 's';
  }

  /** `getDownloadIndex`: the stored array, `[]` when the value is not one. */
  function DownloadIndexIn(m: Store): seq<string> {
    JsonIds(Lookup(m, DownloadIndexKey))
  }

  /** `getItemById`. */
  function ItemByIdIn(m: Store, id: string): Option<Item> {
    JsonItem(Lookup(m, ItemKey(id)))
  }

  /** `getItemByFilename`: null unless the filename maps to a non-empty id,
      and then the item stored under that id. */
  function ItemByFilenameIn(m: Store, filename: string): (r: Option<Item>)
    ensures FilenameKey(filename) !in m ==> r.None?
    ensures r.Some? ==> m[FilenameKey(filename)].value.Text? && m[FilenameKey(filename)].value.text != ""
    ensures r.Some? ==> r == ItemByIdIn(m, m[FilenameKey(filename)].value.text)
    ensures FilenameKey(filename) in m && (!m[FilenameKey(filename)].value.Text? || m[FilenameKey(filename)].value.text == "") ==> r.None?
    ensures FilenameKey(filename) in m && m[FilenameKey(filename)].value.Text? && m[FilenameKey(filename)].value.text != "" ==>
      r == ItemByIdIn(m, m[FilenameKey(filename)].value.text)
  {
    match Lookup(m, FilenameKey(filename))
    case Some(Text(id)) => if id == "" then None else ItemByIdIn(m, id)
    case _ => None
  }

  /** `ids.filter((entryId) => entryId !== x)`. */
  function Without(ids: seq<string>, x: string): (r: seq<string>)
    ensures x !in r
    ensures forall y :: y in r <==> y in ids && y != x
    ensures |r| <= |ids|
  {
    if ids == [] then [] else (if ids[0] == x then [] else [ids[0]]) + Without(ids[1..], x)
  }

  /** Filtering keeps the order: it distributes over concatenation. */
  lemma {:induction false} WithoutAppend(a: seq<string>, b: seq<string>, x: string)
    ensures Without(a + b, x) == Without(a, x) + Without(b, x)
  {
    if a == [] {
      assert a + b == b;
    } else {
      assert (a + b)[1..] == a[1..] + b;
      WithoutAppend(a[1..], b, x);
    }
  }

  /** Filtering out an id that is not there changes nothing. */
  lemma {:induction false} WithoutAbsent(ids: seq<string>, x: string)
    requires x !in ids
    ensures Without(ids, x) == ids
  {
    if ids != [] {
      WithoutAbsent(ids[1..], x);
      assert [ids[0]] + ids[1..] == ids;
    }
  }

  /** `insertItem` writes the filename mapping only for a file with a truthy filename. */
  predicate MapsFilename(item: Item) {
    item.kind == "file" && Truthy(item.filename)
  }

  /** The store after `insertItem(env, item)`. */
  function Inserted(m: Store, item: Item): (r: Store)
    ensures forall k :: k in r <==>
      k in m || k == ItemKey(item.id) || k == DownloadIndexKey || (MapsFilename(item) && k == FilenameKey(item.filename.value))
  {
    var m1 := m[ItemKey(item.id) := Entry(Record(item), None)];
    var m2 := if MapsFilename(item) then m1[FilenameKey(item.filename.value) := Entry(Text(item.id), None)] else m1;
    m2[DownloadIndexKey := Entry(IdList([item.id] + Without(DownloadIndexIn(m2), item.id)), None)]
  }

  /** The record that decides which filename mapping `deleteItem` removes:
      the one given, or else the stored one. */
  function DeletedRecord(m: Store, id: string, given: Option<Item>): Option<Item> {
    if given.Some? then given else ItemByIdIn(m, id)
  }

  /** The store after `deleteItem(env, id, given)`: the given record, or
      else the stored one, decides which filename mapping goes. */
  function Deleted(m: Store, id: string, given: Option<Item>): (r: Store)
    ensures forall k :: k in r ==> k in m || k == DownloadIndexKey
    ensures DownloadIndexKey in r
  {
    var existing := DeletedRecord(m, id, given);
    var m1 := if existing.Some? && MapsFilename(existing.value) then m - {FilenameKey(existing.value.filename.value)} else m;
    var m2 := m1 - {ItemKey(id)};
    m2[DownloadIndexKey := Entry(IdList(Without(DownloadIndexIn(m2), id)), None)]
  }

  method GetItemById(kv: Kv, id: string) returns (item: Option<Item>)
    ensures item == ItemByIdIn(kv.entries, id)
  {
    var stored := kv.Get(ItemKey(id));
    item := JsonItem(stored);
  }

  method GetItemByFilename(kv: Kv, filename: string) returns (item: Option<Item>)
    ensures item == ItemByFilenameIn(kv.entries, filename)
  {
    var stored := kv.Get(FilenameKey(filename));
    if stored.None? || !stored.value.Text? || stored.value.text == "" {
      return None;
    }
    item := GetItemById(kv, stored.value.text);
  }

  method InsertItem(kv: Kv, item: Item)
    modifies kv
    ensures kv.entries == Inserted(old(kv.entries), item)
  {
    kv.Put(ItemKey(item.id), Record(item), None);
    if item.kind == "file" && Truthy(item.filename) {
      kv.Put(FilenameKey(item.filename.value), Text(item.id), None);
    }
    var stored := kv.Get(DownloadIndexKey);
    var index := JsonIds(stored);
    kv.Put(DownloadIndexKey, IdList([item.id] + Without(index, item.id)), None);
  }

  method DeleteItem(kv: Kv, id: string, given: Option<Item>)
    modifies kv
    ensures kv.entries == Deleted(old(kv.entries), id, given)
  {
    var existing := given;
    if existing.None? {
      var stored := kv.Get(ItemKey(id));
      existing := JsonItem(stored);
    }
    if existing.Some? && existing.value.kind == "file" && Truthy(existing.value.filename) {
      kv.Delete(FilenameKey(existing.value.filename.value));
    }
    kv.Delete(ItemKey(id));
    var stored := kv.Get(DownloadIndexKey);
    var index := JsonIds(stored);
    kv.Put(DownloadIndexKey, IdList(Without(index, id)), None);
  }

  /** Insertion moves the id to the front and keeps the other ids in order. */
  lemma InsertedIndex(m: Store, item: Item)
    ensures DownloadIndexIn(Inserted(m, item)) == [item.id] + Without(DownloadIndexIn(m), item.id)
    ensures var ids := DownloadIndexIn(Inserted(m, item)); |ids| > 0 && ids[0] == item.id && item.id !in ids[1..]
  {
    CatalogKeysDistinct(item.id, item.filename.GetOr(""));
  }

  /** After insertion the item is found by its id, and a file by its filename. */
  lemma InsertedIsFound(m: Store, item: Item)
    ensures ItemByIdIn(Inserted(m, item), item.id) == Some(item)
    ensures MapsFilename(item) && item.id != "" ==> ItemByFilenameIn(Inserted(m, item), item.filename.value) == Some(item)
  {
    CatalogKeysDistinct(item.id, item.filename.GetOr(""));
  }

  /** Insertion and deletion touch only the keys of the catalog. */
  lemma CatalogKeysOnly(m: Store, item: Item, id: string, given: Option<Item>, k: string)
    requires |k| < 10 || k[..10] != "downloads:"
    ensures Lookup(Inserted(m, item), k) == Lookup(m, k)
    ensures Lookup(Deleted(m, id, given), k) == Lookup(m, k)
  {
    assert ItemKey(item.id)[..10] == "downloads:" && ItemKey(id)[..10] == "downloads:";
    assert DownloadIndexKey[..10] == "downloads:";
    assert forall f :: FilenameKey(f)[..10] == "downloads:";
  }

  /** A newly inserted item heads the listing, followed by the records of
      the other ids in their old order. */
  lemma InsertedListedFirst(m: Store, item: Item)
    ensures AllItemsIn(Inserted(m, item)) == [item] + PresentItems(Inserted(m, item), Without(DownloadIndexIn(m), item.id))
  {
    var m1 := Inserted(m, item);
    InsertedIndex(m, item);
    InsertedIsFound(m, item);
    PresentItemsAppend(m1, [item.id], Without(DownloadIndexIn(m), item.id));
    assert PresentItems(m1, [item.id]) == PresentItems(m1, []) + [item];
  }

  /** A link, or a file without a filename, leaves every filename mapping as it was. */
  lemma InsertedLinkKeepsFilenames(m: Store, item: Item, filename: string)
    requires !MapsFilename(item)
    ensures Lookup(Inserted(m, item), FilenameKey(filename)) == Lookup(m, FilenameKey(filename))
  {
    CatalogKeysDistinct(item.id, filename);
  }

  /** Deletion removes every occurrence of the id, the record and the
      filename mapping, and keeps the other ids in order. */
  lemma DeletedRemoves(m: Store, id: string, given: Option<Item>)
    ensures DownloadIndexIn(Deleted(m, id, given)) == Without(DownloadIndexIn(m), id)
    ensures id !in DownloadIndexIn(Deleted(m, id, given))
    ensures ItemByIdIn(Deleted(m, id, given), id).None?
    ensures given.Some? && MapsFilename(given.value) ==> FilenameKey(given.value.filename.value) !in Deleted(m, id, given)
  {
    var existing := if given.Some? then given else ItemByIdIn(m, id);
    CatalogKeysDistinct(id, if existing.Some? then existing.value.filename.GetOr("") else "");
  }

  /** Inserting an item that was not in the catalog and deleting it again
      gives back the store exactly. */
  lemma InsertThenDeleteRestores(m: Store, item: Item, ids: seq<string>)
    requires DownloadIndexKey in m && m[DownloadIndexKey] == Entry(IdList(ids), None)
    requires item.id !in ids && ItemKey(item.id) !in m
    requires MapsFilename(item) ==> FilenameKey(item.filename.value) !in m
    ensures Deleted(Inserted(m, item), item.id, Some(item)) == m
  {
    CatalogKeysDistinct(item.id, item.filename.GetOr(""));
    WithoutAbsent(ids, item.id);
    var m1 := Inserted(m, item);
    assert DownloadIndexIn(m1) == [item.id] + ids;
    assert Without([item.id] + ids, item.id) == ids by {
      WithoutAppend([item.id], ids, item.id);
    }
    var r := Deleted(m1, item.id, Some(item));
    var m2 := if MapsFilename(item) then m1 - {FilenameKey(item.filename.value)} else m1;
    var m3 := m2 - {ItemKey(item.id)};
    assert DownloadIndexIn(m3) == [item.id] + ids;
    assert r == m3[DownloadIndexKey := Entry(IdList(ids), None)];
    assert r.Keys == m.Keys;
    forall k | k in r
      ensures r[k] == m[k]
    {
    }
  }

  // ---------------------------------------------------------------------
  // Listing

  /** The records of `ids` that exist, in the order of `ids`. */
  function PresentItems(m: Store, ids: seq<string>): (r: seq<Item>)
    ensures |r| <= |ids|
  {
    if ids == [] then []
    else
      var last := ItemByIdIn(m, ids[|ids| - 1]);
      PresentItems(m, ids[..|ids| - 1]) + (if last.Some? then [last.value] else [])
  }

  /** What `getAllItems` returns. */
  function AllItemsIn(m: Store): (r: seq<Item>)
    ensures |r| <= |DownloadIndexIn(m)|
  {
    PresentItems(m, DownloadIndexIn(m))
  }

  lemma {:induction false} PresentItemsAppend(m: Store, a: seq<string>, b: seq<string>)
    ensures PresentItems(m, a + b) == PresentItems(m, a) + PresentItems(m, b)
    decreases |b|
  {
    if b == [] {
      assert a + b == a;
    } else {
      assert (a + b)[..|a + b| - 1] == a + b[..|b| - 1];
      PresentItemsAppend(m, a, b[..|b| - 1]);
    }
  }

  /** When every id has a record, the listing is those records, one per id. */
  lemma {:induction false} PresentItemsAllPresent(m: Store, ids: seq<string>)
    requires forall k :: 0 <= k < |ids| ==> ItemByIdIn(m, ids[k]).Some?
    ensures |PresentItems(m, ids)| == |ids|
    ensures forall k :: 0 <= k < |ids| ==> PresentItems(m, ids)[k] == ItemByIdIn(m, ids[k]).value
  {
    if ids != [] {
      PresentItemsAllPresent(m, ids[..|ids| - 1]);
    }
  }

  /** Every listed record exists under the key of an id of the index. */
  lemma {:induction false} PresentItemsAreStored(m: Store, ids: seq<string>)
    ensures forall it :: it in PresentItems(m, ids) ==> exists id :: id in ids && ItemByIdIn(m, id) == Some(it)
  {
    if ids != [] {
      var init, last := ids[..|ids| - 1], ids[|ids| - 1];
      PresentItemsAreStored(m, init);
      forall it | it in PresentItems(m, ids)
        ensures exists id :: id in ids && ItemByIdIn(m, id) == Some(it)
      {
        if it in PresentItems(m, init) {
          var id :| id in init && ItemByIdIn(m, id) == Some(it);
          assert id in ids;
        } else {
          assert ItemByIdIn(m, last) == Some(it);
        }
      }
    }
  }

  function Min(a: int, b: int): int {
    if a <= b then a else b
  }

  /** `getAllItems`: the index read in batches of 100 keys. */
  method GetAllItems(kv: Kv) returns (items: seq<Item>)
    ensures items == AllItemsIn(kv.entries)
  {
    var stored := kv.Get(DownloadIndexKey);
    var index := JsonIds(stored);
    if |index| == 0 {
      return [];
    }
    ghost var m := kv.entries;
    items := [];
    var i := 0;
    while i < |index|
      invariant 0 <= i
      invariant items == PresentItems(m, index[..Min(i, |index|)])
      decreases |index| - i
    {
      var end := Min(i + 100, |index|);
      var batch := index[i..end];
      var keys := seq(|batch|, k requires 0 <= k < |batch| => ItemKey(batch[k]));
      var results := kv.GetBatch(keys);
      for j := 0 to |batch|
        invariant items == PresentItems(m, index[..i]) + PresentItems(m, batch[..j])
      {
        var key := ItemKey(batch[j]);
        assert key == keys[j];
        var item := JsonItem(results[key]);
        if item.Some? {
          items := items + [item.value];
        }
        assert batch[..j + 1][..j] == batch[..j];
      }
      assert batch[..|batch|] == batch;
      assert index[..i] + batch == index[..end];
      PresentItemsAppend(m, index[..i], batch);
      i := i + 100;
    }
    assert index[..|index|] == index;
  }

  // ---------------------------------------------------------------------
  // Seeding

  /** The two values `ensureSeeded` draws for each default: `createId()`
      and `new Date().toISOString()`. */
  datatype Fresh = Fresh(id: string, createdAt: string)

  function DefaultItem(d: DefaultDownload, f: Fresh): Item {
    Item(f.id, "file", d.name, Some(d.filename), Some(d.originalName), Some(d.storage), None, None,
         d.description, d.badge, d.version, d.arch, f.createdAt)
  }

  function DefaultItems(draws: seq<Fresh>): (items: seq<Item>)
    requires |draws| == |DefaultDownloads|
    ensures |items| == |DefaultDownloads|
  {
    seq(|DefaultDownloads|, k requires 0 <= k < |DefaultDownloads| => DefaultItem(DefaultDownloads[k], draws[k]))
  }

  /** The store after inserting `items` one after the other. */
  function InsertedAll(m: Store, items: seq<Item>): Store {
    if items == [] then m else Inserted(InsertedAll(m, items[..|items| - 1]), items[|items| - 1])
  }

  /** The store after `ensureSeeded(env)`. */
  function Seeded(m: Store, draws: seq<Fresh>): (r: Store)
    requires |draws| == |DefaultDownloads|
    ensures TextTruthy(Lookup(r, SeededKey))
    ensures TextTruthy(Lookup(m, SeededKey)) ==> r == m
  {
    if TextTruthy(Lookup(m, SeededKey)) then m
    else
      var m1 := if |DownloadIndexIn(m)| == 0 then InsertedAll(m, DefaultItems(draws)) else m;
      m1[SeededKey := Entry(Text("1"), None)]
  }

  method EnsureSeeded(kv: Kv, draws: seq<Fresh>)
    requires |draws| == |DefaultDownloads|
    modifies kv
    ensures kv.entries == Seeded(old(kv.entries), draws)
  {
    var seeded := kv.Get(SeededKey);
    if TextTruthy(seeded) {
      return;
    }
    var stored := kv.Get(DownloadIndexKey);
    var index := JsonIds(stored);
    if |index| == 0 {
      ghost var m0 := kv.entries;
      ghost var all := DefaultItems(draws);
      for k := 0 to |DefaultDownloads|
        invariant kv.entries == InsertedAll(m0, all[..k])
      {
        var d := DefaultDownloads[k];
        InsertItem(kv, DefaultItem(d, draws[k]));
        assert all[..k + 1][..k] == all[..k];
      }
      assert all[..|DefaultDownloads|] == all;
    }
    kv.Put(SeededKey, Text("1"), None);
  }

  /** Once seeded, seeding again changes nothing, whatever draws values it draws. */
  lemma SeededIdempotent(m: Store, f1: seq<Fresh>, f2: seq<Fresh>)
    requires |f1| == |DefaultDownloads| && |f2| == |DefaultDownloads|
    ensures TextTruthy(Lookup(Seeded(m, f1), SeededKey))
    ensures Seeded(Seeded(m, f1), f2) == Seeded(m, f1)
  {
  }

  /** A catalog that already lists ids only gets the flag. */
  lemma SeedingKeepsNonEmptyCatalog(m: Store, draws: seq<Fresh>)
    requires |draws| == |DefaultDownloads|
    requires DownloadIndexIn(m) != []
    ensures Seeded(m, draws) == if TextTruthy(Lookup(m, SeededKey)) then m else m[SeededKey := Entry(Text("1"), None)]
  {
  }

  lemma ItemKeyInjective(a: string, b: string)
    requires ItemKey(a) == ItemKey(b)
    ensures a == b
  {
    assert a == ItemKey(a)[15..];
    assert b == ItemKey(b)[15..];
  }

  /** Inserting one item leaves the record of every other id as it was. */
  lemma InsertedKeepsOtherItems(m: Store, item: Item, id: string)
    requires id != item.id
    ensures ItemByIdIn(Inserted(m, item), id) == ItemByIdIn(m, id)
  {
    CatalogKeysDistinct(id, item.filename.GetOr(""));
    if ItemKey(id) == ItemKey(item.id) {
      ItemKeyInjective(id, item.id);
    }
  }

  /** An insert writes the item key, the index and, for a file with a
      filename, that filename's mapping; every other key keeps its value. */
  lemma InsertedKeepsOthers(m: Store, item: Item, k: string)
    requires k != ItemKey(item.id) && k != DownloadIndexKey
    requires MapsFilename(item) ==> k != FilenameKey(item.filename.value)
    ensures Lookup(Inserted(m, item), k) == Lookup(m, k)
  {
  }

  /** A delete writes the item key, the index and the mapping of the
      deciding record's filename; every other key keeps its value. */
  lemma DeletedKeepsOthers(m: Store, id: string, given: Option<Item>, k: string)
    requires k != ItemKey(id) && k != DownloadIndexKey
    requires var e := DeletedRecord(m, id, given);
      e.Some? && MapsFilename(e.value) ==> k != FilenameKey(e.value.filename.value)
    ensures Lookup(Deleted(m, id, given), k) == Lookup(m, k)
  {
  }

  /** Deleting one id leaves every other id's record in place. */
  lemma DeletedKeepsOtherItems(m: Store, id: string, given: Option<Item>, other: string)
    requires other != id
    ensures ItemByIdIn(Deleted(m, id, given), other) == ItemByIdIn(m, other)
  {
    var e := DeletedRecord(m, id, given);
    CatalogKeysDistinct(other, if e.Some? then e.value.filename.GetOr("") else "");
    if ItemKey(other) == ItemKey(id) {
      ItemKeyInjective(other, id);
    }
    DeletedKeepsOthers(m, id, given, ItemKey(other));
  }

  lemma InsertedAllTwo(m: Store, a: Item, b: Item)
    ensures InsertedAll(m, [a, b]) == Inserted(Inserted(m, a), b)
  {
    assert [a, b][..1] == [a];
    assert [a][..0] == [];
    assert InsertedAll(m, [a]) == Inserted(InsertedAll(m, []), a);
    assert InsertedAll(m, [a, b]) == Inserted(InsertedAll(m, [a]), b);
  }

  /** An unseeded empty catalog gets both defaults, the last one first. */
  lemma SeedingEmptyCatalog(m: Store, draws: seq<Fresh>)
    requires |draws| == |DefaultDownloads|
    requires !TextTruthy(Lookup(m, SeededKey)) && DownloadIndexIn(m) == []
    requires draws[0].id != draws[1].id
    ensures DownloadIndexIn(Seeded(m, draws)) == [draws[1].id, draws[0].id]
    ensures ItemByIdIn(Seeded(m, draws), draws[0].id) == Some(DefaultItem(DefaultDownloads[0], draws[0]))
    ensures ItemByIdIn(Seeded(m, draws), draws[1].id) == Some(DefaultItem(DefaultDownloads[1], draws[1]))
  {
    var a0 := DefaultItem(DefaultDownloads[0], draws[0]);
    var a1 := DefaultItem(DefaultDownloads[1], draws[1]);
    assert DefaultItems(draws) == [a0, a1];
    InsertedAllTwo(m, a0, a1);
    var m1 := Inserted(m, a0);
    var m2 := Inserted(m1, a1);
    assert Seeded(m, draws) == m2[SeededKey := Entry(Text("1"), None)];
    InsertedIndex(m, a0);
    InsertedIndex(m1, a1);
    assert Without([draws[0].id], draws[1].id) == [draws[0].id];
    assert DownloadIndexIn(m2) == [draws[1].id, draws[0].id];
    InsertedIsFound(m, a0);
    InsertedIsFound(m1, a1);
    InsertedKeepsOtherItems(m1, a1, draws[0].id);
    CatalogKeysDistinct(draws[0].id, "");
    CatalogKeysDistinct(draws[1].id, "");
  }
}
