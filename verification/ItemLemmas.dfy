/** Facts about metadata lists: ids, filtering, appending, maxima, and the JSON round trip. */
module ItemLemmas {
  import opened Options
  import opened JsonValues
  import opened Binary64
  import opened TableMetadata

  lemma HasKeyGrows<K, D>(items: seq<Item<K, D>>, x: Item<K, D>, key: K)
    ensures HasKey(items + [x], key) <==> HasKey(items, key) || x.Key() == Some(key)
  {
    if HasKey(items, key) {
      var i :| 0 <= i < |items| && items[i].Key() == Some(key);
      assert (items + [x])[i] == items[i];
    }
    if x.Key() == Some(key) { assert (items + [x])[|items|] == x; }
  }

  lemma UniqueGrows<K(!new), D(!new)>(items: seq<Item<K, D>>, x: Item<K, D>)
    requires UniqueKeys(items) && (x.Key().Some? ==> !HasKey(items, x.Key().value))
    ensures UniqueKeys(items + [x])
  {
  }

  /** Filtering by id removes exactly the ids asked for. */
  lemma {:induction false} WithoutKeys<K, D>(items: seq<Item<K, D>>, gone: set<K>, key: K)
    ensures HasKey(Without(items, gone), key) <==> HasKey(items, key) && key !in gone
  {
    if items != [] {
      var init, last := items[..|items| - 1], items[|items| - 1];
      WithoutKeys(init, gone, key);
      HasKeyGrows(init, last, key);
      HasKeyGrows(Without(init, gone), last, key);
      assert items == init + [last];
    }
  }

  lemma {:induction false} WithoutUnique<K(!new), D(!new)>(items: seq<Item<K, D>>, gone: set<K>)
    requires UniqueKeys(items)
    ensures UniqueKeys(Without(items, gone))
  {
    if items != [] {
      var init, last := items[..|items| - 1], items[|items| - 1];
      WithoutUnique(init, gone);
      if last.Key().Some? {
        WithoutKeys(init, gone, last.Key().value);
      }
      UniqueGrows(Without(init, gone), last);
    }
  }

  lemma {:induction false} WithoutMembers<K, D>(items: seq<Item<K, D>>, gone: set<K>, x: Item<K, D>)
    ensures x in Without(items, gone) <==> x in items && !(x.Key().Some? && x.Key().value in gone)
  {
    if items != [] {
      var init, last := items[..|items| - 1], items[|items| - 1];
      WithoutMembers(init, gone, x);
      assert items == init + [last];
    }
  }

  lemma {:induction false} WithoutConcat<K, D>(items: seq<Item<K, D>>, more: seq<Item<K, D>>, gone: set<K>)
    ensures Without(items + more, gone) == Without(items, gone) + Without(more, gone)
  {
    if more == [] {
      assert items + more == items;
    } else {
      var init := more[..|more| - 1];
      assert (items + more)[..|items + more| - 1] == items + init;
      WithoutConcat(items, init, gone);
    }
  }

  /** Two removals are one removal of the union, in the same order. */
  lemma {:induction false} WithoutTwice<K, D>(items: seq<Item<K, D>>, a: set<K>, b: set<K>)
    ensures Without(Without(items, a), b) == Without(items, a + b)
  {
    if items != [] {
      var init, last := items[..|items| - 1], items[|items| - 1];
      WithoutTwice(init, a, b);
      WithoutConcat(Without(init, a), [last], b);
    }
  }

  lemma {:induction false} WithoutNothing<K, D>(items: seq<Item<K, D>>, gone: set<K>)
    requires forall key :: key in gone ==> !HasKey(items, key)
    ensures Without(items, gone) == items
  {
    if items != [] {
      var init, last := items[..|items| - 1], items[|items| - 1];
      assert items == init + [last];
      forall key | key in gone ensures !HasKey(init, key) { HasKeyGrows(init, last, key); }
      if last.Key().Some? { HasKeyGrows(init, last, last.Key().value); }
      WithoutNothing(init, gone);
    }
  }

  /** The maximum bounds every id, so the next integer is fresh. */
  lemma {:induction false} MaxKeyBounds<D>(items: seq<Item<int, D>>, key: int)
    ensures MaxKey(items) >= 0
    ensures HasKey(items, key) ==> key <= MaxKey(items)
    ensures MaxKey(items) == 0 || HasKey(items, MaxKey(items))
  {
    if items != [] {
      var init, last := items[..|items| - 1], items[|items| - 1];
      MaxKeyBounds(init, key);
      assert items == init + [last];
      HasKeyGrows(init, last, key);
      HasKeyGrows(init, last, MaxKey(items));
    }
  }

  lemma MaxKeyGrows<D>(items: seq<Item<int, D>>, x: Item<int, D>)
    ensures MaxKey(items + [x]) == if x.Key().Some? && x.Key().value > MaxKey(items) then x.Key().value else MaxKey(items)
  {
    assert (items + [x])[..|items + [x]| - 1] == items;
  }

  lemma {:induction false} MaxFieldIdBounds(ids: seq<Option<int>>, i: nat)
    requires i < |ids| && ids[i].Some?
    ensures ids[i].value <= MaxFieldId(ids)
  {
    if i < |ids| - 1 { MaxFieldIdBounds(ids[..|ids| - 1], i); }
  }

  // ---------------------------------------------------------------- the JSON round trip

  /** An integer the JSON round trip leaves alone. */
  predicate Exact(n: int) {
    ReadInt64(n) == n
  }

  lemma ReadIsExact(n: int)
    ensures Exact(ReadInt64(n))
  {
    ReadIsIdempotent(n);
  }

  lemma SmallIsExact(n: int)
    requires -TWO53 <= n <= TWO53
    ensures Exact(n)
  {
    SmallSurvives(n);
  }

  lemma NegativeStaysNegative(n: int)
    requires n < 0
    ensures ReadInt64(n) < 0
  {
    SmallSurvives(-1);
    RoundMono(n, -1);
  }

  ghost predicate KeysExact<D(!new)>(items: seq<Item<int, D>>) {
    forall i :: 0 <= i < |items| && items[i].Key().Some? ==> Exact(items[i].Key().value)
  }

  /** On exact ids the round trip keeps every id in place. */
  lemma ReloadListKeys<D(!new)>(s: Slot<seq<Item<int, D>>>, detail: D -> D)
    requires KeysExact(s.Or([]))
    ensures |ReloadList(s, detail).Or([])| == |s.Or([])|
    ensures forall i :: 0 <= i < |s.Or([])| ==> ReloadList(s, detail).Or([])[i].Key() == s.Or([])[i].Key()
    ensures KeysExact(ReloadList(s, detail).Or([]))
  {
  }

  lemma SameKeys<D(!new)>(a: seq<Item<int, D>>, b: seq<Item<int, D>>)
    requires |a| == |b| && forall i :: 0 <= i < |a| ==> a[i].Key() == b[i].Key()
    ensures forall key :: HasKey(a, key) <==> HasKey(b, key)
    ensures UniqueKeys(a) ==> UniqueKeys(b)
  {
    forall key ensures HasKey(a, key) <==> HasKey(b, key) {
      if HasKey(a, key) { var i :| 0 <= i < |a| && a[i].Key() == Some(key); assert b[i].Key() == Some(key); }
      if HasKey(b, key) { var i :| 0 <= i < |b| && b[i].Key() == Some(key); assert a[i].Key() == Some(key); }
    }
  }

  /** Text ids are read back as they are. */
  lemma ReloadTextKeys<D(!new)>(s: Slot<seq<Item<string, D>>>, detail: D -> D)
    requires UniqueKeys(s.Or([]))
    ensures UniqueKeys(ReloadItems(s, Same, detail).Or([]))
  {
    hide ReloadMembers, ReloadJson;
    var items, again := s.Or([]), ReloadItems(s, Same, detail).Or([]);
    assert forall i :: 0 <= i < |items| ==> again[i].Key() == items[i].Key();
  }

  /** Whatever the ids, a list of readings has exact ids, and exact ids are still present. */
  lemma ReloadListFinds<D(!new)>(s: Slot<seq<Item<int, D>>>, detail: D -> D, key: int)
    requires HasKey(s.Or([]), key) && Exact(key)
    ensures HasKey(ReloadList(s, detail).Or([]), key)
  {
    var i :| 0 <= i < |s.Or([])| && s.Or([])[i].Key() == Some(key);
    assert ReloadList(s, detail).Or([])[i].Key() == Some(key);
  }

  // ---------------------------------------------------------------- a second round trip changes nothing

  lemma {:induction false} ReloadJsonTwice(j: Json)
    ensures ReloadJson(ReloadJson(j)) == ReloadJson(j)
  {
    hide Round;
    match j {
      case Num(n) => DoublesAreFixed(n); DoublesAreFixed(Round(n));
      case Arr(items) =>
        forall i | 0 <= i < |items| ensures ReloadJson(ReloadJson(items[i])) == ReloadJson(items[i]) {
          ReloadJsonTwice(items[i]);
        }
        assert ReloadJson(ReloadJson(j)).items == ReloadJson(j).items;
      case Obj(members) =>
        forall k | k in members ensures ReloadJson(ReloadJson(members[k])) == ReloadJson(members[k]) {
          ReloadJsonTwice(members[k]);
        }
        assert ReloadJson(ReloadJson(j)).members == ReloadJson(j).members;
      case _ =>
    }
  }

  lemma ReloadMembersTwice(members: map<string, Json>)
    ensures ReloadMembers(ReloadMembers(members)) == ReloadMembers(members)
  {
    hide ReloadJson;
    forall k | k in members ensures ReloadJson(ReloadJson(members[k])) == ReloadJson(members[k]) {
      ReloadJsonTwice(members[k]);
    }
  }

  lemma ReloadForeignTwice<T>(s: Slot<T>)
    ensures ReloadForeign(ReloadForeign(s)) == ReloadForeign(s)
  {
    hide ReloadJson;
    if s.Foreign? { ReloadJsonTwice(s.raw); }
  }

  lemma ReloadItemTwice<K, D>(x: Item<K, D>, key: Option<K> -> Option<K>, detail: D -> D)
    requires forall k: Option<K> :: key(key(k)) == key(k)
    requires forall d: D :: detail(detail(d)) == detail(d)
    ensures ReloadItem(ReloadItem(x, key, detail), key, detail) == ReloadItem(x, key, detail)
  {
    hide ReloadJson, ReloadMembers;
    match x {
      case Loose(raw) => ReloadJsonTwice(raw);
      case Object(doc) => ReloadMembersTwice(doc.rest);
    }
  }

  lemma ReloadItemsTwice<K, D>(s: Slot<seq<Item<K, D>>>, key: Option<K> -> Option<K>, detail: D -> D)
    requires forall k: Option<K> :: key(key(k)) == key(k)
    requires forall d: D :: detail(detail(d)) == detail(d)
    ensures ReloadItems(ReloadItems(s, key, detail), key, detail) == ReloadItems(s, key, detail)
  {
    hide ReloadItem;
    ReloadForeignTwice(s);
    if s.Is? {
      var once := ReloadItems(s, key, detail).value;
      var twice := ReloadItems(ReloadItems(s, key, detail), key, detail).value;
      forall i | 0 <= i < |once| ensures twice[i] == once[i] { ReloadItemTwice(s.value[i], key, detail); }
      assert once == twice;
    }
  }

  lemma ReloadListTwice<D>(s: Slot<seq<Item<int, D>>>, detail: D -> D)
    requires forall d: D :: detail(detail(d)) == detail(d)
    ensures ReloadList(ReloadList(s, detail), detail) == ReloadList(s, detail)
  {
    forall o: Option<int> ensures ReloadOption(ReloadOption(o)) == ReloadOption(o) { ReloadOptionTwice(o); }
    ReloadItemsTwice(s, ReloadOption, detail);
  }

  lemma ReloadOptionTwice(o: Option<int>)
    ensures ReloadOption(ReloadOption(o)) == ReloadOption(o)
  {
    if o.Some? { ReadIsExact(o.value); }
  }

  lemma ReloadSlotTwice(s: Slot<int>)
    ensures ReloadSlot(ReloadSlot(s)) == ReloadSlot(s)
  {
    if s.Is? { ReadIsExact(s.value); }
    ReloadForeignTwice(s);
  }

  lemma ReloadFieldIdsTwice(f: FieldIds)
    ensures ReloadFieldIds(ReloadFieldIds(f)) == ReloadFieldIds(f)
  {
    if f.Some? {
      forall i | 0 <= i < |f.value| ensures ReloadOption(ReloadOption(f.value[i])) == ReloadOption(f.value[i]) {
        ReloadOptionTwice(f.value[i]);
      }
      assert ReloadFieldIds(ReloadFieldIds(f)).value == ReloadFieldIds(f).value;
    }
  }

  lemma ReloadRefTwice(r: Ref)
    ensures ReloadRef(ReloadRef(r)) == ReloadRef(r)
  {
    if r.LooseRef? {
      ReloadJsonTwice(r.raw);
    } else {
      ReloadOptionTwice(r.snapshotId);
      ReloadOptionTwice(r.retention.maxRefAgeMs);
      ReloadOptionTwice(r.retention.maxSnapshotAgeMs);
      ReloadOptionTwice(r.retention.minSnapshotsToKeep);
    }
  }

  lemma ReloadFamilyTwice(f: Family)
    ensures ReloadFamily(ReloadFamily(f)) == ReloadFamily(f)
  {
    forall d ensures ReloadFieldIds(ReloadFieldIds(d)) == ReloadFieldIds(d) { ReloadFieldIdsTwice(d); }
    ReloadListTwice(f.entries, ReloadFieldIds);
    ReloadSlotTwice(f.pointer);
    ReloadSlotTwice(f.lastFieldId);
  }

  lemma ReloadSnapshotsTwice(s: Snapshots)
    ensures ReloadSnapshots(ReloadSnapshots(s)) == ReloadSnapshots(s)
  {
    forall d ensures ReloadSnapshotDetail(ReloadSnapshotDetail(d)) == ReloadSnapshotDetail(d) {
      ReloadOptionTwice(d.timestampMs);
      ReloadOptionTwice(d.sequenceNumber);
    }
    forall o ensures ReloadOption(ReloadOption(o)) == ReloadOption(o) { ReloadOptionTwice(o); }
    ReloadListTwice(s.list, ReloadSnapshotDetail);
    ReloadListTwice(s.log, ReloadOption);
    ReloadSlotTwice(s.current);
    ReloadSlotTwice(s.lastSequence);
    ReloadForeignTwice(s.refs);
    if s.refs.Is? {
      var once := ReloadRefs(s.refs).value;
      var twice := ReloadRefs(ReloadRefs(s.refs)).value;
      forall name | name in once ensures twice[name] == once[name] { ReloadRefTwice(s.refs.value[name]); }
      assert once == twice;
    }
  }

  lemma ReloadPropertiesTwice(s: Slot<map<string, Json>>)
    ensures ReloadProperties(ReloadProperties(s)) == ReloadProperties(s)
  {
    ReloadForeignTwice(s);
    if s.Is? { ReloadMembersTwice(s.value); }
  }

  /** Metadata that was loaded is the same after another copy. */
  lemma ReloadTwice(m: Metadata)
    ensures Reload(Reload(m)) == Reload(m)
  {
    hide ReloadForeign, ReloadSlot, ReloadFamily, ReloadSnapshots, ReloadList, ReloadProperties, ReloadItems, ReloadMembers;
    ReloadForeignTwice(m.tableUuid);
    ReloadForeignTwice(m.location);
    ReloadSlotTwice(m.formatVersion);
    ReloadSlotTwice(m.lastUpdatedMs);
    ReloadFamilyTwice(m.schemas);
    ReloadFamilyTwice(m.specs);
    ReloadFamilyTwice(m.sortOrders);
    ReloadSnapshotsTwice(m.snaps);
    ReloadListTwice(m.statistics, Same);
    ReloadListTwice(m.partitionStatistics, Same);
    ReloadPropertiesTwice(m.properties);
    ReloadItemsTwice(m.encryptionKeys, Same, Same);
    ReloadMembersTwice(m.other);
  }
}
