/** When loading, or copying, leaves metadata exactly as it was. */
module Exactness {
  import opened Options
  import opened JsonValues
  import opened Binary64
  import opened TableMetadata
  import opened ItemLemmas
  import opened JsonHeap
  import opened NestedWrites
  import opened Copies

  /** Every number anywhere in the value is a binary64. */
  ghost predicate DoublesIn(j: Json) {
    AllDoubles(JsonTree(j))
  }

  ghost predicate DoublesInMembers(members: map<string, Json>) {
    forall k :: k in members ==> DoublesIn(members[k])
  }

  predicate ExactOption(n: Option<int>) {
    n.Some? ==> Exact(n.value)
  }

  predicate ExactFieldIds(ids: FieldIds) {
    ids.Some? ==> forall i :: 0 <= i < |ids.value| ==> ExactOption(ids.value[i])
  }

  predicate ExactDetail(d: SnapshotDetail) {
    ExactOption(d.timestampMs) && ExactOption(d.sequenceNumber)
  }

  predicate Anything<T>(x: T) { true }

  ghost predicate ExactForeign<T>(s: Slot<T>) {
    s.Foreign? ==> DoublesIn(s.raw)
  }

  ghost predicate ExactSlot(s: Slot<int>) {
    ExactForeign(s) && (s.Is? ==> Exact(s.value))
  }

  ghost predicate ExactItem<K, D>(x: Item<K, D>, key: Option<K> -> bool, detail: D -> bool) {
    match x
    case Loose(raw) => DoublesIn(raw)
    case Object(doc) => key(doc.key) && detail(doc.detail) && DoublesInMembers(doc.rest)
  }

  ghost predicate ExactItems<K, D>(s: Slot<seq<Item<K, D>>>, key: Option<K> -> bool, detail: D -> bool) {
    ExactForeign(s) && (s.Is? ==> forall i :: 0 <= i < |s.value| ==> ExactItem(s.value[i], key, detail))
  }

  ghost predicate ExactRef(r: Ref) {
    match r
    case LooseRef(raw) => DoublesIn(raw)
    case Ref(_, id, ret) =>
      ExactOption(id) && ExactOption(ret.maxRefAgeMs) && ExactOption(ret.maxSnapshotAgeMs) && ExactOption(ret.minSnapshotsToKeep)
  }

  ghost predicate ExactRefs(s: Slot<map<string, Ref>>) {
    ExactForeign(s) && (s.Is? ==> forall name :: name in s.value ==> ExactRef(s.value[name]))
  }

  ghost predicate ExactMap(s: Slot<map<string, Json>>) {
    ExactForeign(s) && (s.Is? ==> DoublesInMembers(s.value))
  }

  ghost predicate ExactFamily(f: Family) {
    ExactItems(f.entries, ExactOption, ExactFieldIds) && ExactSlot(f.pointer) && ExactSlot(f.lastFieldId)
  }

  ghost predicate ExactSnapshots(s: Snapshots) {
    && ExactItems(s.list, ExactOption, ExactDetail) && ExactSlot(s.current) && ExactRefs(s.refs)
    && ExactItems(s.log, ExactOption, ExactOption) && ExactSlot(s.lastSequence)
  }

  /** Every id, mark, time and sequence number survives as a JSON number, and every other number is a
      binary64. */
  ghost predicate AllSurvives(m: Metadata) {
    && ExactForeign(m.tableUuid) && ExactSlot(m.formatVersion) && ExactForeign(m.location) && ExactSlot(m.lastUpdatedMs)
    && ExactFamily(m.schemas) && ExactFamily(m.specs) && ExactFamily(m.sortOrders) && ExactSnapshots(m.snaps)
    && ExactItems(m.statistics, ExactOption, Anything) && ExactItems(m.partitionStatistics, ExactOption, Anything)
    && ExactMap(m.properties) && ExactItems(m.encryptionKeys, Anything, Anything)
    && DoublesInMembers(m.other)
  }

  // ---------------------------------------------------------------- part by part

  lemma OnMembers(members: map<string, Json>)
    ensures ReloadMembers(members) == members <==> DoublesInMembers(members)
  {
    hide ReloadJson, DoublesIn;
    forall k | k in members ensures ReloadJson(members[k]) == members[k] <==> DoublesIn(members[k]) { OnJson(members[k]); }
    if DoublesInMembers(members) { assert ReloadMembers(members) == members; }
    if ReloadMembers(members) == members {
      forall k | k in members ensures DoublesIn(members[k]) { assert ReloadMembers(members)[k] == members[k]; }
    }
  }

  lemma OnJson(j: Json)
    ensures ReloadJson(j) == j <==> DoublesIn(j)
  {
    hide ReloadJson, AllDoubles, JsonTree;
    ReloadIsExactForDoubles(j);
  }

  lemma OnForeign<T>(s: Slot<T>)
    ensures ReloadForeign(s) == s <==> ExactForeign(s)
  {
    hide ReloadJson, DoublesIn;
    if s.Foreign? { OnJson(s.raw); }
  }

  lemma OnSlot(s: Slot<int>)
    ensures ReloadSlot(s) == s <==> ExactSlot(s)
  {
    hide ReloadForeign, ReadInt64;
    OnForeign(s);
  }

  lemma OnOption(n: Option<int>)
    ensures ReloadOption(n) == n <==> ExactOption(n)
  {
    hide ReadInt64;
  }

  lemma OnFieldIds(ids: FieldIds)
    ensures ReloadFieldIds(ids) == ids <==> ExactFieldIds(ids)
  {
    hide ReloadOption, ExactOption;
    if ids.Some? {
      var again := ReloadFieldIds(ids).value;
      forall i | 0 <= i < |again| ensures again[i] == ids.value[i] <==> ExactOption(ids.value[i]) { OnOption(ids.value[i]); }
      if ExactFieldIds(ids) { assert again == ids.value; }
      if again == ids.value { forall i | 0 <= i < |again| ensures ExactOption(ids.value[i]) { assert again[i] == ids.value[i]; } }
    }
  }

  lemma OnDetail(d: SnapshotDetail)
    ensures ReloadSnapshotDetail(d) == d <==> ExactDetail(d)
  {
    hide ReloadOption, ExactOption;
    OnOption(d.timestampMs);
    OnOption(d.sequenceNumber);
  }

  lemma OnItem<K, D>(x: Item<K, D>, key: Option<K> -> Option<K>, detail: D -> D, exactKey: Option<K> -> bool, exactDetail: D -> bool)
    requires forall k: Option<K> :: key(k) == k <==> exactKey(k)
    requires forall d: D :: detail(d) == d <==> exactDetail(d)
    ensures ReloadItem(x, key, detail) == x <==> ExactItem(x, exactKey, exactDetail)
  {
    hide ReloadJson, ReloadMembers, DoublesIn, DoublesInMembers;
    match x {
      case Loose(raw) => OnJson(raw);
      case Object(doc) => OnMembers(doc.rest);
    }
  }

  lemma OnItems<K, D>(s: Slot<seq<Item<K, D>>>, key: Option<K> -> Option<K>, detail: D -> D,
                      exactKey: Option<K> -> bool, exactDetail: D -> bool)
    requires forall k: Option<K> :: key(k) == k <==> exactKey(k)
    requires forall d: D :: detail(d) == d <==> exactDetail(d)
    ensures ReloadItems(s, key, detail) == s <==> ExactItems(s, exactKey, exactDetail)
  {
    hide ReloadItem, ExactItem, ReloadForeign, ExactForeign;
    OnForeign(s);
    if s.Is? {
      var items, again := s.value, ReloadItems(s, key, detail).value;
      forall i | 0 <= i < |items| ensures again[i] == items[i] <==> ExactItem(items[i], exactKey, exactDetail) {
        OnItem(items[i], key, detail, exactKey, exactDetail);
      }
      if again == items {
        forall i | 0 <= i < |items| ensures ExactItem(items[i], exactKey, exactDetail) { assert again[i] == items[i]; }
      } else {
        var i :| 0 <= i < |items| && again[i] != items[i];
      }
      NotForeign(s);
    }
  }

  lemma NotForeign<T>(s: Slot<T>)
    ensures !s.Foreign? ==> ExactForeign(s)
  {
  }

  lemma OnRef(r: Ref)
    ensures ReloadRef(r) == r <==> ExactRef(r)
  {
    hide ReloadOption, ExactOption, ReloadJson, DoublesIn;
    match r {
      case LooseRef(raw) => OnJson(raw);
      case Ref(_, id, ret) =>
        OnOption(id);
        OnOption(ret.maxRefAgeMs);
        OnOption(ret.maxSnapshotAgeMs);
        OnOption(ret.minSnapshotsToKeep);
    }
  }

  lemma OnRefs(s: Slot<map<string, Ref>>)
    ensures ReloadRefs(s) == s <==> ExactRefs(s)
  {
    hide ReloadRef, ExactRef, ReloadForeign, ExactForeign;
    OnForeign(s);
    NotForeign(s);
    if s.Is? {
      var again := ReloadRefs(s).value;
      forall name | name in s.value ensures again[name] == s.value[name] <==> ExactRef(s.value[name]) { OnRef(s.value[name]); }
      if ExactRefs(s) { assert again == s.value; }
      if again == s.value {
        forall name | name in s.value ensures ExactRef(s.value[name]) { assert again[name] == s.value[name]; }
      }
    }
  }

  lemma OnMap(s: Slot<map<string, Json>>)
    ensures ReloadProperties(s) == s <==> ExactMap(s)
  {
    hide ReloadMembers, DoublesInMembers, ReloadForeign, ExactForeign;
    OnForeign(s);
    NotForeign(s);
    if s.Is? { OnMembers(s.value); }
  }

  lemma OnFamily(f: Family)
    ensures ReloadFamily(f) == f <==> ExactFamily(f)
  {
    hide ReloadItems, ExactItems, ReloadSlot, ExactSlot, ReloadOption, ExactOption, ReloadFieldIds, ExactFieldIds;
    forall n ensures ReloadOption(n) == n <==> ExactOption(n) { OnOption(n); }
    forall ids ensures ReloadFieldIds(ids) == ids <==> ExactFieldIds(ids) { OnFieldIds(ids); }
    OnItems(f.entries, ReloadOption, ReloadFieldIds, ExactOption, ExactFieldIds);
    OnSlot(f.pointer);
    OnSlot(f.lastFieldId);
  }

  lemma OnSnapshots(s: Snapshots)
    ensures ReloadSnapshots(s) == s <==> ExactSnapshots(s)
  {
    hide ReloadItems, ExactItems, ReloadSlot, ExactSlot, ReloadOption, ExactOption, ReloadSnapshotDetail, ExactDetail,
      ReloadRefs, ExactRefs;
    forall n ensures ReloadOption(n) == n <==> ExactOption(n) { OnOption(n); }
    forall d ensures ReloadSnapshotDetail(d) == d <==> ExactDetail(d) { OnDetail(d); }
    OnItems(s.list, ReloadOption, ReloadSnapshotDetail, ExactOption, ExactDetail);
    OnItems(s.log, ReloadOption, ReloadOption, ExactOption, ExactOption);
    OnSlot(s.current);
    OnSlot(s.lastSequence);
    OnRefs(s.refs);
  }

  /** Loading or copying changes nothing exactly when every number survives. */
  lemma ReloadChangesNothingExactly(m: Metadata)
    ensures Reload(m) == m <==> AllSurvives(m)
  {
    hide ReloadItems, ExactItems, ReloadSlot, ExactSlot, ReloadOption, ExactOption, ReloadForeign, ExactForeign, ReloadFamily,
      ExactFamily, ReloadSnapshots, ExactSnapshots, ReloadProperties, ExactMap, ReloadMembers, DoublesInMembers;
    forall n ensures ReloadOption(n) == n <==> ExactOption(n) { OnOption(n); }
    OnForeign(m.tableUuid);
    OnSlot(m.formatVersion);
    OnForeign(m.location);
    OnSlot(m.lastUpdatedMs);
    OnFamily(m.schemas);
    OnFamily(m.specs);
    OnFamily(m.sortOrders);
    OnSnapshots(m.snaps);
    OnItems(m.statistics, ReloadOption, Same, ExactOption, Anything);
    OnItems(m.partitionStatistics, ReloadOption, Same, ExactOption, Anything);
    OnMap(m.properties);
    OnItems(m.encryptionKeys, Same, Same, Anything, Anything);
    OnMembers(m.other);
  }
}
