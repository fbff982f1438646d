/** When processing order and request order give the same result. */
module Reordering {
  import opened Options
  import opened JsonValues
  import opened TableMetadata
  import opened Updates
  import opened Handlers
  import opened StableSort
  import opened ItemLemmas

  // ---------------------------------------------------------------- what each update works on

  /** The disjoint parts of the metadata. */
  datatype Zone =
    | UuidZone | FormatZone | LocationZone | SchemaZone | SpecZone | SortOrderZone | SnapshotZone
    | StatisticsZone | PartitionStatisticsZone | PropertiesZone | KeyZone

  function ZoneOf(u: Update): Zone {
    match u
    case AssignUuid(_) => UuidZone
    case UpgradeFormatVersion(_) => FormatZone
    case SetLocation(_) => LocationZone
    case AddSchema(_, _) => SchemaZone
    case SetCurrentSchema(_) => SchemaZone
    case RemoveSchemas(_) => SchemaZone
    case AddSpec(_) => SpecZone
    case SetDefaultSpec(_) => SpecZone
    case RemovePartitionSpecs(_) => SpecZone
    case AddSortOrder(_) => SortOrderZone
    case SetDefaultSortOrder(_) => SortOrderZone
    case AddSnapshot(_) => SnapshotZone
    case SetSnapshotRef(_, _, _, _) => SnapshotZone
    case RemoveSnapshots(_) => SnapshotZone
    case RemoveSnapshotRef(_) => SnapshotZone
    case SetStatistics(_, _) => StatisticsZone
    case RemoveStatistics(_) => StatisticsZone
    case SetPartitionStatistics(_) => PartitionStatisticsZone
    case RemovePartitionStatistics(_) => PartitionStatisticsZone
    case SetProperties(_) => PropertiesZone
    case RemoveProperties(_) => PropertiesZone
    case AddEncryptionKey(_) => KeyZone
    case RemoveEncryptionKey(_) => KeyZone
  }

  ghost predicate SameOn(z: Zone, m: Metadata, n: Metadata) {
    match z
    case UuidZone => m.tableUuid == n.tableUuid
    case FormatZone => m.formatVersion == n.formatVersion
    case LocationZone => m.location == n.location
    case SchemaZone => m.schemas == n.schemas
    case SpecZone => m.specs == n.specs
    case SortOrderZone => m.sortOrders == n.sortOrders
    case SnapshotZone => m.snaps == n.snaps
    case StatisticsZone => m.statistics == n.statistics
    case PartitionStatisticsZone => m.partitionStatistics == n.partitionStatistics
    case PropertiesZone => m.properties == n.properties
    case KeyZone => m.encryptionKeys == n.encryptionKeys
  }

  /** m and n agree on what no update touches. */
  ghost predicate SameBesides(m: Metadata, n: Metadata) {
    m.lastUpdatedMs == n.lastUpdatedMs && m.other == n.other
  }

  lemma SameEverywhere(m: Metadata, n: Metadata)
    requires SameBesides(m, n) && forall z :: SameOn(z, m, n)
    ensures m == n
  {
    assert SameOn(UuidZone, m, n) && SameOn(FormatZone, m, n) && SameOn(LocationZone, m, n);
    assert SameOn(SchemaZone, m, n) && SameOn(SpecZone, m, n) && SameOn(SortOrderZone, m, n);
    assert SameOn(SnapshotZone, m, n) && SameOn(StatisticsZone, m, n) && SameOn(PartitionStatisticsZone, m, n);
    assert SameOn(PropertiesZone, m, n) && SameOn(KeyZone, m, n);
  }

  ghost predicate ChangesOnly(zone: Zone, m: Metadata, n: Metadata) {
    SameBesides(m, n) && forall z :: z != zone ==> SameOn(z, m, n)
  }

  /** An update changes its own zone only. */
  lemma WritesOneZone(m: Metadata, u: Update)
    ensures ChangesOnly(ZoneOf(u), m, ApplyUpdate(m, u).state)
  {
  }

  /** An update reads its own zone only. */
  lemma ReadsOneZone(m: Metadata, n: Metadata, u: Update)
    requires SameOn(ZoneOf(u), m, n)
    ensures ApplyUpdate(m, u).error == ApplyUpdate(n, u).error
    ensures SameOn(ZoneOf(u), ApplyUpdate(m, u).state, ApplyUpdate(n, u).state)
  {
  }

  // ---------------------------------------------------------------- swapping neighbours

  /** Neither a removal nor a selection of "the last entry". */
  predicate Additive(u: Update) {
    match u
    case RemoveSchemas(_) => false
    case RemovePartitionSpecs(_) => false
    case RemoveSnapshots(_) => false
    case RemoveSnapshotRef(_) => false
    case RemoveStatistics(_) => false
    case RemovePartitionStatistics(_) => false
    case RemoveProperties(_) => false
    case RemoveEncryptionKey(_) => false
    case SetCurrentSchema(id) => id != -1
    case SetDefaultSpec(id) => id != -1
    case SetDefaultSortOrder(id) => id != -1
    case _ => true
  }

  predicate ValidSnapshot(doc: Option<SnapshotDoc>) {
    doc.Some? && doc.value.key.Some? && doc.value.detail.timestampMs.Some?
  }

  predicate ValidRef(name: string, kind: string) {
    name != "" && (kind == BRANCH || kind == TAG)
  }

  /** The snapshot id a set-statistics goes by. */
  function StatId(deprecatedId: Option<int>, doc: Option<StatDoc>): Option<int> {
    if doc.None? then None else if doc.value.key.Some? then doc.value.key else deprecatedId
  }

  /** The two can tell in which order they run: a is written first and processed last. */
  predicate Clash(a: Update, b: Update) {
    match (a, b)
    // "the last entry" means another one once an entry is added or removed
    case (SetCurrentSchema(t), AddSchema(doc, _)) => t == -1 && doc.Some?
    case (SetDefaultSpec(t), AddSpec(doc)) => t == -1 && doc.Some?
    case (SetDefaultSortOrder(t), AddSortOrder(doc)) => t == -1 && doc.Some?
    case (RemoveSchemas(ids), SetCurrentSchema(t)) => t == -1 && ids != []
    case (RemovePartitionSpecs(ids), SetDefaultSpec(t)) => t == -1 && ids != []
    // removing from an empty list is never refused, from a list of one entry it is
    case (RemoveSchemas(ids), AddSchema(doc, _)) => ids != [] && doc.Some?
    case (RemovePartitionSpecs(ids), AddSpec(doc)) => ids != [] && doc.Some?
    case (RemoveSnapshots(ids), AddSnapshot(doc)) => ids != [] && ValidSnapshot(doc)
    // a negative id needs no snapshot, but counts as referenced
    case (RemoveSnapshots(ids), SetSnapshotRef(name, kind, id, _)) => ValidRef(name, kind) && id < 0 && id in ids
    // removing and setting the same thing
    case (RemoveSnapshotRef(n), SetSnapshotRef(name, kind, _, _)) => ValidRef(name, kind) && n == name
    case (RemoveStatistics(id), SetStatistics(dep, doc)) => StatId(dep, doc) == Some(id)
    case (RemovePartitionStatistics(id), SetPartitionStatistics(doc)) => StatId(None, doc) == Some(id)
    case (RemoveProperties(removals), SetProperties(updates)) => exists k :: k in updates && k in removals
    case (RemoveEncryptionKey(id), AddEncryptionKey(doc)) => id != "" && doc.Some? && doc.value.key == Some(id)
    case _ => false
  }

  predicate Independent(a: Update, b: Update) {
    !Clash(a, b)
  }

  // ---- schemas, specs, sort orders

  /** Selecting an entry by id and adding one commute. */
  lemma SwapPointerAndEntry(f: Family, target: int, doc: Option<FamilyDoc>, hint: Option<int>)
    requires !(target == -1 && doc.Some?)
    requires SetPointer(f, target).error.None?
    requires AddEntry(SetPointer(f, target).state, doc, hint).error.None?
    ensures AddEntry(f, doc, hint).error.None?
    ensures SetPointer(AddEntry(f, doc, hint).state, target)
         == AddEntry(SetPointer(f, target).state, doc, hint)
  {
    var items := f.entries.Or([]);
    HasKeyGrows(items, Object(doc.value.(key := Some(AssignedId(items, doc.value)))), target);
  }

  /** Removing nothing commutes with everything. */
  lemma SwapNoRemovalAndEntry(f: Family, ids: seq<int>, doc: Option<FamilyDoc>, hint: Option<int>)
    requires !(ids != [] && doc.Some?)
    requires RemoveEntries(f, ids).error.None?
    requires AddEntry(RemoveEntries(f, ids).state, doc, hint).error.None?
    ensures AddEntry(f, doc, hint).error.None?
    ensures RemoveEntries(AddEntry(f, doc, hint).state, ids)
         == AddEntry(RemoveEntries(f, ids).state, doc, hint)
  {
  }

  /** Removing entries and selecting one by id commute. */
  lemma SwapRemovalAndPointer(f: Family, ids: seq<int>, target: int)
    requires !(ids != [] && target == -1)
    requires RemoveEntries(f, ids).error.None?
    requires SetPointer(RemoveEntries(f, ids).state, target).error.None?
    ensures SetPointer(f, target).error.None?
    ensures RemoveEntries(SetPointer(f, target).state, ids)
         == SetPointer(RemoveEntries(f, ids).state, target)
  {
    hide HasKey;
    var items := f.entries.Or([]);
    if ids != [] && items != [] { WithoutKeys(items, ToSet(ids), target); }
  }

  // ---- snapshots and references

  /** Setting a reference and adding a snapshot commute. */
  lemma SwapRefAndSnapshot(s: Snapshots, name: string, kind: string, id: int, ret: Retention, doc: Option<SnapshotDoc>)
    requires SetRef(s, name, kind, id, ret).error.None?
    requires PutSnapshot(SetRef(s, name, kind, id, ret).state, doc).error.None?
    ensures PutSnapshot(s, doc).error.None?
    ensures SetRef(PutSnapshot(s, doc).state, name, kind, id, ret)
         == PutSnapshot(SetRef(s, name, kind, id, ret).state, doc)
  {
    HasKeyGrows(s.list.Or([]), Object(doc.value), id);
  }

  lemma SwapDropRefAndSnapshot(s: Snapshots, name: string, doc: Option<SnapshotDoc>)
    requires DropRef(s, name).error.None? && PutSnapshot(DropRef(s, name).state, doc).error.None?
    ensures PutSnapshot(s, doc).error.None?
    ensures DropRef(PutSnapshot(s, doc).state, name) == PutSnapshot(DropRef(s, name).state, doc)
  {
    hide HasKey;
  }

  lemma SwapDropRefAndRef(s: Snapshots, gone: string, name: string, kind: string, id: int, ret: Retention)
    requires !(ValidRef(name, kind) && gone == name)
    requires DropRef(s, gone).error.None? && SetRef(DropRef(s, gone).state, name, kind, id, ret).error.None?
    ensures SetRef(s, name, kind, id, ret).error.None?
    ensures DropRef(SetRef(s, name, kind, id, ret).state, gone) == SetRef(DropRef(s, gone).state, name, kind, id, ret)
  {
    hide HasKey;
    var refs, r := s.refs.Or(map[]), Ref(Some(kind), Some(id), ret);
    assert (refs - {gone})[name := r] == refs[name := r] - {gone};
  }

  lemma SwapNoDropAndSnapshot(s: Snapshots, ids: seq<int>, doc: Option<SnapshotDoc>)
    requires !(ids != [] && ValidSnapshot(doc))
    requires DropSnapshots(s, ids).error.None? && PutSnapshot(DropSnapshots(s, ids).state, doc).error.None?
    ensures PutSnapshot(s, doc).error.None?
    ensures DropSnapshots(PutSnapshot(s, doc).state, ids) == PutSnapshot(DropSnapshots(s, ids).state, doc)
  {
    hide HasKey;
  }

  lemma SwapDropAndRef(s: Snapshots, ids: seq<int>, name: string, kind: string, id: int, ret: Retention)
    requires !(ValidRef(name, kind) && id < 0 && id in ids)
    requires DropSnapshots(s, ids).error.None? && SetRef(DropSnapshots(s, ids).state, name, kind, id, ret).error.None?
    ensures SetRef(s, name, kind, id, ret).error.None?
    ensures DropSnapshots(SetRef(s, name, kind, id, ret).state, ids) == SetRef(DropSnapshots(s, ids).state, name, kind, id, ret)
  {
    hide HasKey, RefersInto;
    var list, refs := s.list.Or([]), s.refs.Or(map[]);
    if ids != [] && list != [] {
      WithoutKeys(list, ToSet(ids), id);
      NotReferred(refs, ids, name, Ref(Some(kind), Some(id), ret));
    } else if list == [] {
      NothingHasKey(list, id);
    }
  }

  lemma NotReferred(refs: map<string, Ref>, ids: seq<int>, name: string, r: Ref)
    requires !RefersInto(refs, ids) && r.Ref? && r.snapshotId.Some? && r.snapshotId.value !in ids
    ensures !RefersInto(refs[name := r], ids)
  {
  }

  lemma NothingHasKey(list: seq<SnapshotItem>, id: int)
    requires list == []
    ensures !HasKey(list, id)
  {
  }

  lemma SwapDropAndDropRef(s: Snapshots, ids: seq<int>, name: string)
    requires DropSnapshots(s, ids).error.None? && DropRef(DropSnapshots(s, ids).state, name).error.None?
    ensures DropRef(s, name).error.None?
    ensures DropSnapshots(DropRef(s, name).state, ids) == DropRef(DropSnapshots(s, ids).state, name)
  {
    if s.refs.Is? && ids != [] && s.list.Or([]) != [] { FewerReferences(s.refs.value, ids, name); }
  }

  lemma FewerReferences(refs: map<string, Ref>, ids: seq<int>, name: string)
    requires !RefersInto(refs, ids)
    ensures !RefersInto(refs - {name}, ids)
  {
  }

  // ---- statistics, properties, keys

  lemma SwapDropAndStatistic(slot: Slot<seq<StatItem>>, id: int, doc: Option<StatDoc>, deprecatedId: Option<int>)
    requires StatId(deprecatedId, doc) != Some(id)
    requires SetStatistic(DropStatistic(slot, id), doc, deprecatedId).error.None?
    ensures SetStatistic(slot, doc, deprecatedId).error.None?
    ensures DropStatistic(SetStatistic(slot, doc, deprecatedId).state, id)
         == SetStatistic(DropStatistic(slot, id), doc, deprecatedId).state
  {
    var items, other := slot.Or([]), StatId(deprecatedId, doc).value;
    var x := Object(doc.value.(key := Some(other)));
    WithoutTwice(items, {id}, {other});
    WithoutTwice(items, {other}, {id});
    assert {id} + {other} == {other} + {id};
    WithoutConcat(Without(items, {other}), [x], {id});
    KeptAlone(x, id);
  }

  lemma KeptAlone<K, D>(x: Item<K, D>, id: K)
    requires x.Key() != Some(id)
    ensures Without([x], {id}) == [x]
  {
    assert [x][..0] == [];
  }

  lemma SwapDropAndKey(slot: Slot<seq<KeyItem>>, id: string, doc: Option<KeyDoc>)
    requires !(id != "" && doc.Some? && doc.value.key == Some(id))
    requires DropKey(slot, id).error.None? && PutKey(DropKey(slot, id).state, doc).error.None?
    ensures PutKey(slot, doc).error.None?
    ensures DropKey(PutKey(slot, doc).state, id) == PutKey(DropKey(slot, id).state, doc)
  {
    hide HasKey;
    var keys, x := slot.Or([]), Object(doc.value);
    WithoutKeys(keys, {id}, doc.value.key.value);
    WithoutConcat(keys, [x], {id});
    KeptAlone(x, id);
  }

  lemma SwapDropAndMerge(slot: Slot<map<string, Json>>, removals: seq<string>, updates: map<string, string>)
    requires forall k :: k in updates ==> k !in removals
    ensures DropProperties(MergeProperties(slot, updates), removals) == MergeProperties(DropProperties(slot, removals), updates)
  {
    var props, added := slot.Or(map[]), map k | k in updates :: Str(updates[k]);
    assert (props - ToSet(removals)) + added == (props + added) - ToSet(removals);
  }

  ghost predicate BothSucceed(m: Metadata, a: Update, b: Update) {
    ApplyUpdate(m, a).error.None? && ApplyUpdate(ApplyUpdate(m, a).state, b).error.None?
  }

  ghost function After(m: Metadata, a: Update, b: Update): Metadata {
    ApplyUpdate(ApplyUpdate(m, a).state, b).state
  }

  lemma SwapAcrossZones(m: Metadata, a: Update, b: Update)
    requires ZoneOf(a) != ZoneOf(b) && BothSucceed(m, a, b)
    ensures BothSucceed(m, b, a) && After(m, b, a) == After(m, a, b)
  {
    hide ApplyUpdate, ZoneOf, SameOn;
    var ma := ApplyUpdate(m, a).state;
    var mb := ApplyUpdate(m, b).state;
    WritesOneZone(m, a);
    WritesOneZone(m, b);
    ReadsOneZone(m, ma, b);
    ReadsOneZone(m, mb, a);
    WritesOneZone(ma, b);
    WritesOneZone(mb, a);
    MeetAgain(ZoneOf(a), ZoneOf(b), m, ma, mb, After(m, a, b), After(m, b, a));
  }

  /** Two ways around a square of single-zone changes meet. */
  lemma MeetAgain(za: Zone, zb: Zone, m: Metadata, ma: Metadata, mb: Metadata, mab: Metadata, mba: Metadata)
    requires za != zb
    requires ChangesOnly(za, m, ma) && ChangesOnly(zb, ma, mab)
    requires ChangesOnly(zb, m, mb) && ChangesOnly(za, mb, mba)
    requires SameOn(zb, mb, mab) && SameOn(za, ma, mba)
    ensures mab == mba
  {
    forall z ensures SameOn(z, mba, mab) {
      SameOnLaws(z, m, ma, mb, mab, mba);
    }
    SameEverywhere(mba, mab);
  }

  lemma SameOnLaws(z: Zone, m: Metadata, ma: Metadata, mb: Metadata, mab: Metadata, mba: Metadata)
    ensures SameOn(z, m, ma) && SameOn(z, ma, mab) && SameOn(z, m, mb) && SameOn(z, mb, mba) ==> SameOn(z, mba, mab)
    ensures SameOn(z, ma, mba) && SameOn(z, ma, mab) ==> SameOn(z, mba, mab)
    ensures SameOn(z, mb, mab) && SameOn(z, mb, mba) ==> SameOn(z, mba, mab)
  {
  }

  /** Within a zone, neighbours that do not clash commute. */
  lemma SwapWithinZone(m: Metadata, a: Update, b: Update)
    requires ZoneOf(a) == ZoneOf(b) && !Clash(a, b) && Rank(a) > Rank(b) && BothSucceed(m, a, b)
    ensures BothSucceed(m, b, a) && After(m, b, a) == After(m, a, b)
  {
    hide ApplyUpdate, Clash, BothSucceed, After;
    match ZoneOf(a) {
      case SchemaZone => SwapInSchemas(m, a, b);
      case SpecZone => SwapInSpecs(m, a, b);
      case SortOrderZone => SwapInSortOrders(m, a, b);
      case SnapshotZone => SwapInSnapshots(m, a, b);
      case StatisticsZone => SwapInStatistics(m, a, b);
      case PartitionStatisticsZone => SwapInStatistics(m, a, b);
      case _ => SwapElsewhere(m, a, b);
    }
  }

  lemma SwapInSchemas(m: Metadata, a: Update, b: Update)
    requires ZoneOf(a) == ZoneOf(b) == SchemaZone && !Clash(a, b) && Rank(a) > Rank(b) && BothSucceed(m, a, b)
    ensures BothSucceed(m, b, a) && After(m, b, a) == After(m, a, b)
  {
    hide AddEntry, SetPointer, RemoveEntries;
    match (a, b) {
      case (SetCurrentSchema(id), AddSchema(doc, hint)) => SwapPointerAndEntry(m.schemas, id, doc, hint);
      case (RemoveSchemas(ids), AddSchema(doc, hint)) => SwapNoRemovalAndEntry(m.schemas, ids, doc, hint);
      case (RemoveSchemas(ids), SetCurrentSchema(t)) => SwapRemovalAndPointer(m.schemas, ids, t);
      case _ =>
    }
  }

  lemma SwapInSpecs(m: Metadata, a: Update, b: Update)
    requires ZoneOf(a) == ZoneOf(b) == SpecZone && !Clash(a, b) && Rank(a) > Rank(b) && BothSucceed(m, a, b)
    ensures BothSucceed(m, b, a) && After(m, b, a) == After(m, a, b)
  {
    hide AddEntry, SetPointer, RemoveEntries;
    match (a, b) {
      case (SetDefaultSpec(id), AddSpec(doc)) => SwapPointerAndEntry(m.specs, id, doc, None);
      case (RemovePartitionSpecs(ids), AddSpec(doc)) => SwapNoRemovalAndEntry(m.specs, ids, doc, None);
      case (RemovePartitionSpecs(ids), SetDefaultSpec(t)) => SwapRemovalAndPointer(m.specs, ids, t);
      case _ =>
    }
  }

  lemma SwapInSortOrders(m: Metadata, a: Update, b: Update)
    requires ZoneOf(a) == ZoneOf(b) == SortOrderZone && !Clash(a, b) && Rank(a) > Rank(b) && BothSucceed(m, a, b)
    ensures BothSucceed(m, b, a) && After(m, b, a) == After(m, a, b)
  {
    hide AddEntry, SetPointer;
    SwapPointerAndEntry(m.sortOrders, a.sortOrderId, b.sortOrder, None);
  }

  lemma SwapInSnapshots(m: Metadata, a: Update, b: Update)
    requires ZoneOf(a) == ZoneOf(b) == SnapshotZone && !Clash(a, b) && Rank(a) > Rank(b) && BothSucceed(m, a, b)
    ensures BothSucceed(m, b, a) && After(m, b, a) == After(m, a, b)
  {
    hide SetRef, PutSnapshot, DropRef, DropSnapshots;
    match (a, b) {
      case (SetSnapshotRef(name, kind, id, ret), AddSnapshot(doc)) => SwapRefAndSnapshot(m.snaps, name, kind, id, ret, doc);
      case (RemoveSnapshotRef(n), AddSnapshot(doc)) => SwapDropRefAndSnapshot(m.snaps, n, doc);
      case (RemoveSnapshotRef(n), SetSnapshotRef(name, kind, id, ret)) =>
        SwapDropRefAndRef(m.snaps, n, name, kind, id, ret);
      case (RemoveSnapshots(_), _) => SwapWithRemovedSnapshots(m, a, b);
      case _ =>
    }
  }

  lemma SwapWithRemovedSnapshots(m: Metadata, a: Update, b: Update)
    requires a.RemoveSnapshots? && ZoneOf(b) == SnapshotZone && !Clash(a, b) && Rank(a) > Rank(b) && BothSucceed(m, a, b)
    ensures BothSucceed(m, b, a) && After(m, b, a) == After(m, a, b)
  {
    hide SetRef, PutSnapshot, DropRef, DropSnapshots;
    var ids := a.snapshotIds;
    match b {
      case AddSnapshot(doc) => SwapNoDropAndSnapshot(m.snaps, ids, doc);
      case SetSnapshotRef(name, kind, id, ret) => SwapDropAndRef(m.snaps, ids, name, kind, id, ret);
      case RemoveSnapshotRef(n) => SwapDropAndDropRef(m.snaps, ids, n);
      case _ =>
    }
  }

  lemma SwapInStatistics(m: Metadata, a: Update, b: Update)
    requires ZoneOf(a) == ZoneOf(b) && ZoneOf(a) in {StatisticsZone, PartitionStatisticsZone}
    requires !Clash(a, b) && Rank(a) > Rank(b) && BothSucceed(m, a, b)
    ensures BothSucceed(m, b, a) && After(m, b, a) == After(m, a, b)
  {
    hide SetStatistic, DropStatistic;
    match (a, b) {
      case (RemoveStatistics(id), SetStatistics(dep, doc)) => SwapDropAndStatistic(m.statistics, id, doc, dep);
      case (RemovePartitionStatistics(id), SetPartitionStatistics(doc)) =>
        SwapDropAndStatistic(m.partitionStatistics, id, doc, None);
    }
  }

  lemma SwapElsewhere(m: Metadata, a: Update, b: Update)
    requires ZoneOf(a) == ZoneOf(b) && ZoneOf(a) in {UuidZone, FormatZone, LocationZone, PropertiesZone, KeyZone}
    requires !Clash(a, b) && Rank(a) > Rank(b) && BothSucceed(m, a, b)
    ensures BothSucceed(m, b, a) && After(m, b, a) == After(m, a, b)
  {
    hide PutKey, DropKey, MergeProperties, DropProperties;
    match (a, b) {
      case (RemoveProperties(removals), SetProperties(updates)) => SwapDropAndMerge(m.properties, removals, updates);
      case (RemoveEncryptionKey(id), AddEncryptionKey(doc)) => SwapDropAndKey(m.encryptionKeys, id, doc);
    }
  }

  lemma SwapNeighbours(m: Metadata, a: Update, b: Update)
    requires Independent(a, b) && Rank(a) > Rank(b) && BothSucceed(m, a, b)
    ensures BothSucceed(m, b, a) && After(m, b, a) == After(m, a, b)
  {
    hide ApplyUpdate;
    if ZoneOf(a) != ZoneOf(b) { SwapAcrossZones(m, a, b); } else { SwapWithinZone(m, a, b); }
  }

  // ---------------------------------------------------------------- whole requests

  /** Every pair the reordering turns around is independent. */
  ghost predicate OnlyIndependentInversions(us: seq<Update>) {
    forall i, j :: 0 <= i < j < |us| && Rank(us[i]) > Rank(us[j]) ==> Independent(us[i], us[j])
  }

  /** Moving an update behind the lower-ranked ones it is independent of. */
  lemma {:induction false} InsertionKeepsRun(m: Metadata, u: Update, us: seq<Update>)
    requires Run(m, [u] + us).failure.None?
    requires forall v :: v in us && Rank(u) > Rank(v) ==> Independent(u, v)
    ensures Run(m, Insert(u, us)) == Run(m, [u] + us)
    decreases |us|
  {
    hide ApplyUpdate, Rank, Independent;
    if us != [] && Rank(u) > Rank(us[0]) {
      var v, rest := us[0], us[1..];
      assert [u] + us == [u, v] + rest;
      RunTwo(m, u, v, rest);
      SwapNeighbours(m, u, v);
      RunTwo(m, v, u, rest);
      var mv := ApplyUpdate(m, v).state;
      RunHead(m, v, [u] + rest);
      assert [v, u] + rest == [v] + ([u] + rest);
      InsertionKeepsRun(mv, u, rest);
      RunHead(m, v, Insert(u, rest));
    }
  }

  lemma RunHead(m: Metadata, u: Update, rest: seq<Update>)
    ensures ApplyUpdate(m, u).error.None? ==> Run(m, [u] + rest) == Run(ApplyUpdate(m, u).state, rest)
    ensures ApplyUpdate(m, u).error.Some? ==> Run(m, [u] + rest).failure.Some?
  {
    hide ApplyUpdate;
    assert ([u] + rest)[1..] == rest;
  }

  lemma RunTwo(m: Metadata, a: Update, b: Update, rest: seq<Update>)
    ensures Run(m, [a, b] + rest).failure.None? ==> BothSucceed(m, a, b)
    ensures BothSucceed(m, a, b) ==> Run(m, [a, b] + rest) == Run(After(m, a, b), rest)
  {
    hide ApplyUpdate;
    assert [a, b] + rest == [a] + ([b] + rest);
    RunHead(m, a, [b] + rest);
    RunHead(ApplyUpdate(m, a).state, b, rest);
  }

  /** One more update in front of a request that is already known to agree. */
  lemma AgreementGrows(m: Metadata, u: Update, rest: seq<Update>)
    requires Run(m, [u] + rest).failure.None?
    requires Run(ApplyUpdate(m, u).state, Sorted(rest)) == Run(ApplyUpdate(m, u).state, rest)
    requires forall v :: v in rest && Rank(u) > Rank(v) ==> Independent(u, v)
    ensures Run(m, Sorted([u] + rest)) == Run(m, [u] + rest)
  {
    hide ApplyUpdate, Rank, Independent, Sorted;
    SortedByInsertion(u, rest);
    SortedIsStableSort(rest);
    assert ([u] + rest)[0] == u;
    RunHead(m, u, rest);
    RunHead(m, u, Sorted(rest));
    InsertionKeepsRun(m, u, Sorted(rest));
  }

  /** If the updates succeed in request order and only independent ones are turned around, the
      processing order succeeds with the same metadata. */
  lemma {:induction false} RequestOrderAgreement(m: Metadata, us: seq<Update>)
    requires OnlyIndependentInversions(us)
    requires Run(m, us).failure.None?
    ensures Run(m, Sorted(us)) == Run(m, us)
    decreases |us|
  {
    hide ApplyUpdate, Rank, Independent, Sorted;
    if us == [] {
      SortedEmpty();
    } else {
      var u, rest := us[0], us[1..];
      assert us == [u] + rest;
      assert forall i :: 0 <= i < |rest| ==> rest[i] == us[i + 1];
      RequestOrderAgreement(ApplyUpdate(m, u).state, rest);
      AgreementGrows(m, u, rest);
    }
  }

  /** In particular for requests without removals and without -1 targets. */
  lemma AdditiveRequestsAgree(m: Metadata, us: seq<Update>)
    requires forall u :: u in us ==> Additive(u)
    requires Run(m, us).failure.None?
    ensures Run(m, Sorted(us)) == Run(m, us)
  {
    hide ApplyUpdate, Rank, Clash, Sorted, Additive;
    forall i, j | 0 <= i < j < |us| && Rank(us[i]) > Rank(us[j]) ensures Independent(us[i], us[j]) {
      assert us[i] in us && us[j] in us;
      if Clash(us[i], us[j]) { ClashNeedsARemoval(us[i], us[j]); }
    }
    RequestOrderAgreement(m, us);
  }

  lemma ClashNeedsARemoval(a: Update, b: Update)
    requires Clash(a, b)
    ensures !Additive(a) || !Additive(b)
  {
  }

  /** Two requests with the same per-action subsequences have the same outcome. */
  lemma SamePerActionSameOutcome(m: Metadata, us: seq<Update>, vs: seq<Update>)
    requires SamePerAction(us, vs)
    ensures Run(m, Sorted(us)) == Run(m, Sorted(vs))
  {
    SamePerActionSameOrder(us, vs);
  }
}
