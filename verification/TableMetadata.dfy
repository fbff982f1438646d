/** Table metadata as the commit engine sees it.

    The source keeps metadata in a `map[string]any`. Here each key the engine looks at is a field.
    A `Slot` tells apart a missing key, a value of a type the engine ignores, and a usable value;
    an `Item` tells apart list elements that are not objects from objects, whose id may be unreadable. */
module TableMetadata {
  import opened Options
  import opened JsonValues
  import opened Binary64

  datatype Slot<+T> = Absent | Foreign(raw: Json) | Is(value: T) {
    function Or(default: T): T {
      if Is? then value else default
    }
  }

  /** A JSON object of a metadata list: its id, what else the engine reads in it, and the other members. */
  datatype Doc<+K, +D> = Doc(key: Option<K>, detail: D, rest: map<string, Json>)

  datatype Item<+K, +D> = Loose(raw: Json) | Object(doc: Doc<K, D>) {
    function Key(): Option<K> {
      if Object? then doc.key else None
    }
  }

  /** The ids of a schema's or a spec's `fields`, where they can be read. */
  type FieldIds = Option<seq<Option<int>>>
  type FamilyDoc = Doc<int, FieldIds>
  type FamilyItem = Item<int, FieldIds>

  datatype SnapshotDetail = SnapshotDetail(timestampMs: Option<int>, sequenceNumber: Option<int>)
  type SnapshotDoc = Doc<int, SnapshotDetail>
  type SnapshotItem = Item<int, SnapshotDetail>
  type LogItem = Item<int, Option<int>>

  type StatDoc = Doc<int, ()>
  type StatItem = Item<int, ()>
  type KeyDoc = Doc<string, ()>
  type KeyItem = Item<string, ()>

  datatype Retention = Retention(maxRefAgeMs: Option<int>, maxSnapshotAgeMs: Option<int>, minSnapshotsToKeep: Option<int>)
  datatype Ref = LooseRef(raw: Json) | Ref(kind: Option<string>, snapshotId: Option<int>, retention: Retention)

  const BRANCH := "branch"
  const TAG := "tag"
  const MAIN := "main"

  /** A versioned list with a pointer to the version in use: schemas with current-schema-id and
      last-column-id, specs with default-spec-id and last-partition-id, sort orders with
      default-sort-order-id (whose third slot no handler touches). */
  datatype Family = Family(entries: Slot<seq<FamilyItem>>, pointer: Slot<int>, lastFieldId: Slot<int>)

  datatype Snapshots = Snapshots(
    list: Slot<seq<SnapshotItem>>,
    current: Slot<int>,
    refs: Slot<map<string, Ref>>,
    log: Slot<seq<LogItem>>,
    lastSequence: Slot<int>)

  datatype Metadata = Metadata(
    tableUuid: Slot<string>,
    formatVersion: Slot<int>,
    location: Slot<string>,
    lastUpdatedMs: Slot<int>,
    schemas: Family,
    specs: Family,
    sortOrders: Family,
    snaps: Snapshots,
    statistics: Slot<seq<StatItem>>,
    partitionStatistics: Slot<seq<StatItem>>,
    properties: Slot<map<string, Json>>,
    encryptionKeys: Slot<seq<KeyItem>>,
    other: map<string, Json>)

  // ---------------------------------------------------------------- lists of items

  predicate HasKey<K(==), D>(items: seq<Item<K, D>>, key: K) {
    exists i :: 0 <= i < |items| && items[i].Key() == Some(key)
  }

  ghost predicate UniqueKeys<K(!new), D(!new)>(items: seq<Item<K, D>>) {
    forall i, j :: 0 <= i < j < |items| && items[i].Key().Some? ==> items[i].Key() != items[j].Key()
  }

  /** The elements whose id is readable and in `gone` dropped, the others kept in order. */
  function Without<K(==), D>(items: seq<Item<K, D>>, gone: set<K>): seq<Item<K, D>> {
    if items == [] then []
    else
      var last := items[|items| - 1];
      var kept := Without(items[..|items| - 1], gone);
      if last.Key().Some? && last.Key().value in gone then kept else kept + [last]
  }

  /** The largest readable id, and at least 0. */
  function MaxKey<D>(items: seq<Item<int, D>>): int {
    if items == [] then 0
    else
      var last := items[|items| - 1];
      var m := MaxKey(items[..|items| - 1]);
      if last.Key().Some? && last.Key().value > m then last.Key().value else m
  }

  /** The largest readable field id, and at least 0. */
  function MaxFieldId(ids: seq<Option<int>>): int {
    if ids == [] then 0
    else
      var last := ids[|ids| - 1];
      var m := MaxFieldId(ids[..|ids| - 1]);
      if last.Some? && last.value > m then last.value else m
  }

  // ---------------------------------------------------------------- views of JSON objects

  /** A JSON value as it is decoded into untyped Go values: every number is a binary64. */
  function ReloadJson(j: Json): Json {
    match j
    case Num(n) => Num(Round(n))
    case Arr(items) => Arr(seq(|items|, i requires 0 <= i < |items| => ReloadJson(items[i])))
    case Obj(members) => Obj(map k | k in members :: ReloadJson(members[k]))
    case _ => j
  }

  function ReloadMembers(members: map<string, Json>): map<string, Json> {
    map k | k in members :: ReloadJson(members[k])
  }

  /** `getInt64` and `getInt` on a decoded object. */
  function ReadInt(o: map<string, Json>, member: string): Option<int> {
    if member in o && o[member].Num? then Some(ReadInt64(o[member].n)) else None
  }

  function ReadFieldIds(o: map<string, Json>, idMember: string): FieldIds {
    if "fields" in o && o["fields"].Arr? then
      var fields := o["fields"].items;
      Some(seq(|fields|, i requires 0 <= i < |fields| =>
        if fields[i].Obj? then ReadInt(fields[i].members, idMember) else None))
    else None
  }

  function SchemaView(o: map<string, Json>): FamilyDoc {
    Doc(ReadInt(o, "schema-id"), ReadFieldIds(o, "id"), ReloadMembers(o - {"schema-id"}))
  }

  function SpecView(o: map<string, Json>): FamilyDoc {
    Doc(ReadInt(o, "spec-id"), ReadFieldIds(o, "field-id"), ReloadMembers(o - {"spec-id"}))
  }

  function SortOrderView(o: map<string, Json>): FamilyDoc {
    Doc(ReadInt(o, "order-id"), None, ReloadMembers(o - {"order-id"}))
  }

  function SnapshotView(o: map<string, Json>): SnapshotDoc {
    Doc(ReadInt(o, "snapshot-id"), SnapshotDetail(ReadInt(o, "timestamp-ms"), ReadInt(o, "sequence-number")),
        ReloadMembers(o - {"snapshot-id", "timestamp-ms", "sequence-number"}))
  }

  function StatView(o: map<string, Json>): StatDoc {
    Doc(ReadInt(o, "snapshot-id"), (), ReloadMembers(o - {"snapshot-id"}))
  }

  function KeyView(o: map<string, Json>): KeyDoc {
    Doc(if "key-id" in o && o["key-id"].Str? then Some(o["key-id"].text) else None, (), ReloadMembers(o - {"key-id"}))
  }

  /** The metadata `CreateTable` stores. */
  function InitialMetadata(uuid: string, location: string, now: int, schema: map<string, Json>,
                           spec: Json, sortOrder: Json, properties: Json): Metadata
  {
    var fields := SchemaView(schema).detail;
    Metadata(
      Is(uuid), Is(2), Is(location), Is(now),
      Family(Is([Object(SchemaView(schema))]), Is(0), Is(if fields.Some? then MaxFieldId(fields.value) else 0)),
      Family(Is([if spec.Obj? then Object(SpecView(spec.members)) else Loose(spec)]), Is(0), Absent),
      Family(Is([if sortOrder.Obj? then Object(SortOrderView(sortOrder.members)) else Loose(sortOrder)]), Is(0), Absent),
      Snapshots(Is([]), Absent, Is(map[]), Is([]), Absent),
      Absent, Absent,
      if properties.Obj? then Is(properties.members) else Foreign(properties),
      Absent,
      map[])
  }

  /** The placeholder metadata `RegisterTable` stores. */
  function RegisteredMetadata(uuid: string, location: string, now: int): Metadata {
    Metadata(
      Is(uuid), Is(2), Is(location), Is(now),
      Family(Absent, Absent, Absent), Family(Absent, Absent, Absent), Family(Absent, Absent, Absent),
      Snapshots(Absent, Absent, Absent, Absent, Absent),
      Absent, Absent, Absent, Absent,
      map[])
  }

  // ---------------------------------------------------------------- the JSON round trip

  /** A value of a type the engine ignores. */
  function ReloadForeign<T>(s: Slot<T>): Slot<T> {
    if s.Foreign? then Foreign(ReloadJson(s.raw)) else s
  }

  function ReloadSlot(s: Slot<int>): Slot<int> {
    if s.Is? then Is(ReadInt64(s.value)) else ReloadForeign(s)
  }

  function ReloadOption(o: Option<int>): Option<int> {
    if o.Some? then Some(ReadInt64(o.value)) else None
  }

  function ReloadFieldIds(f: FieldIds): FieldIds {
    if f.Some? then Some(seq(|f.value|, i requires 0 <= i < |f.value| => ReloadOption(f.value[i]))) else None
  }

  function ReloadSnapshotDetail(d: SnapshotDetail): SnapshotDetail {
    SnapshotDetail(ReloadOption(d.timestampMs), ReloadOption(d.sequenceNumber))
  }

  function ReloadItem<K, D>(x: Item<K, D>, key: Option<K> -> Option<K>, detail: D -> D): Item<K, D> {
    match x
    case Loose(raw) => Loose(ReloadJson(raw))
    case Object(doc) => Object(Doc(key(doc.key), detail(doc.detail), ReloadMembers(doc.rest)))
  }

  function ReloadItems<K, D>(s: Slot<seq<Item<K, D>>>, key: Option<K> -> Option<K>, detail: D -> D): Slot<seq<Item<K, D>>> {
    if s.Is? then Is(seq(|s.value|, i requires 0 <= i < |s.value| => ReloadItem(s.value[i], key, detail)))
    else ReloadForeign(s)
  }

  /** A list of objects with integer ids. */
  function ReloadList<D>(s: Slot<seq<Item<int, D>>>, detail: D -> D): Slot<seq<Item<int, D>>> {
    ReloadItems(s, ReloadOption, detail)
  }

  function ReloadRef(r: Ref): Ref {
    match r
    case LooseRef(raw) => LooseRef(ReloadJson(raw))
    case Ref(kind, id, ret) =>
      Ref(kind, ReloadOption(id), Retention(ReloadOption(ret.maxRefAgeMs), ReloadOption(ret.maxSnapshotAgeMs),
                                            ReloadOption(ret.minSnapshotsToKeep)))
  }

  function ReloadRefs(s: Slot<map<string, Ref>>): Slot<map<string, Ref>> {
    if s.Is? then Is(map name | name in s.value :: ReloadRef(s.value[name])) else ReloadForeign(s)
  }

  function ReloadProperties(s: Slot<map<string, Json>>): Slot<map<string, Json>> {
    if s.Is? then Is(ReloadMembers(s.value)) else ReloadForeign(s)
  }

  function ReloadFamily(f: Family): Family {
    Family(ReloadList(f.entries, ReloadFieldIds), ReloadSlot(f.pointer), ReloadSlot(f.lastFieldId))
  }

  function ReloadSnapshots(s: Snapshots): Snapshots {
    Snapshots(ReloadList(s.list, ReloadSnapshotDetail), ReloadSlot(s.current), ReloadRefs(s.refs),
              ReloadList(s.log, ReloadOption), ReloadSlot(s.lastSequence))
  }

  /** Metadata after it went through JSON text and back: what a row yields when it is loaded, and
      what `deepCopyMap` yields. */
  function Reload(m: Metadata): Metadata {
    Metadata(
      ReloadForeign(m.tableUuid), ReloadSlot(m.formatVersion), ReloadForeign(m.location), ReloadSlot(m.lastUpdatedMs),
      ReloadFamily(m.schemas), ReloadFamily(m.specs), ReloadFamily(m.sortOrders), ReloadSnapshots(m.snaps),
      ReloadList(m.statistics, Same), ReloadList(m.partitionStatistics, Same),
      ReloadProperties(m.properties), ReloadItems(m.encryptionKeys, Same, Same),
      ReloadMembers(m.other))
  }

  function Same<T>(x: T): T { x }
}
