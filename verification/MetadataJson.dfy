/** The JSON object that metadata is written as, and what the engine reads in such an object.

    Writing and reading back is what storing and loading a row does, and what the processor's copy does. */
module MetadataJson {
  import opened Options
  import opened JsonValues
  import opened Binary64
  import opened TableMetadata

  // ---------------------------------------------------------------- the members of the metadata object

  const UUID := "table-uuid"
  const FORMAT := "format-version"
  const LOCATION := "location"
  const UPDATED := "last-updated-ms"
  const SCHEMAS := "schemas"
  const CURRENT_SCHEMA := "current-schema-id"
  const LAST_COLUMN := "last-column-id"
  const SPECS := "partition-specs"
  const DEFAULT_SPEC := "default-spec-id"
  const LAST_PARTITION := "last-partition-id"
  const ORDERS := "sort-orders"
  const DEFAULT_ORDER := "default-sort-order-id"
  const SNAPSHOTS := "snapshots"
  const CURRENT_SNAPSHOT := "current-snapshot-id"
  const REFS := "refs"
  const LOG := "snapshot-log"
  const LAST_SEQUENCE := "last-sequence-number"
  const STATISTICS := "statistics"
  const PARTITION_STATISTICS := "partition-statistics"
  const PROPERTIES := "properties"
  const KEYS := "encryption-keys"

  const CORE_NAMES: set<string> := {UUID, FORMAT, LOCATION, UPDATED}
  const SCHEMA_NAMES: set<string> := {SCHEMAS, CURRENT_SCHEMA, LAST_COLUMN}
  const SPEC_NAMES: set<string> := {SPECS, DEFAULT_SPEC, LAST_PARTITION}
  const ORDER_NAMES: set<string> := {ORDERS, DEFAULT_ORDER}
  const SNAPSHOT_NAMES: set<string> := {SNAPSHOTS, CURRENT_SNAPSHOT, REFS, LOG, LAST_SEQUENCE}
  const STATISTICS_NAMES: set<string> := {STATISTICS, PARTITION_STATISTICS}
  const MAP_NAMES: set<string> := {PROPERTIES, KEYS}
  const NAMES: set<string> := CORE_NAMES + SCHEMA_NAMES + SPEC_NAMES + ORDER_NAMES + SNAPSHOT_NAMES + STATISTICS_NAMES + MAP_NAMES

  /** Length and first letter tell the names apart. */
  function Print(name: string): int {
    1000 * |name| + (if name == "" then 0 else name[0] as int - 'a' as int)
  }

  lemma NamesApart()
    ensures Print(UUID) == 10019 && Print(FORMAT) == 14005 && Print(LOCATION) == 8011 && Print(UPDATED) == 15011
    ensures Print(SCHEMAS) == 7018 && Print(CURRENT_SCHEMA) == 17002 && Print(LAST_COLUMN) == 14011
    ensures Print(SPECS) == 15015 && Print(DEFAULT_SPEC) == 15003 && Print(LAST_PARTITION) == 17011
    ensures Print(ORDERS) == 11018 && Print(DEFAULT_ORDER) == 21003
    ensures Print(SNAPSHOTS) == 9018 && Print(CURRENT_SNAPSHOT) == 19002 && Print(REFS) == 4017
    ensures Print(LOG) == 12018 && Print(LAST_SEQUENCE) == 20011
    ensures Print(STATISTICS) == 10018 && Print(PARTITION_STATISTICS) == 20015 && Print(PROPERTIES) == 10015
    ensures Print(KEYS) == 15004
  {
  }

  /** The group of names that a name belongs to. */
  function Group(name: string): nat {
    var p := Print(name);
    if p == 10019 || p == 14005 || p == 8011 || p == 15011 then 0
    else if p == 7018 || p == 17002 || p == 14011 then 1
    else if p == 15015 || p == 15003 || p == 17011 then 2
    else if p == 11018 || p == 21003 then 3
    else if p == 9018 || p == 19002 || p == 4017 || p == 12018 || p == 20011 then 4
    else if p == 10018 || p == 20015 then 5
    else 6
  }

  lemma GroupsApart()
    ensures forall name :: name in CORE_NAMES ==> Group(name) == 0
    ensures forall name :: name in SCHEMA_NAMES ==> Group(name) == 1
    ensures forall name :: name in SPEC_NAMES ==> Group(name) == 2
    ensures forall name :: name in ORDER_NAMES ==> Group(name) == 3
    ensures forall name :: name in SNAPSHOT_NAMES ==> Group(name) == 4
    ensures forall name :: name in STATISTICS_NAMES ==> Group(name) == 5
    ensures forall name :: name in MAP_NAMES ==> Group(name) == 6
  {
    hide Print;
    NamesApart();
  }

  // ---------------------------------------------------------------- writing

  function Put<T>(o: map<string, Json>, name: string, s: Slot<T>, enc: T -> Json): map<string, Json> {
    match s
    case Absent => o
    case Foreign(raw) => o[name := raw]
    case Is(v) => o[name := enc(v)]
  }

  function PutInt(o: map<string, Json>, name: string, n: Option<int>): map<string, Json> {
    if n.Some? then o[name := Num(n.value)] else o
  }

  function WriteText(s: string): Json { Str(s) }
  function WriteNumber(n: int): Json { Num(n) }
  function WriteMap(members: map<string, Json>): Json { Obj(members) }

  function WriteItem<K, D>(x: Item<K, D>, write: Doc<K, D> -> map<string, Json>): Json {
    match x
    case Loose(raw) => raw
    case Object(doc) => Obj(write(doc))
  }

  function WriteItems<K, D>(items: seq<Item<K, D>>, write: Doc<K, D> -> map<string, Json>): Json {
    Arr(seq(|items|, i requires 0 <= i < |items| => WriteItem(items[i], write)))
  }

  function WriteSchema(doc: FamilyDoc): map<string, Json> { PutInt(doc.rest, "schema-id", doc.key) }
  function WriteSpec(doc: FamilyDoc): map<string, Json> { PutInt(doc.rest, "spec-id", doc.key) }
  function WriteOrder(doc: FamilyDoc): map<string, Json> { PutInt(doc.rest, "order-id", doc.key) }

  function WriteSnapshot(doc: SnapshotDoc): map<string, Json> {
    PutInt(PutInt(PutInt(doc.rest, "snapshot-id", doc.key), "timestamp-ms", doc.detail.timestampMs),
           "sequence-number", doc.detail.sequenceNumber)
  }

  function WriteLogEntry(doc: Doc<int, Option<int>>): map<string, Json> {
    PutInt(PutInt(doc.rest, "snapshot-id", doc.key), "timestamp-ms", doc.detail)
  }

  function WriteStatistic(doc: StatDoc): map<string, Json> {
    PutInt(doc.rest, "snapshot-id", doc.key)
  }

  function WriteKey(doc: KeyDoc): map<string, Json> {
    if doc.key.Some? then doc.rest["key-id" := Str(doc.key.value)] else doc.rest
  }

  function WriteRef(r: Ref): Json {
    match r
    case LooseRef(raw) => raw
    case Ref(kind, id, ret) =>
      var o: map<string, Json> := if kind.Some? then map["type" := Str(kind.value)] else map[];
      Obj(PutInt(PutInt(PutInt(PutInt(o, "snapshot-id", id), "max-ref-age-ms", ret.maxRefAgeMs),
                        "max-snapshot-age-ms", ret.maxSnapshotAgeMs), "min-snapshots-to-keep", ret.minSnapshotsToKeep))
  }

  function WriteRefs(refs: map<string, Ref>): Json {
    Obj(map name | name in refs :: WriteRef(refs[name]))
  }

  function WriteSchemas(items: seq<FamilyItem>): Json { WriteItems(items, WriteSchema) }
  function WriteSpecs(items: seq<FamilyItem>): Json { WriteItems(items, WriteSpec) }
  function WriteOrders(items: seq<FamilyItem>): Json { WriteItems(items, WriteOrder) }
  function WriteSnapshots(items: seq<SnapshotItem>): Json { WriteItems(items, WriteSnapshot) }
  function WriteLog(items: seq<LogItem>): Json { WriteItems(items, WriteLogEntry) }
  function WriteStatistics(items: seq<StatItem>): Json { WriteItems(items, WriteStatistic) }
  function WriteKeys(items: seq<KeyItem>): Json { WriteItems(items, WriteKey) }

  function PutCore(o: map<string, Json>, m: Metadata): map<string, Json> {
    Put(Put(Put(Put(o, UUID, m.tableUuid, WriteText), FORMAT, m.formatVersion, WriteNumber), LOCATION, m.location, WriteText),
        UPDATED, m.lastUpdatedMs, WriteNumber)
  }

  function PutSchemas(o: map<string, Json>, f: Family): map<string, Json> {
    Put(Put(Put(o, SCHEMAS, f.entries, WriteSchemas), CURRENT_SCHEMA, f.pointer, WriteNumber), LAST_COLUMN, f.lastFieldId, WriteNumber)
  }

  function PutSpecs(o: map<string, Json>, f: Family): map<string, Json> {
    Put(Put(Put(o, SPECS, f.entries, WriteSpecs), DEFAULT_SPEC, f.pointer, WriteNumber), LAST_PARTITION, f.lastFieldId, WriteNumber)
  }

  function PutOrders(o: map<string, Json>, f: Family): map<string, Json> {
    Put(Put(o, ORDERS, f.entries, WriteOrders), DEFAULT_ORDER, f.pointer, WriteNumber)
  }

  function PutSnapshots(o: map<string, Json>, s: Snapshots): map<string, Json> {
    Put(Put(Put(Put(Put(o, SNAPSHOTS, s.list, WriteSnapshots), CURRENT_SNAPSHOT, s.current, WriteNumber),
                REFS, s.refs, WriteRefs), LOG, s.log, WriteLog), LAST_SEQUENCE, s.lastSequence, WriteNumber)
  }

  function PutStatistics(o: map<string, Json>, m: Metadata): map<string, Json> {
    Put(Put(o, STATISTICS, m.statistics, WriteStatistics), PARTITION_STATISTICS, m.partitionStatistics, WriteStatistics)
  }

  function PutMaps(o: map<string, Json>, m: Metadata): map<string, Json> {
    Put(Put(o, PROPERTIES, m.properties, WriteMap), KEYS, m.encryptionKeys, WriteKeys)
  }

  /** The object `json.Marshal` is given. */
  function MetadataObject(m: Metadata): map<string, Json> {
    var tables := PutOrders(PutSpecs(PutSchemas(PutCore(m.other, m), m.schemas), m.specs), m.sortOrders);
    PutMaps(PutStatistics(PutSnapshots(tables, m.snaps), m), m)
  }

  // ---------------------------------------------------------------- reading

  /** A member as one of the getters sees it. */
  function View<T>(o: map<string, Json>, name: string, read: Json -> Option<T>): Slot<T> {
    if name !in o then Absent
    else
      match read(o[name])
      case Some(v) => Is(v)
      case None => Foreign(ReloadJson(o[name]))
  }

  function ReadText(j: Json): Option<string> { if j.Str? then Some(j.text) else None }
  function ReadNumber(j: Json): Option<int> { if j.Num? then Some(ReadInt64(j.n)) else None }
  function ReadMap(j: Json): Option<map<string, Json>> { if j.Obj? then Some(ReloadMembers(j.members)) else None }

  function ReadItem<K, D>(j: Json, view: map<string, Json> -> Doc<K, D>): Item<K, D> {
    if j.Obj? then Object(view(j.members)) else Loose(ReloadJson(j))
  }

  function ReadItems<K, D>(j: Json, view: map<string, Json> -> Doc<K, D>): Option<seq<Item<K, D>>> {
    if j.Arr? then Some(seq(|j.items|, i requires 0 <= i < |j.items| => ReadItem(j.items[i], view))) else None
  }

  function LogView(o: map<string, Json>): Doc<int, Option<int>> {
    Doc(ReadInt(o, "snapshot-id"), ReadInt(o, "timestamp-ms"), ReloadMembers(o - {"snapshot-id", "timestamp-ms"}))
  }

  function ReadRef(j: Json): Ref {
    if j.Obj? then
      var o := j.members;
      Ref(if "type" in o then ReadText(o["type"]) else None, ReadInt(o, "snapshot-id"),
          Retention(ReadInt(o, "max-ref-age-ms"), ReadInt(o, "max-snapshot-age-ms"), ReadInt(o, "min-snapshots-to-keep")))
    else LooseRef(ReloadJson(j))
  }

  function ReadRefMap(j: Json): Option<map<string, Ref>> {
    if j.Obj? then Some(map name | name in j.members :: ReadRef(j.members[name])) else None
  }

  function ReadSchemas(j: Json): Option<seq<FamilyItem>> { ReadItems(j, SchemaView) }
  function ReadSpecs(j: Json): Option<seq<FamilyItem>> { ReadItems(j, SpecView) }
  function ReadOrders(j: Json): Option<seq<FamilyItem>> { ReadItems(j, SortOrderView) }
  function ReadSnapshots(j: Json): Option<seq<SnapshotItem>> { ReadItems(j, SnapshotView) }
  function ReadLog(j: Json): Option<seq<LogItem>> { ReadItems(j, LogView) }
  function ReadStatistics(j: Json): Option<seq<StatItem>> { ReadItems(j, StatView) }
  function ReadKeys(j: Json): Option<seq<KeyItem>> { ReadItems(j, KeyView) }

  function SchemasView(o: map<string, Json>): Family {
    Family(View(o, SCHEMAS, ReadSchemas), View(o, CURRENT_SCHEMA, ReadNumber), View(o, LAST_COLUMN, ReadNumber))
  }

  function SpecsView(o: map<string, Json>): Family {
    Family(View(o, SPECS, ReadSpecs), View(o, DEFAULT_SPEC, ReadNumber), View(o, LAST_PARTITION, ReadNumber))
  }

  function OrdersView(o: map<string, Json>): Family {
    Family(View(o, ORDERS, ReadOrders), View(o, DEFAULT_ORDER, ReadNumber), Absent)
  }

  function SnapshotsView(o: map<string, Json>): Snapshots {
    Snapshots(View(o, SNAPSHOTS, ReadSnapshots), View(o, CURRENT_SNAPSHOT, ReadNumber), View(o, REFS, ReadRefMap),
              View(o, LOG, ReadLog), View(o, LAST_SEQUENCE, ReadNumber))
  }

  /** What the engine reads in a metadata object that was decoded from JSON text. */
  function MetadataView(o: map<string, Json>): Metadata {
    Metadata(
      View(o, UUID, ReadText), View(o, FORMAT, ReadNumber), View(o, LOCATION, ReadText), View(o, UPDATED, ReadNumber),
      SchemasView(o), SpecsView(o), OrdersView(o), SnapshotsView(o),
      View(o, STATISTICS, ReadStatistics), View(o, PARTITION_STATISTICS, ReadStatistics),
      View(o, PROPERTIES, ReadMap), View(o, KEYS, ReadKeys),
      ReloadMembers(o - NAMES))
  }
}
