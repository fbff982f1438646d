/** Loading a row, or copying its metadata, is writing it as JSON and reading it back. */
module RoundTrips {
  import opened Options
  import opened JsonValues
  import opened Binary64
  import opened TableMetadata
  import opened MetadataJson

  // ---------------------------------------------------------------- metadata that presents a JSON object

  /** What is kept aside as of the wrong type is of the wrong type. */
  predicate Fits<T>(s: Slot<T>, read: Json -> Option<T>) {
    s.Foreign? ==> read(s.raw).None?
  }

  predicate ItemFits<K, D>(x: Item<K, D>, fits: Doc<K, D> -> bool) {
    match x
    case Loose(raw) => !raw.Obj?
    case Object(doc) => fits(doc)
  }

  predicate ItemsFit<K, D>(s: Slot<seq<Item<K, D>>>, fits: Doc<K, D> -> bool) {
    match s
    case Absent => true
    case Foreign(raw) => !raw.Arr?
    case Is(items) => forall i :: 0 <= i < |items| ==> ItemFits(items[i], fits)
  }

  /** The id is kept apart, and the field ids are those of the other members. */
  predicate SchemaFits(doc: FamilyDoc) {
    "schema-id" !in doc.rest && ReadFieldIds(doc.rest, "id") == ReloadFieldIds(doc.detail)
  }

  predicate SpecFits(doc: FamilyDoc) {
    "spec-id" !in doc.rest && ReadFieldIds(doc.rest, "field-id") == ReloadFieldIds(doc.detail)
  }

  predicate OrderFits(doc: FamilyDoc) {
    "order-id" !in doc.rest && doc.detail == None
  }

  predicate SnapshotFits(doc: SnapshotDoc) {
    "snapshot-id" !in doc.rest && "timestamp-ms" !in doc.rest && "sequence-number" !in doc.rest
  }

  predicate LogFits(doc: Doc<int, Option<int>>) {
    "snapshot-id" !in doc.rest && "timestamp-ms" !in doc.rest
  }

  predicate StatisticFits(doc: StatDoc) {
    "snapshot-id" !in doc.rest
  }

  predicate KeyFits(doc: KeyDoc) {
    "key-id" !in doc.rest
  }

  predicate RefsFit(s: Slot<map<string, Ref>>) {
    match s
    case Absent => true
    case Foreign(raw) => !raw.Obj?
    case Is(refs) => forall name :: name in refs && refs[name].LooseRef? ==> !refs[name].raw.Obj?
  }

  predicate CoreFits(m: Metadata) {
    Fits(m.tableUuid, ReadText) && Fits(m.formatVersion, ReadNumber) && Fits(m.location, ReadText) && Fits(m.lastUpdatedMs, ReadNumber)
  }

  predicate FamilyFits(f: Family, fits: FamilyDoc -> bool) {
    ItemsFit(f.entries, fits) && Fits(f.pointer, ReadNumber) && Fits(f.lastFieldId, ReadNumber)
  }

  predicate SnapshotsFit(s: Snapshots) {
    && ItemsFit(s.list, SnapshotFits) && Fits(s.current, ReadNumber) && RefsFit(s.refs)
    && ItemsFit(s.log, LogFits) && Fits(s.lastSequence, ReadNumber)
  }

  predicate OthersFit(m: Metadata) {
    && ItemsFit(m.statistics, StatisticFits) && ItemsFit(m.partitionStatistics, StatisticFits)
    && Fits(m.properties, ReadMap) && ItemsFit(m.encryptionKeys, KeyFits)
    && KeptApart(m.other)
  }

  /** None of the members the engine looks at. */
  predicate KeptApart(o: map<string, Json>) {
    o.Keys !! NAMES
  }

  /** The parts of the metadata are told apart as the engine would tell them apart in its JSON object. */
  predicate Presents(m: Metadata) {
    && CoreFits(m) && FamilyFits(m.schemas, SchemaFits) && FamilyFits(m.specs, SpecFits)
    && FamilyFits(m.sortOrders, OrderFits) && m.sortOrders.lastFieldId.Absent?
    && SnapshotsFit(m.snaps) && OthersFit(m)
  }

  // ---------------------------------------------------------------- one document

  lemma IntReadBack(o: map<string, Json>, name: string, n: Option<int>)
    requires name !in o
    ensures ReadInt(PutInt(o, name, n), name) == ReloadOption(n)
    ensures PutInt(o, name, n) - {name} == o
    ensures forall other :: other != name ==> ReadInt(PutInt(o, name, n), other) == ReadInt(o, other)
    ensures forall other :: other != name ==> (other in PutInt(o, name, n) <==> other in o)
  {
    hide ReadInt64;
  }

  lemma FieldsElsewhere(o: map<string, Json>, name: string, n: Option<int>, idMember: string)
    requires |name| > 6
    ensures ReadFieldIds(PutInt(o, name, n), idMember) == ReadFieldIds(o, idMember)
  {
    hide ReadInt;
    assert |"fields"| == 6;
  }

  lemma SchemaReadBack(doc: FamilyDoc)
    requires SchemaFits(doc)
    ensures SchemaView(WriteSchema(doc)) == Doc(ReloadOption(doc.key), ReloadFieldIds(doc.detail), ReloadMembers(doc.rest))
  {
    hide ReadInt, PutInt, ReadFieldIds, ReloadMembers;
    IntReadBack(doc.rest, "schema-id", doc.key);
    FieldsElsewhere(doc.rest, "schema-id", doc.key, "id");
  }

  lemma SpecReadBack(doc: FamilyDoc)
    requires SpecFits(doc)
    ensures SpecView(WriteSpec(doc)) == Doc(ReloadOption(doc.key), ReloadFieldIds(doc.detail), ReloadMembers(doc.rest))
  {
    hide ReadInt, PutInt, ReadFieldIds, ReloadMembers;
    IntReadBack(doc.rest, "spec-id", doc.key);
    FieldsElsewhere(doc.rest, "spec-id", doc.key, "field-id");
  }

  lemma OrderReadBack(doc: FamilyDoc)
    requires OrderFits(doc)
    ensures SortOrderView(WriteOrder(doc)) == Doc(ReloadOption(doc.key), ReloadFieldIds(doc.detail), ReloadMembers(doc.rest))
  {
    hide ReadInt, PutInt, ReloadMembers;
    IntReadBack(doc.rest, "order-id", doc.key);
  }

  lemma SnapshotReadBack(doc: SnapshotDoc)
    requires SnapshotFits(doc)
    ensures SnapshotView(WriteSnapshot(doc))
         == Doc(ReloadOption(doc.key), ReloadSnapshotDetail(doc.detail), ReloadMembers(doc.rest))
  {
    hide ReadInt, PutInt, ReloadMembers;
    var a, b, c := "snapshot-id", "timestamp-ms", "sequence-number";
    assert |a| == 11 && |b| == 12 && |c| == 15;
    var o1 := PutInt(doc.rest, a, doc.key);
    var o2 := PutInt(o1, b, doc.detail.timestampMs);
    var o3 := PutInt(o2, c, doc.detail.sequenceNumber);
    IntReadBack(doc.rest, a, doc.key);
    IntReadBack(o1, b, doc.detail.timestampMs);
    IntReadBack(o2, c, doc.detail.sequenceNumber);
    assert o3 - {a, b, c} == o3 - {c} - {b} - {a};
  }

  lemma LogReadBack(doc: Doc<int, Option<int>>)
    requires LogFits(doc)
    ensures LogView(WriteLogEntry(doc)) == Doc(ReloadOption(doc.key), ReloadOption(doc.detail), ReloadMembers(doc.rest))
  {
    hide ReadInt, PutInt, ReloadMembers;
    var a, b := "snapshot-id", "timestamp-ms";
    assert |a| == 11 && |b| == 12;
    var o1 := PutInt(doc.rest, a, doc.key);
    IntReadBack(doc.rest, a, doc.key);
    IntReadBack(o1, b, doc.detail);
    assert PutInt(o1, b, doc.detail) - {a, b} == PutInt(o1, b, doc.detail) - {b} - {a};
  }

  lemma StatisticReadBack(doc: StatDoc)
    requires StatisticFits(doc)
    ensures StatView(WriteStatistic(doc)) == Doc(ReloadOption(doc.key), Same(doc.detail), ReloadMembers(doc.rest))
  {
    assert doc.detail == ();
    hide ReadInt, PutInt, ReloadMembers;
    IntReadBack(doc.rest, "snapshot-id", doc.key);
  }

  lemma KeyReadBack(doc: KeyDoc)
    requires KeyFits(doc)
    ensures KeyView(WriteKey(doc)) == Doc(Same(doc.key), Same(doc.detail), ReloadMembers(doc.rest))
  {
    assert doc.detail == ();
    hide ReloadMembers;
    assert WriteKey(doc) - {"key-id"} == doc.rest;
  }

  lemma FourReadBack(o: map<string, Json>, a: string, m: Option<int>, b: string, n: Option<int>, c: string, p: Option<int>,
                     d: string, q: Option<int>, other: string)
    requires a !in o && b !in o && c !in o && d !in o
    requires a != b && a != c && a != d && b != c && b != d && c != d && other != a && other != b && other != c && other != d
    ensures var all := PutInt(PutInt(PutInt(PutInt(o, a, m), b, n), c, p), d, q);
            && ReadInt(all, a) == ReloadOption(m) && ReadInt(all, b) == ReloadOption(n)
            && ReadInt(all, c) == ReloadOption(p) && ReadInt(all, d) == ReloadOption(q)
            && (other in all <==> other in o) && (other in o ==> all[other] == o[other])
  {
    hide ReadInt, PutInt, ReloadOption;
    var o1 := PutInt(o, a, m);
    var o2 := PutInt(o1, b, n);
    var o3 := PutInt(o2, c, p);
    IntReadBack(o, a, m);
    IntReadBack(o1, b, n);
    IntReadBack(o2, c, p);
    IntReadBack(o3, d, q);
    PutElsewhere(o, a, m, other);
    PutElsewhere(o1, b, n, other);
    PutElsewhere(o2, c, p, other);
    PutElsewhere(o3, d, q, other);
  }

  lemma RefReadBack(r: Ref)
    requires r.LooseRef? ==> !r.raw.Obj?
    ensures ReadRef(WriteRef(r)) == ReloadRef(r)
  {
    hide ReadInt, PutInt, ReloadOption;
    if r.Ref? {
      var a, b, c, d := "snapshot-id", "max-ref-age-ms", "max-snapshot-age-ms", "min-snapshots-to-keep";
      assert |a| == 11 && |b| == 14 && |c| == 19 && |d| == 21 && |"type"| == 4;
      var o: map<string, Json> := if r.kind.Some? then map["type" := Str(r.kind.value)] else map[];
      FourReadBack(o, a, r.snapshotId, b, r.retention.maxRefAgeMs, c, r.retention.maxSnapshotAgeMs,
                   d, r.retention.minSnapshotsToKeep, "type");
    }
  }

  lemma PutElsewhere(o: map<string, Json>, name: string, n: Option<int>, other: string)
    requires other != name
    ensures other in PutInt(o, name, n) <==> other in o
    ensures other in o ==> PutInt(o, name, n)[other] == o[other]
  {
  }

  // ---------------------------------------------------------------- lists and maps of documents

  lemma ItemsReadBack<K, D>(s: Slot<seq<Item<K, D>>>, write: Doc<K, D> -> map<string, Json>,
                            view: map<string, Json> -> Doc<K, D>, fits: Doc<K, D> -> bool,
                            key: Option<K> -> Option<K>, detail: D -> D)
    requires s.Is? && ItemsFit(s, fits)
    requires forall doc: Doc<K, D> :: fits(doc) ==>
               view(write(doc)) == Doc(key(doc.key), detail(doc.detail), ReloadMembers(doc.rest))
    ensures ReadItems(WriteItems(s.value, write), view) == Some(ReloadItems(s, key, detail).value)
  {
    hide ReloadMembers, ReloadJson;
    var items := s.value;
    var read, again := ReadItems(WriteItems(items, write), view).value, ReloadItems(s, key, detail).value;
    forall i | 0 <= i < |items| ensures read[i] == again[i] {
      assert ItemFits(items[i], fits);
    }
    assert read == again;
  }

  lemma RefsReadBack(refs: map<string, Ref>)
    requires RefsFit(Is(refs))
    ensures ReadRefMap(WriteRefs(refs)) == Some(ReloadRefs(Is(refs)).value)
  {
    hide ReadRef, WriteRef, ReloadRef;
    var read, again := ReadRefMap(WriteRefs(refs)).value, ReloadRefs(Is(refs)).value;
    forall name | name in refs ensures read[name] == again[name] { RefReadBack(refs[name]); }
    assert read.Keys == refs.Keys && again.Keys == refs.Keys;
    assert read == again;
  }

  // ---------------------------------------------------------------- one member

  ghost predicate SameBut(o: map<string, Json>, p: map<string, Json>, names: set<string>) {
    forall name :: name !in names ==> (name in o <==> name in p) && (name in o ==> o[name] == p[name])
  }

  /** A slot that is written under a new name is read there, and nothing else is read differently. */
  lemma SlotReadBack<T>(o: map<string, Json>, name: string, s: Slot<T>, enc: T -> Json, read: Json -> Option<T>, again: Slot<T>)
    requires name !in o && Fits(s, read)
    requires s.Is? ==> read(enc(s.value)).Some? && again == Is(read(enc(s.value)).value)
    requires !s.Is? ==> again == ReloadForeign(s)
    ensures View(Put(o, name, s, enc), name, read) == again
    ensures SameBut(o, Put(o, name, s, enc), {name})
  {
  }

  lemma TextReadBack(o: map<string, Json>, name: string, s: Slot<string>)
    requires name !in o && Fits(s, ReadText)
    ensures View(Put(o, name, s, WriteText), name, ReadText) == ReloadForeign(s)
    ensures SameBut(o, Put(o, name, s, WriteText), {name})
  {
    hide View, Put, Fits, SameBut, ReloadJson;
    SlotReadBack(o, name, s, WriteText, ReadText, ReloadForeign(s));
  }

  lemma NumberReadBack(o: map<string, Json>, name: string, s: Slot<int>)
    requires name !in o && Fits(s, ReadNumber)
    ensures View(Put(o, name, s, WriteNumber), name, ReadNumber) == ReloadSlot(s)
    ensures SameBut(o, Put(o, name, s, WriteNumber), {name})
  {
    hide View, Put, Fits, SameBut, ReadInt64, ReloadJson;
    SlotReadBack(o, name, s, WriteNumber, ReadNumber, ReloadSlot(s));
  }

  lemma MapReadBack(o: map<string, Json>, name: string, s: Slot<map<string, Json>>)
    requires name !in o && Fits(s, ReadMap)
    ensures View(Put(o, name, s, WriteMap), name, ReadMap) == ReloadProperties(s)
    ensures SameBut(o, Put(o, name, s, WriteMap), {name})
  {
    hide View, Put, Fits, SameBut, ReloadMembers, ReloadJson;
    SlotReadBack(o, name, s, WriteMap, ReadMap, ReloadProperties(s));
  }

  lemma RefMapReadBack(o: map<string, Json>, name: string, s: Slot<map<string, Ref>>)
    requires name !in o && RefsFit(s)
    ensures View(Put(o, name, s, WriteRefs), name, ReadRefMap) == ReloadRefs(s)
    ensures SameBut(o, Put(o, name, s, WriteRefs), {name})
  {
    hide View, Put, SameBut, ReloadRef, ReloadJson, WriteRef, ReadRef;
    if s.Is? { RefsReadBack(s.value); }
    SlotReadBack(o, name, s, WriteRefs, ReadRefMap, ReloadRefs(s));
  }

  lemma ListReadBack<K, D>(o: map<string, Json>, name: string, s: Slot<seq<Item<K, D>>>, enc: seq<Item<K, D>> -> Json,
                           read: Json -> Option<seq<Item<K, D>>>, write: Doc<K, D> -> map<string, Json>,
                           view: map<string, Json> -> Doc<K, D>, fits: Doc<K, D> -> bool,
                           key: Option<K> -> Option<K>, detail: D -> D)
    requires name !in o && ItemsFit(s, fits)
    requires forall items :: enc(items) == WriteItems(items, write)
    requires forall j :: read(j) == ReadItems(j, view)
    requires forall doc: Doc<K, D> :: fits(doc) ==>
               view(write(doc)) == Doc(key(doc.key), detail(doc.detail), ReloadMembers(doc.rest))
    ensures View(Put(o, name, s, enc), name, read) == ReloadItems(s, key, detail)
    ensures SameBut(o, Put(o, name, s, enc), {name})
  {
    hide View, Put, SameBut, ReloadJson, ReloadMembers, ReloadItem, ReadItem, WriteItem, ItemFits;
    if s.Is? { ItemsReadBack(s, write, view, fits, key, detail); }
    SlotReadBack(o, name, s, enc, read, ReloadItems(s, key, detail));
  }

  lemma SchemasReadBack(o: map<string, Json>, s: Slot<seq<FamilyItem>>)
    requires SCHEMAS !in o && ItemsFit(s, SchemaFits)
    ensures View(Put(o, SCHEMAS, s, WriteSchemas), SCHEMAS, ReadSchemas) == ReloadList(s, ReloadFieldIds)
    ensures SameBut(o, Put(o, SCHEMAS, s, WriteSchemas), {SCHEMAS})
  {
    hide View, Put, SameBut, ItemsFit, SchemaFits, SchemaView, WriteSchema, ReloadItems, ReadItems, WriteItems, ReloadMembers;
    forall doc | SchemaFits(doc)
      ensures SchemaView(WriteSchema(doc)) == Doc(ReloadOption(doc.key), ReloadFieldIds(doc.detail), ReloadMembers(doc.rest))
    {
      SchemaReadBack(doc);
    }
    ListReadBack(o, SCHEMAS, s, WriteSchemas, ReadSchemas, WriteSchema, SchemaView, SchemaFits, ReloadOption, ReloadFieldIds);
  }
  lemma SpecsReadBack(o: map<string, Json>, s: Slot<seq<FamilyItem>>)
    requires SPECS !in o && ItemsFit(s, SpecFits)
    ensures View(Put(o, SPECS, s, WriteSpecs), SPECS, ReadSpecs) == ReloadList(s, ReloadFieldIds)
    ensures SameBut(o, Put(o, SPECS, s, WriteSpecs), {SPECS})
  {
    hide View, Put, SameBut, ItemsFit, SpecFits, SpecView, WriteSpec, ReloadItems, ReadItems, WriteItems, ReloadMembers;
    forall doc | SpecFits(doc)
      ensures SpecView(WriteSpec(doc)) == Doc(ReloadOption(doc.key), ReloadFieldIds(doc.detail), ReloadMembers(doc.rest))
    {
      SpecReadBack(doc);
    }
    ListReadBack(o, SPECS, s, WriteSpecs, ReadSpecs, WriteSpec, SpecView, SpecFits, ReloadOption, ReloadFieldIds);
  }

  lemma OrdersReadBack(o: map<string, Json>, s: Slot<seq<FamilyItem>>)
    requires ORDERS !in o && ItemsFit(s, OrderFits)
    ensures View(Put(o, ORDERS, s, WriteOrders), ORDERS, ReadOrders) == ReloadList(s, ReloadFieldIds)
    ensures SameBut(o, Put(o, ORDERS, s, WriteOrders), {ORDERS})
  {
    hide View, Put, SameBut, ItemsFit, OrderFits, SortOrderView, WriteOrder, ReloadItems, ReadItems, WriteItems, ReloadMembers;
    forall doc | OrderFits(doc)
      ensures SortOrderView(WriteOrder(doc)) == Doc(ReloadOption(doc.key), ReloadFieldIds(doc.detail), ReloadMembers(doc.rest))
    {
      OrderReadBack(doc);
    }
    ListReadBack(o, ORDERS, s, WriteOrders, ReadOrders, WriteOrder, SortOrderView, OrderFits, ReloadOption, ReloadFieldIds);
  }

  lemma SnapshotListReadBack(o: map<string, Json>, s: Slot<seq<SnapshotItem>>)
    requires SNAPSHOTS !in o && ItemsFit(s, SnapshotFits)
    ensures View(Put(o, SNAPSHOTS, s, WriteSnapshots), SNAPSHOTS, ReadSnapshots) == ReloadList(s, ReloadSnapshotDetail)
    ensures SameBut(o, Put(o, SNAPSHOTS, s, WriteSnapshots), {SNAPSHOTS})
  {
    hide View, Put, SameBut, ItemsFit, SnapshotFits, SnapshotView, WriteSnapshot, ReloadItems, ReadItems, WriteItems, ReloadMembers;
    forall doc | SnapshotFits(doc)
      ensures SnapshotView(WriteSnapshot(doc)) == Doc(ReloadOption(doc.key), ReloadSnapshotDetail(doc.detail), ReloadMembers(doc.rest))
    {
      SnapshotReadBack(doc);
    }
    ListReadBack(o, SNAPSHOTS, s, WriteSnapshots, ReadSnapshots, WriteSnapshot, SnapshotView, SnapshotFits, ReloadOption, ReloadSnapshotDetail);
  }

  lemma LogListReadBack(o: map<string, Json>, s: Slot<seq<LogItem>>)
    requires LOG !in o && ItemsFit(s, LogFits)
    ensures View(Put(o, LOG, s, WriteLog), LOG, ReadLog) == ReloadList(s, ReloadOption)
    ensures SameBut(o, Put(o, LOG, s, WriteLog), {LOG})
  {
    hide View, Put, SameBut, ItemsFit, LogFits, LogView, WriteLogEntry, ReloadItems, ReadItems, WriteItems, ReloadMembers;
    forall doc | LogFits(doc)
      ensures LogView(WriteLogEntry(doc)) == Doc(ReloadOption(doc.key), ReloadOption(doc.detail), ReloadMembers(doc.rest))
    {
      LogReadBack(doc);
    }
    ListReadBack(o, LOG, s, WriteLog, ReadLog, WriteLogEntry, LogView, LogFits, ReloadOption, ReloadOption);
  }

  lemma StatisticsReadBack(o: map<string, Json>, name: string, s: Slot<seq<StatItem>>)
    requires name !in o && ItemsFit(s, StatisticFits)
    ensures View(Put(o, name, s, WriteStatistics), name, ReadStatistics) == ReloadList(s, Same)
    ensures SameBut(o, Put(o, name, s, WriteStatistics), {name})
  {
    hide View, Put, SameBut, ItemsFit, StatisticFits, StatView, WriteStatistic, ReloadItems, ReadItems, WriteItems, ReloadMembers;
    forall doc | StatisticFits(doc)
      ensures StatView(WriteStatistic(doc)) == Doc(ReloadOption(doc.key), Same(doc.detail), ReloadMembers(doc.rest))
    {
      StatisticReadBack(doc);
    }
    ListReadBack(o, name, s, WriteStatistics, ReadStatistics, WriteStatistic, StatView, StatisticFits, ReloadOption, Same);
  }

  lemma KeysReadBack(o: map<string, Json>, s: Slot<seq<KeyItem>>)
    requires KEYS !in o && ItemsFit(s, KeyFits)
    ensures View(Put(o, KEYS, s, WriteKeys), KEYS, ReadKeys) == ReloadItems(s, Same, Same)
    ensures SameBut(o, Put(o, KEYS, s, WriteKeys), {KEYS})
  {
    hide View, Put, SameBut, ItemsFit, KeyFits, KeyView, WriteKey, ReloadItems, ReadItems, WriteItems, ReloadMembers;
    forall doc | KeyFits(doc)
      ensures KeyView(WriteKey(doc)) == Doc(Same(doc.key), Same(doc.detail), ReloadMembers(doc.rest))
    {
      KeyReadBack(doc);
    }
    ListReadBack(o, KEYS, s, WriteKeys, ReadKeys, WriteKey, KeyView, KeyFits, Same, Same);
  }

  // ---------------------------------------------------------------- the whole object

  lemma ViewsStay<T>(o: map<string, Json>, p: map<string, Json>, names: set<string>)
    requires SameBut(o, p, names)
    ensures forall name, read: Json -> Option<T> {:trigger View(p, name, read)} :: name !in names ==> View(p, name, read) == View(o, name, read)
  {
  }

  lemma SameButBoth(o: map<string, Json>, p: map<string, Json>, q: map<string, Json>, a: set<string>, b: set<string>)
    requires SameBut(o, p, a) && SameBut(p, q, b)
    ensures SameBut(o, q, a + b)
  {
  }

  lemma CoreReadBack(o: map<string, Json>, m: Metadata)
    requires o.Keys !! CORE_NAMES && CoreFits(m)
    ensures var p := PutCore(o, m);
            && View(p, UUID, ReadText) == ReloadForeign(m.tableUuid) && View(p, FORMAT, ReadNumber) == ReloadSlot(m.formatVersion)
            && View(p, LOCATION, ReadText) == ReloadForeign(m.location) && View(p, UPDATED, ReadNumber) == ReloadSlot(m.lastUpdatedMs)
            && SameBut(o, p, CORE_NAMES)
  {
    hide View, Put, Fits, Print;
    NamesApart();
    var o1 := Put(o, UUID, m.tableUuid, WriteText);
    var o2 := Put(o1, FORMAT, m.formatVersion, WriteNumber);
    var o3 := Put(o2, LOCATION, m.location, WriteText);
    TextReadBack(o, UUID, m.tableUuid);
    NumberReadBack(o1, FORMAT, m.formatVersion);
    TextReadBack(o2, LOCATION, m.location);
    NumberReadBack(o3, UPDATED, m.lastUpdatedMs);
    ViewsStay<string>(o1, PutCore(o, m), {FORMAT, LOCATION, UPDATED});
    ViewsStay<int>(o2, PutCore(o, m), {LOCATION, UPDATED});
    ViewsStay<string>(o3, PutCore(o, m), {UPDATED});
  }

  lemma SchemasObject(o: map<string, Json>, f: Family)
    requires o.Keys !! SCHEMA_NAMES && FamilyFits(f, SchemaFits)
    ensures SchemasView(PutSchemas(o, f)) == ReloadFamily(f) && SameBut(o, PutSchemas(o, f), SCHEMA_NAMES)
  {
    hide View, Put, Fits, Print, ItemsFit, ReloadItems, ReloadSlot;
    NamesApart();
    var o1 := Put(o, SCHEMAS, f.entries, WriteSchemas);
    SchemasReadBack(o, f.entries);
    NumberReadBack(o1, CURRENT_SCHEMA, f.pointer);
    var o2 := Put(o1, CURRENT_SCHEMA, f.pointer, WriteNumber);
    NumberReadBack(o2, LAST_COLUMN, f.lastFieldId);
    ViewsStay<seq<FamilyItem>>(o1, PutSchemas(o, f), {CURRENT_SCHEMA, LAST_COLUMN});
    ViewsStay<int>(o2, PutSchemas(o, f), {LAST_COLUMN});
  }

  lemma SpecsObject(o: map<string, Json>, f: Family)
    requires o.Keys !! SPEC_NAMES && FamilyFits(f, SpecFits)
    ensures SpecsView(PutSpecs(o, f)) == ReloadFamily(f) && SameBut(o, PutSpecs(o, f), SPEC_NAMES)
  {
    hide View, Put, Fits, Print, ItemsFit, ReloadItems, ReloadSlot;
    NamesApart();
    var o1 := Put(o, SPECS, f.entries, WriteSpecs);
    SpecsReadBack(o, f.entries);
    NumberReadBack(o1, DEFAULT_SPEC, f.pointer);
    var o2 := Put(o1, DEFAULT_SPEC, f.pointer, WriteNumber);
    NumberReadBack(o2, LAST_PARTITION, f.lastFieldId);
    ViewsStay<seq<FamilyItem>>(o1, PutSpecs(o, f), {DEFAULT_SPEC, LAST_PARTITION});
    ViewsStay<int>(o2, PutSpecs(o, f), {LAST_PARTITION});
  }

  lemma OrdersObject(o: map<string, Json>, f: Family)
    requires o.Keys !! ORDER_NAMES && FamilyFits(f, OrderFits) && f.lastFieldId.Absent?
    ensures OrdersView(PutOrders(o, f)) == ReloadFamily(f) && SameBut(o, PutOrders(o, f), ORDER_NAMES)
  {
    hide View, Put, Fits, Print, ItemsFit, ReloadItems;
    NamesApart();
    var o1 := Put(o, ORDERS, f.entries, WriteOrders);
    OrdersReadBack(o, f.entries);
    NumberReadBack(o1, DEFAULT_ORDER, f.pointer);
    ViewsStay<seq<FamilyItem>>(o1, PutOrders(o, f), {DEFAULT_ORDER});
  }

  lemma SnapshotsObject(o: map<string, Json>, s: Snapshots)
    requires o.Keys !! SNAPSHOT_NAMES && SnapshotsFit(s)
    ensures SnapshotsView(PutSnapshots(o, s)) == ReloadSnapshots(s) && SameBut(o, PutSnapshots(o, s), SNAPSHOT_NAMES)
  {
    hide View, Put, Fits, Print, ItemsFit, RefsFit, ReloadItems, ReloadSlot, ReloadRefs;
    NamesApart();
    var p := PutSnapshots(o, s);
    var o1 := Put(o, SNAPSHOTS, s.list, WriteSnapshots);
    var o2 := Put(o1, CURRENT_SNAPSHOT, s.current, WriteNumber);
    var o3 := Put(o2, REFS, s.refs, WriteRefs);
    var o4 := Put(o3, LOG, s.log, WriteLog);
    SnapshotListReadBack(o, s.list);
    NumberReadBack(o1, CURRENT_SNAPSHOT, s.current);
    RefMapReadBack(o2, REFS, s.refs);
    LogListReadBack(o3, s.log);
    NumberReadBack(o4, LAST_SEQUENCE, s.lastSequence);
    ViewsStay<seq<SnapshotItem>>(o1, p, {CURRENT_SNAPSHOT, REFS, LOG, LAST_SEQUENCE});
    ViewsStay<int>(o2, p, {REFS, LOG, LAST_SEQUENCE});
    ViewsStay<map<string, Ref>>(o3, p, {LOG, LAST_SEQUENCE});
    ViewsStay<seq<LogItem>>(o4, p, {LAST_SEQUENCE});
  }

  lemma StatisticsObject(o: map<string, Json>, m: Metadata)
    requires o.Keys !! STATISTICS_NAMES && ItemsFit(m.statistics, StatisticFits) && ItemsFit(m.partitionStatistics, StatisticFits)
    ensures var p := PutStatistics(o, m);
            && View(p, STATISTICS, ReadStatistics) == ReloadList(m.statistics, Same)
            && View(p, PARTITION_STATISTICS, ReadStatistics) == ReloadList(m.partitionStatistics, Same)
            && SameBut(o, p, STATISTICS_NAMES)
  {
    hide View, Put, Print, ItemsFit, ReloadItems;
    NamesApart();
    var o1 := Put(o, STATISTICS, m.statistics, WriteStatistics);
    StatisticsReadBack(o, STATISTICS, m.statistics);
    StatisticsReadBack(o1, PARTITION_STATISTICS, m.partitionStatistics);
    ViewsStay<seq<StatItem>>(o1, PutStatistics(o, m), {PARTITION_STATISTICS});
  }

  lemma MapsObject(o: map<string, Json>, m: Metadata)
    requires o.Keys !! MAP_NAMES && Fits(m.properties, ReadMap) && ItemsFit(m.encryptionKeys, KeyFits)
    ensures var p := PutMaps(o, m);
            && View(p, PROPERTIES, ReadMap) == ReloadProperties(m.properties)
            && View(p, KEYS, ReadKeys) == ReloadItems(m.encryptionKeys, Same, Same)
            && SameBut(o, p, MAP_NAMES)
  {
    hide View, Put, Fits, Print, ItemsFit, ReloadItems, ReloadProperties;
    NamesApart();
    var o1 := Put(o, PROPERTIES, m.properties, WriteMap);
    MapReadBack(o, PROPERTIES, m.properties);
    KeysReadBack(o1, m.encryptionKeys);
    ViewsStay<map<string, Json>>(o1, PutMaps(o, m), {KEYS});
  }

  /** Members read by one of the views are not touched by writing the others. */
  lemma ObjectsStay(o: map<string, Json>, p: map<string, Json>, names: set<string>)
    requires SameBut(o, p, names)
    ensures names !! SCHEMA_NAMES ==> SchemasView(p) == SchemasView(o)
    ensures names !! SPEC_NAMES ==> SpecsView(p) == SpecsView(o)
    ensures names !! ORDER_NAMES ==> OrdersView(p) == OrdersView(o)
    ensures names !! SNAPSHOT_NAMES ==> SnapshotsView(p) == SnapshotsView(o)
  {
    hide View;
    ViewsStay<seq<FamilyItem>>(o, p, names);
    ViewsStay<seq<SnapshotItem>>(o, p, names);
    ViewsStay<map<string, Ref>>(o, p, names);
    ViewsStay<seq<LogItem>>(o, p, names);
    ViewsStay<int>(o, p, names);
  }

  /** The names of this group and the later ones. */
  function From(g: nat): set<string> {
    set name | name in NAMES && Group(name) >= g
  }

  /** One more group is written: the earlier ones stay, the later ones are still to come. */
  lemma GroupWritten(o: map<string, Json>, p: map<string, Json>, names: set<string>, g: nat)
    requires SameBut(o, p, names) && names <= NAMES && forall name :: name in names ==> Group(name) == g
    requires o.Keys !! From(g)
    ensures p.Keys !! From(g + 1) && SameBut(o, p, From(g))
  {
    hide Group;
  }

  lemma GroupsWritten(o: map<string, Json>, p: map<string, Json>, q: map<string, Json>, g: nat)
    requires SameBut(o, p, From(g)) && SameBut(p, q, From(g + 1))
    ensures SameBut(o, q, From(g))
  {
    hide Group;
  }

  lemma GroupIsFree(o: map<string, Json>, names: set<string>, g: nat)
    requires o.Keys !! From(g) && names <= NAMES && forall name :: name in names ==> Group(name) == g
    ensures o.Keys !! names && forall h: nat :: h > g ==> From(h) !! names
  {
    hide Group;
  }

  /** Each stage of writing, and that the finished object keeps what earlier stages wrote. */
  lemma Stages(m: Metadata) returns (o1: map<string, Json>, o2: map<string, Json>, o3: map<string, Json>,
                                     o4: map<string, Json>, o5: map<string, Json>, o6: map<string, Json>, o7: map<string, Json>)
    requires Presents(m)
    ensures o1 == PutCore(m.other, m) && m.other.Keys !! CORE_NAMES && SameBut(o1, o7, From(1)) && From(1) !! CORE_NAMES
    ensures o2 == PutSchemas(o1, m.schemas) && o1.Keys !! SCHEMA_NAMES && SameBut(o2, o7, From(2)) && From(2) !! SCHEMA_NAMES
    ensures o3 == PutSpecs(o2, m.specs) && o2.Keys !! SPEC_NAMES && SameBut(o3, o7, From(3)) && From(3) !! SPEC_NAMES
    ensures o4 == PutOrders(o3, m.sortOrders) && o3.Keys !! ORDER_NAMES && SameBut(o4, o7, From(4)) && From(4) !! ORDER_NAMES
    ensures o5 == PutSnapshots(o4, m.snaps) && o4.Keys !! SNAPSHOT_NAMES && SameBut(o5, o7, From(5)) && From(5) !! SNAPSHOT_NAMES
    ensures o6 == PutStatistics(o5, m) && o5.Keys !! STATISTICS_NAMES && SameBut(o6, o7, From(6)) && From(6) !! STATISTICS_NAMES
    ensures o7 == PutMaps(o6, m) && o6.Keys !! MAP_NAMES && o7 == MetadataObject(m) && o7 - NAMES == m.other
  {
    hide Print, Group, CoreFits, FamilyFits, SnapshotsFit, ItemsFit, Fits, SameBut, From, View, PutCore, PutSchemas, PutSpecs,
      PutOrders, PutSnapshots, PutStatistics, PutMaps, SchemasView, SpecsView, OrdersView, SnapshotsView;
    GroupsApart();
    EverythingFree(m.other);
    GroupIsFree(m.other, CORE_NAMES, 0);
    CoreReadBack(m.other, m);
    o1 := PutCore(m.other, m);
    GroupWritten(m.other, o1, CORE_NAMES, 0);
    GroupIsFree(o1, SCHEMA_NAMES, 1);
    SchemasObject(o1, m.schemas);
    o2 := PutSchemas(o1, m.schemas);
    GroupWritten(o1, o2, SCHEMA_NAMES, 1);
    GroupIsFree(o2, SPEC_NAMES, 2);
    SpecsObject(o2, m.specs);
    o3 := PutSpecs(o2, m.specs);
    GroupWritten(o2, o3, SPEC_NAMES, 2);
    GroupIsFree(o3, ORDER_NAMES, 3);
    OrdersObject(o3, m.sortOrders);
    o4 := PutOrders(o3, m.sortOrders);
    GroupWritten(o3, o4, ORDER_NAMES, 3);
    GroupIsFree(o4, SNAPSHOT_NAMES, 4);
    SnapshotsObject(o4, m.snaps);
    o5 := PutSnapshots(o4, m.snaps);
    GroupWritten(o4, o5, SNAPSHOT_NAMES, 4);
    GroupIsFree(o5, STATISTICS_NAMES, 5);
    StatisticsObject(o5, m);
    o6 := PutStatistics(o5, m);
    GroupWritten(o5, o6, STATISTICS_NAMES, 5);
    GroupIsFree(o6, MAP_NAMES, 6);
    MapsObject(o6, m);
    o7 := PutMaps(o6, m);
    GroupWritten(o6, o7, MAP_NAMES, 6);
    GroupsWritten(o5, o6, o7, 5);
    GroupsWritten(o4, o5, o7, 4);
    GroupsWritten(o3, o4, o7, 3);
    GroupsWritten(o2, o3, o7, 2);
    GroupsWritten(o1, o2, o7, 1);
    GroupsWritten(m.other, o1, o7, 0);
    OthersLeft(m.other, o7);
  }

  lemma EverythingFree(o: map<string, Json>)
    requires o.Keys !! NAMES
    ensures o.Keys !! From(0)
  {
    hide Group;
  }

  lemma OthersLeft(o: map<string, Json>, p: map<string, Json>)
    requires o.Keys !! NAMES && SameBut(o, p, From(0))
    ensures p - NAMES == o
  {
    hide Group;
    assert (p - NAMES).Keys == o.Keys;
  }

  /** Everything below the statistics, as it is read in the finished object. */
  lemma TablesReadBack(m: Metadata, o1: map<string, Json>, o2: map<string, Json>, o3: map<string, Json>, o4: map<string, Json>,
                       o5: map<string, Json>, o7: map<string, Json>)
    requires FamilyFits(m.schemas, SchemaFits) && FamilyFits(m.specs, SpecFits) && FamilyFits(m.sortOrders, OrderFits)
    requires m.sortOrders.lastFieldId.Absent? && SnapshotsFit(m.snaps)
    requires o2 == PutSchemas(o1, m.schemas) && o1.Keys !! SCHEMA_NAMES && SameBut(o2, o7, From(2)) && From(2) !! SCHEMA_NAMES
    requires o3 == PutSpecs(o2, m.specs) && o2.Keys !! SPEC_NAMES && SameBut(o3, o7, From(3)) && From(3) !! SPEC_NAMES
    requires o4 == PutOrders(o3, m.sortOrders) && o3.Keys !! ORDER_NAMES && SameBut(o4, o7, From(4)) && From(4) !! ORDER_NAMES
    requires o5 == PutSnapshots(o4, m.snaps) && o4.Keys !! SNAPSHOT_NAMES && SameBut(o5, o7, From(5)) && From(5) !! SNAPSHOT_NAMES
    ensures SchemasView(o7) == ReloadFamily(m.schemas) && SpecsView(o7) == ReloadFamily(m.specs)
    ensures OrdersView(o7) == ReloadFamily(m.sortOrders) && SnapshotsView(o7) == ReloadSnapshots(m.snaps)
  {
    hide *;
    SchemasObject(o1, m.schemas);
    SpecsObject(o2, m.specs);
    OrdersObject(o3, m.sortOrders);
    SnapshotsObject(o4, m.snaps);
    ObjectsStay(o2, o7, From(2));
    ObjectsStay(o3, o7, From(3));
    ObjectsStay(o4, o7, From(4));
    ObjectsStay(o5, o7, From(5));
  }

  /** And the rest. */
  lemma MembersReadBack(m: Metadata, o1: map<string, Json>, o5: map<string, Json>, o6: map<string, Json>, o7: map<string, Json>)
    requires CoreFits(m) && ItemsFit(m.statistics, StatisticFits) && ItemsFit(m.partitionStatistics, StatisticFits)
    requires Fits(m.properties, ReadMap) && ItemsFit(m.encryptionKeys, KeyFits)
    requires o1 == PutCore(m.other, m) && m.other.Keys !! CORE_NAMES && SameBut(o1, o7, From(1)) && From(1) !! CORE_NAMES
    requires o6 == PutStatistics(o5, m) && o5.Keys !! STATISTICS_NAMES && SameBut(o6, o7, From(6)) && From(6) !! STATISTICS_NAMES
    requires o7 == PutMaps(o6, m) && o6.Keys !! MAP_NAMES
    ensures View(o7, UUID, ReadText) == ReloadForeign(m.tableUuid) && View(o7, FORMAT, ReadNumber) == ReloadSlot(m.formatVersion)
    ensures View(o7, LOCATION, ReadText) == ReloadForeign(m.location) && View(o7, UPDATED, ReadNumber) == ReloadSlot(m.lastUpdatedMs)
    ensures View(o7, STATISTICS, ReadStatistics) == ReloadList(m.statistics, Same)
    ensures View(o7, PARTITION_STATISTICS, ReadStatistics) == ReloadList(m.partitionStatistics, Same)
    ensures View(o7, PROPERTIES, ReadMap) == ReloadProperties(m.properties)
    ensures View(o7, KEYS, ReadKeys) == ReloadItems(m.encryptionKeys, Same, Same)
  {
    hide View, SameBut, From, CoreFits, ItemsFit, Fits, PutCore, PutStatistics, PutMaps, ReloadItems, ReloadProperties,
      ReloadForeign, ReloadSlot;
    CoreReadBack(m.other, m);
    StatisticsObject(o5, m);
    MapsObject(o6, m);
    ViewsStay<string>(o1, o7, From(1));
    ViewsStay<int>(o1, o7, From(1));
    ViewsStay<seq<StatItem>>(o6, o7, From(6));
  }

  /** Reading back what was written is what `Reload` says: loading a row, and copying metadata, is
      `json.Marshal` followed by `json.Unmarshal`. */
  lemma ReloadIsWriteThenRead(m: Metadata)
    requires Presents(m)
    ensures MetadataView(MetadataObject(m)) == Reload(m)
  {
    var o1, o2, o3, o4, o5, o6, o7 := Stages(m);
    TablesReadBack(m, o1, o2, o3, o4, o5, o7);
    MembersReadBack(m, o1, o5, o6, o7);
    hide *;
    ReadAsReload(m, o7);
  }

  lemma ReadAsReload(m: Metadata, o: map<string, Json>)
    requires o - NAMES == m.other
    requires View(o, UUID, ReadText) == ReloadForeign(m.tableUuid) && View(o, FORMAT, ReadNumber) == ReloadSlot(m.formatVersion)
    requires View(o, LOCATION, ReadText) == ReloadForeign(m.location) && View(o, UPDATED, ReadNumber) == ReloadSlot(m.lastUpdatedMs)
    requires SchemasView(o) == ReloadFamily(m.schemas) && SpecsView(o) == ReloadFamily(m.specs)
    requires OrdersView(o) == ReloadFamily(m.sortOrders) && SnapshotsView(o) == ReloadSnapshots(m.snaps)
    requires View(o, STATISTICS, ReadStatistics) == ReloadList(m.statistics, Same)
    requires View(o, PARTITION_STATISTICS, ReadStatistics) == ReloadList(m.partitionStatistics, Same)
    requires View(o, PROPERTIES, ReadMap) == ReloadProperties(m.properties)
    requires View(o, KEYS, ReadKeys) == ReloadItems(m.encryptionKeys, Same, Same)
    ensures MetadataView(o) == Reload(m)
  {
    hide View, SchemasView, SpecsView, OrdersView, SnapshotsView, ReloadForeign, ReloadSlot, ReloadItems, ReloadProperties,
      ReloadFamily, ReloadSnapshots, ReloadMembers;
  }
}
