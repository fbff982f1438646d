/** What a created and a registered row contain. */
module InsertedRows {
  import opened Options
  import opened JsonValues
  import opened Binary64
  import opened TableMetadata
  import opened ItemLemmas
  import opened Commits
  import opened MetadataJson
  import opened Verdicts

  // ---------------------------------------------------------------- CreateTable

  function Columns(schema: map<string, Json>): seq<Json> {
    if "fields" in schema && schema["fields"].Arr? then schema["fields"].items else []
  }

  /** The id of a top-level column, if it can be read. */
  function ColumnId(column: Json): Option<int> {
    if column.Obj? then ReadInt(column.members, "id") else None
  }

  /** `last-column-id` of a new table: the largest readable id of a top-level column, and at least 0. */
  ghost predicate IsLastColumn(schema: map<string, Json>, n: int) {
    && n >= 0
    && (forall column :: column in Columns(schema) && ColumnId(column).Some? ==> ColumnId(column).value <= n)
    && (n == 0 || exists column :: column in Columns(schema) && ColumnId(column) == Some(n))
  }

  /** The metadata object `CreateTable` builds. */
  function CreatedObject(uuid: string, location: string, now: int, lastColumn: int, schema: map<string, Json>,
                         spec: Json, sortOrder: Json, properties: Json): map<string, Json>
  {
    map["format-version" := Num(2),
        "table-uuid" := Str(uuid),
        "location" := Str(location),
        "last-updated-ms" := Num(now),
        "last-column-id" := Num(lastColumn),
        "properties" := properties,
        "schemas" := Arr([Obj(schema)]),
        "current-schema-id" := Num(0),
        "partition-specs" := Arr([spec]),
        "default-spec-id" := Num(0),
        "sort-orders" := Arr([sortOrder]),
        "default-sort-order-id" := Num(0),
        "snapshots" := Arr([]),
        "snapshot-log" := Arr([]),
        "refs" := Obj(map[])]
  }

  lemma LastColumnIsLargest(schema: map<string, Json>, n: int)
    requires IsLastColumn(schema, n)
    ensures var fields := SchemaView(schema).detail; n == if fields.Some? then MaxFieldId(fields.value) else 0
  {
    hide ReadInt, ReloadMembers;
    var ids := SchemaView(schema).detail;
    if ids.Some? {
      var columns, top := Columns(schema), MaxFieldId(ids.value);
      assert forall i :: 0 <= i < |columns| ==> ids.value[i] == ColumnId(columns[i]);
      MaxFieldIdIsLargest(ids.value);
      if n > 0 {
        var column :| column in columns && ColumnId(column) == Some(n);
      }
      if top > 0 {
        var i :| 0 <= i < |ids.value| && ids.value[i] == Some(top);
        assert columns[i] in columns && ColumnId(columns[i]) == Some(top);
      }
    }
  }

  lemma {:induction false} MaxFieldIdIsLargest(ids: seq<Option<int>>)
    ensures MaxFieldId(ids) >= 0
    ensures forall i :: 0 <= i < |ids| && ids[i].Some? ==> ids[i].value <= MaxFieldId(ids)
    ensures MaxFieldId(ids) == 0 || Some(MaxFieldId(ids)) in ids
  {
    if ids != [] { MaxFieldIdIsLargest(ids[..|ids| - 1]); }
  }

  lemma OneItem<K, D>(j: Json, view: map<string, Json> -> Doc<K, D>)
    ensures ReadItems(Arr([j]), view) == Some([ReadItem(j, view)])
  {
    assert ReadItems(Arr([j]), view).value == [ReadItem(j, view)];
  }

  lemma SchemaItem(schema: map<string, Json>)
    ensures ReadItem(Obj(schema), SchemaView) == Object(SchemaView(schema))
  {
  }

  lemma NoItems<K, D>(view: map<string, Json> -> Doc<K, D>)
    ensures ReadItems(Arr([]), view) == Some([])
  {
    assert ReadItems(Arr([]), view).value == [];
  }

  lemma NoRefs()
    ensures ReadRefMap(Obj(map[])) == Some(map[])
  {
    assert ReadRefMap(Obj(map[])).value == map[];
  }

  lemma CreatedCore(uuid: string, location: string, now: int, lastColumn: int, schema: map<string, Json>,
                    spec: Json, sortOrder: Json, properties: Json)
    ensures var o := CreatedObject(uuid, location, now, lastColumn, schema, spec, sortOrder, properties);
            && View(o, UUID, ReadText) == Is(uuid) && View(o, FORMAT, ReadNumber) == Is(ReadInt64(2))
            && View(o, LOCATION, ReadText) == Is(location) && View(o, UPDATED, ReadNumber) == Is(ReadInt64(now))
  {
    hide ReadInt64, Print;
    NamesApart();
  }

  lemma CreatedFamilies(uuid: string, location: string, now: int, lastColumn: int, schema: map<string, Json>,
                        spec: Json, sortOrder: Json, properties: Json)
    ensures var o := CreatedObject(uuid, location, now, lastColumn, schema, spec, sortOrder, properties);
            && SchemasView(o) == Family(Is([Object(SchemaView(schema))]), Is(ReadInt64(0)), Is(ReadInt64(lastColumn)))
            && SpecsView(o) == Family(Is([ReadItem(spec, SpecView)]), Is(ReadInt64(0)), Absent)
            && OrdersView(o) == Family(Is([ReadItem(sortOrder, SortOrderView)]), Is(ReadInt64(0)), Absent)
  {
    hide ReadInt64, Print, ReadItem, ReadItems;
    NamesApart();
    OneItem(Obj(schema), SchemaView);
    OneItem(spec, SpecView);
    OneItem(sortOrder, SortOrderView);
    SchemaItem(schema);
  }

  lemma CreatedSnapshots(uuid: string, location: string, now: int, lastColumn: int, schema: map<string, Json>,
                         spec: Json, sortOrder: Json, properties: Json)
    ensures var o := CreatedObject(uuid, location, now, lastColumn, schema, spec, sortOrder, properties);
            SnapshotsView(o) == Snapshots(Is([]), Absent, Is(map[]), Is([]), Absent)
  {
    hide Print, ReadItems, ReadRefMap;
    NamesApart();
    NoItems(SnapshotView);
    NoItems(LogView);
    NoRefs();
  }

  lemma CreatedOthers(uuid: string, location: string, now: int, lastColumn: int, schema: map<string, Json>,
                      spec: Json, sortOrder: Json, properties: Json)
    ensures var o := CreatedObject(uuid, location, now, lastColumn, schema, spec, sortOrder, properties);
            && View(o, STATISTICS, ReadStatistics) == Absent && View(o, PARTITION_STATISTICS, ReadStatistics) == Absent
            && View(o, PROPERTIES, ReadMap) == (if properties.Obj? then Is(ReloadMembers(properties.members)) else Foreign(ReloadJson(properties)))
            && View(o, KEYS, ReadKeys) == Absent
  {
    hide Print, ReloadMembers;
    NamesApart();
  }

  lemma CreatedNothingElse(uuid: string, location: string, now: int, lastColumn: int, schema: map<string, Json>,
                           spec: Json, sortOrder: Json, properties: Json)
    ensures CreatedObject(uuid, location, now, lastColumn, schema, spec, sortOrder, properties) - NAMES == map[]
  {
  }

  // ---------------------------------------------------------------- the created row as it is loaded

  lemma EntryViewsAreStable(o: map<string, Json>)
    ensures forall view :: view in {SchemaView(o), SpecView(o), SortOrderView(o)} ==>
              view == Doc(ReloadOption(view.key), ReloadFieldIds(view.detail), ReloadMembers(view.rest))
  {
    hide ReadInt, ReloadMembers, ReadInt64;
    forall name ensures ReloadOption(ReadInt(o, name)) == ReadInt(o, name) { ReadIntIsStable(o, name); }
    forall id ensures ReloadFieldIds(ReadFieldIds(o, id)) == ReadFieldIds(o, id) { FieldIdsAreStable(o, id); }
    ReloadMembersTwice(o - {"schema-id"});
    ReloadMembersTwice(o - {"spec-id"});
    ReloadMembersTwice(o - {"order-id"});
  }

  lemma ReadIntIsStable(o: map<string, Json>, name: string)
    ensures ReloadOption(ReadInt(o, name)) == ReadInt(o, name)
  {
    hide ReadInt64;
    if name in o && o[name].Num? { ReadIsExact(o[name].n); }
  }

  lemma FieldIdsAreStable(o: map<string, Json>, id: string)
    ensures ReloadFieldIds(ReadFieldIds(o, id)) == ReadFieldIds(o, id)
  {
    hide ReadInt;
    if "fields" in o && o["fields"].Arr? {
      var fields, ids := o["fields"].items, ReadFieldIds(o, id).value;
      forall i | 0 <= i < |ids| ensures ReloadOption(ids[i]) == ids[i] {
        if fields[i].Obj? { ReadIntIsStable(fields[i].members, id); }
      }
      assert ReloadFieldIds(Some(ids)).value == ids;
    }
  }

  lemma ReloadOne(x: FamilyItem)
    ensures ReloadList(Is([x]), ReloadFieldIds) == Is([ReloadItem(x, ReloadOption, ReloadFieldIds)])
  {
    assert ReloadList(Is([x]), ReloadFieldIds).value == [ReloadItem(x, ReloadOption, ReloadFieldIds)];
  }

  lemma ReloadedItem(j: Json, view: map<string, Json> -> FamilyDoc)
    requires j.Obj? ==> var doc := view(j.members);
                        doc == Doc(ReloadOption(doc.key), ReloadFieldIds(doc.detail), ReloadMembers(doc.rest))
    ensures ReloadItem(if j.Obj? then Object(view(j.members)) else Loose(j), ReloadOption, ReloadFieldIds) == ReadItem(j, view)
  {
  }

  lemma InitialFamilies(uuid: string, location: string, now: int, schema: map<string, Json>, spec: Json, sortOrder: Json,
                        properties: Json)
    ensures var m, ids := InitialMetadata(uuid, location, now, schema, spec, sortOrder, properties), SchemaView(schema).detail;
            && ReloadFamily(m.schemas) == Family(Is([Object(SchemaView(schema))]), Is(ReadInt64(0)),
                                                 Is(ReadInt64(if ids.Some? then MaxFieldId(ids.value) else 0)))
            && ReloadFamily(m.specs) == Family(Is([ReadItem(spec, SpecView)]), Is(ReadInt64(0)), Absent)
            && ReloadFamily(m.sortOrders) == Family(Is([ReadItem(sortOrder, SortOrderView)]), Is(ReadInt64(0)), Absent)
  {
    hide ReadInt64, SchemaView, SpecView, SortOrderView, ReloadItem, ReloadItems, ReadItem, ReloadMembers, ReloadFieldIds, ReloadOption;
    var m := InitialMetadata(uuid, location, now, schema, spec, sortOrder, properties);
    EntryViewsAreStable(schema);
    ReloadedItem(Obj(schema), SchemaView);
    SchemaItem(schema);
    ReloadOne(m.schemas.entries.value[0]);
    if spec.Obj? { EntryViewsAreStable(spec.members); }
    ReloadedItem(spec, SpecView);
    ReloadOne(m.specs.entries.value[0]);
    if sortOrder.Obj? { EntryViewsAreStable(sortOrder.members); }
    ReloadedItem(sortOrder, SortOrderView);
    ReloadOne(m.sortOrders.entries.value[0]);
  }

  lemma InitialSnapshots()
    ensures var s := Snapshots(Is([]), Absent, Is(map[]), Is([]), Absent); ReloadSnapshots(s) == s
  {
    var s := Snapshots(Is([]), Absent, Is(map[]), Is([]), Absent);
    assert ReloadList(s.list, ReloadSnapshotDetail).value == [];
    assert ReloadList(s.log, ReloadOption).value == [];
    assert ReloadRefs(s.refs).value == map[];
  }

  /** A created table, when it is first loaded, is what the engine reads in the object `CreateTable` built. */
  lemma CreatedRowHolds(uuid: string, location: string, now: int, lastColumn: int, schema: map<string, Json>,
                        spec: Json, sortOrder: Json, properties: Json)
    requires IsLastColumn(schema, lastColumn)
    ensures Load(CreateRow(uuid, location, now, schema, spec, sortOrder, properties))
         == MetadataView(CreatedObject(uuid, location, now, lastColumn, schema, spec, sortOrder, properties))
  {
    hide ReadInt64, View, CreatedObject, SchemasView, SpecsView, OrdersView, SnapshotsView, ReloadFamily, ReloadSnapshots,
      SchemaView, SpecView, SortOrderView, MaxFieldId, ReadItem, IsLastColumn, ReloadJson;
    LastColumnIsLargest(schema, lastColumn);
    CreatedCore(uuid, location, now, lastColumn, schema, spec, sortOrder, properties);
    CreatedFamilies(uuid, location, now, lastColumn, schema, spec, sortOrder, properties);
    CreatedSnapshots(uuid, location, now, lastColumn, schema, spec, sortOrder, properties);
    CreatedOthers(uuid, location, now, lastColumn, schema, spec, sortOrder, properties);
    CreatedNothingElse(uuid, location, now, lastColumn, schema, spec, sortOrder, properties);
    InitialFamilies(uuid, location, now, schema, spec, sortOrder, properties);
    InitialSnapshots();
  }

  /** Its first location is version 0 at its base, and it has no previous one; its UUID is long enough
      to be committed to exactly when it is long enough for that location. */
  lemma CreatedRowPlace(uuid: string, location: string, now: int, schema: map<string, Json>,
                        spec: Json, sortOrder: Json, properties: Json)
    ensures var row := CreateRow(uuid, location, now, schema, spec, sortOrder, properties);
            && row.previous == None && row.location.Generated?
            && row.location.base == location && row.location.version == 0 && row.location.millis == now
            && row.location.uuidPrefix <= uuid && (|uuid| >= 8 ==> |row.location.uuidPrefix| == 8)
            && (Addressable(row.metadata) <==> |uuid| >= 8)
  {
    hide SchemaView, SpecView, SortOrderView;
  }

  // ---------------------------------------------------------------- RegisterTable

  /** The metadata object `RegisterTable` builds. */
  function RegisteredObject(uuid: string, location: string, now: int): map<string, Json> {
    map["format-version" := Num(2), "table-uuid" := Str(uuid), "location" := Str(location), "last-updated-ms" := Num(now)]
  }

  const METADATA_SUFFIX := "/metadata"

  /** The registered path without its ending, if it has that ending. */
  lemma TrimmedPath(path: string, base: string)
    ensures path == base + METADATA_SUFFIX ==> TrimSuffix(path, METADATA_SUFFIX) == base
    ensures (forall b: string :: path != b + METADATA_SUFFIX) ==> TrimSuffix(path, METADATA_SUFFIX) == path
  {
    var n := |METADATA_SUFFIX|;
    if n <= |path| && path[|path| - n..] == METADATA_SUFFIX {
      assert path == path[..|path| - n] + METADATA_SUFFIX;
    }
    if path == base + METADATA_SUFFIX { assert path[|base|..] == METADATA_SUFFIX && path[..|base|] == base; }
  }

  lemma RegisteredMembers(uuid: string, location: string, now: int)
    ensures var o := RegisteredObject(uuid, location, now);
            && o.Keys == CORE_NAMES
            && o[FORMAT] == Num(2) && o[UUID] == Str(uuid) && o[LOCATION] == Str(location) && o[UPDATED] == Num(now)
  {
    hide Print;
    NamesApart();
  }

  /** An object with nothing but the core members shows no tables, snapshots or maps. */
  lemma OnlyCore(o: map<string, Json>)
    requires o.Keys == CORE_NAMES
    ensures SchemasView(o) == Family(Absent, Absent, Absent) && SpecsView(o) == Family(Absent, Absent, Absent)
    ensures OrdersView(o) == Family(Absent, Absent, Absent)
    ensures SnapshotsView(o) == Snapshots(Absent, Absent, Absent, Absent, Absent)
    ensures View(o, STATISTICS, ReadStatistics) == Absent && View(o, PARTITION_STATISTICS, ReadStatistics) == Absent
    ensures View(o, PROPERTIES, ReadMap) == Absent && View(o, KEYS, ReadKeys) == Absent && o - NAMES == map[]
  {
    hide Print, Group;
    GroupsApart();
    assert forall name :: name in NAMES && Group(name) > 0 ==> name !in o;
  }

  /** So with registered tables: four members, at the path that was registered. */
  lemma RegisteredRowHolds(uuid: string, path: string, now: int)
    ensures var row, location := RegisterRow(uuid, path, now), TrimSuffix(path, METADATA_SUFFIX);
            && Load(row) == MetadataView(RegisteredObject(uuid, location, now))
            && row.location == Registered(path) && row.previous == None
            && (Addressable(row.metadata) <==> |uuid| >= 8)
  {
    hide ReadInt64, TrimSuffix, SchemasView, SpecsView, OrdersView, SnapshotsView, RegisteredObject;
    var location := TrimSuffix(path, METADATA_SUFFIX);
    RegisteredMembers(uuid, location, now);
    OnlyCore(RegisteredObject(uuid, location, now));
  }
}
