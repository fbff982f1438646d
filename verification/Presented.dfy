/** Every row of every run presents a JSON object, so that all of them are stored and loaded as it. */
module Presented {
  import opened Options
  import opened JsonValues
  import opened Binary64
  import opened TableMetadata
  import opened Updates
  import opened Handlers
  import opened StableSort
  import opened Requests
  import opened ItemLemmas
  import opened Commits
  import opened Protocol
  import opened MetadataJson
  import opened RoundTrips
  import opened Copies
  import opened InsertedRows
  import opened Verdicts

  // ---------------------------------------------------------------- updates as they are parsed

  /** The update's document keeps its id apart, like the documents in the metadata. */
  predicate UpdatePresents(u: Update) {
    match u
    case AddSchema(Some(doc), _) => SchemaFits(doc)
    case AddSpec(Some(doc)) => SpecFits(doc)
    case AddSortOrder(Some(doc)) => OrderFits(doc)
    case AddSnapshot(Some(doc)) => SnapshotFits(doc)
    case SetStatistics(_, Some(doc)) => StatisticFits(doc)
    case SetPartitionStatistics(Some(doc)) => StatisticFits(doc)
    case AddEncryptionKey(Some(doc)) => KeyFits(doc)
    case _ => true
  }

  lemma FieldsOfRest(o: map<string, Json>, name: string, id: string)
    requires |name| > 6
    ensures ReadFieldIds(ReloadMembers(o - {name}), id) == ReloadFieldIds(ReadFieldIds(o, id))
  {
    hide ReadInt, ReloadMembers;
    assert |"fields"| == 6;
    FieldIdsOfCopy(o - {name}, id);
    FieldIdsAreStable(o, id);
  }

  lemma EntryViewsFit(o: map<string, Json>)
    ensures SchemaFits(SchemaView(o)) && SpecFits(SpecView(o)) && OrderFits(SortOrderView(o))
  {
    hide ReadInt, ReadFieldIds, ReloadFieldIds;
    FieldsOfRest(o, "schema-id", "id");
    FieldsOfRest(o, "spec-id", "field-id");
  }

  lemma ViewsFit(o: map<string, Json>)
    ensures SnapshotFits(SnapshotView(o)) && StatisticFits(StatView(o)) && KeyFits(KeyView(o))
  {
  }

  lemma ParsedPresents(raw: RawUpdate)
    requires ParseUpdate(raw).Parsed?
    ensures UpdatePresents(ParseUpdate(raw).update)
  {
    hide SchemaFits, SpecFits, OrderFits, SnapshotFits, StatisticFits, KeyFits, SchemaView, SpecView, SortOrderView, SnapshotView,
      StatView, KeyView, Member, DecodeString, DecodeInt, DecodeIntPointer, DecodeInts, DecodeStrings, DecodeStringMap;
    forall o: map<string, Json>
      ensures SchemaFits(SchemaView(o)) && SpecFits(SpecView(o)) && OrderFits(SortOrderView(o))
      ensures SnapshotFits(SnapshotView(o)) && StatisticFits(StatView(o)) && KeyFits(KeyView(o))
    {
      EntryViewsFit(o);
      ViewsFit(o);
    }
  }

  // ---------------------------------------------------------------- handlers

  lemma AppendFits<K, D>(s: Slot<seq<Item<K, D>>>, x: Item<K, D>, fits: Doc<K, D> -> bool)
    requires ItemsFit(s, fits) && ItemFits(x, fits)
    ensures ItemsFit(Is(s.Or([]) + [x]), fits) && ItemsFit(Is(s.Or([])), fits)
  {
    hide ItemFits;
  }

  lemma WithoutFits<K, D>(items: seq<Item<K, D>>, gone: set<K>, fits: Doc<K, D> -> bool)
    requires ItemsFit(Is(items), fits)
    ensures ItemsFit(Is(Without(items, gone)), fits)
  {
    hide ItemFits;
    var kept := Without(items, gone);
    forall i | 0 <= i < |kept| ensures ItemFits(kept[i], fits) {
      WithoutMembers(items, gone, kept[i]);
      var j :| 0 <= j < |items| && items[j] == kept[i];
    }
  }

  lemma AddEntryFits(f: Family, doc: Option<FamilyDoc>, hint: Option<int>, fits: FamilyDoc -> bool)
    requires FamilyFits(f, fits) && (doc.Some? ==> forall key :: fits(doc.value.(key := key)))
    ensures FamilyFits(AddEntry(f, doc, hint).state, fits)
  {
    hide AssignedId, HasKey, ItemsFit;
    if doc.Some? {
      var id := AssignedId(f.entries.Or([]), doc.value);
      AppendFits(f.entries, Object(doc.value.(key := Some(id))), fits);
    }
  }

  lemma SelectFits(f: Family, target: int, fits: FamilyDoc -> bool)
    requires FamilyFits(f, fits)
    ensures FamilyFits(SetPointer(f, target).state, fits) && SetPointer(f, target).state.lastFieldId == f.lastFieldId
  {
    hide ItemsFit, HasKey;
  }

  lemma RemoveEntriesFits(f: Family, ids: seq<int>, fits: FamilyDoc -> bool)
    requires FamilyFits(f, fits)
    ensures FamilyFits(RemoveEntries(f, ids).state, fits)
  {
    hide ItemsFit, Without;
    if f.entries.Is? { WithoutFits(f.entries.value, ToSet(ids), fits); }
  }

  lemma SnapshotHandlersFit(m: Metadata, u: Update)
    requires SnapshotsFit(m.snaps) && UpdatePresents(u)
    ensures SnapshotsFit(ApplyUpdate(m, u).state.snaps)
  {
    hide HasKey, Without, ItemsFit, AddEntry, SetPointer, RemoveEntries;
    match u {
      case AddSnapshot(doc) =>
        if doc.Some? {
          AppendFits(m.snaps.list, Object(doc.value), SnapshotFits);
          var time := doc.value.detail.timestampMs;
          if doc.value.key.Some? && time.Some? { AppendFits(m.snaps.log, LogEntry(doc.value.key.value, time.value), LogFits); }
        }
      case RemoveSnapshots(ids) =>
        if m.snaps.list.Is? { WithoutFits(m.snaps.list.value, ToSet(ids), SnapshotFits); }
      case _ =>
    }
  }

  lemma StatisticHandlerFits(s: Slot<seq<StatItem>>, doc: Option<StatDoc>, deprecatedId: Option<int>, gone: int)
    requires ItemsFit(s, StatisticFits) && (doc.Some? ==> StatisticFits(doc.value))
    ensures ItemsFit(SetStatistic(s, doc, deprecatedId).state, StatisticFits) && ItemsFit(DropStatistic(s, gone), StatisticFits)
  {
    hide Without, ItemsFit;
    assert ItemsFit(Is(s.Or([])), StatisticFits) by { OrFits(s, StatisticFits); }
    WithoutFits(s.Or([]), {gone}, StatisticFits);
    if doc.Some? {
      var id := if doc.value.key.Some? then doc.value.key else deprecatedId;
      if id.Some? {
        WithoutFits(s.Or([]), {id.value}, StatisticFits);
        AppendFits(Is(Without(s.Or([]), {id.value})), Object(doc.value.(key := id)), StatisticFits);
      }
    }
  }

  lemma OrFits<K, D>(s: Slot<seq<Item<K, D>>>, fits: Doc<K, D> -> bool)
    requires ItemsFit(s, fits)
    ensures ItemsFit(Is(s.Or([])), fits)
  {
  }

  lemma KeyHandlersFit(s: Slot<seq<KeyItem>>, doc: Option<KeyDoc>, gone: string)
    requires ItemsFit(s, KeyFits) && (doc.Some? ==> KeyFits(doc.value))
    ensures ItemsFit(PutKey(s, doc).state, KeyFits) && ItemsFit(DropKey(s, gone).state, KeyFits)
  {
    hide Without, ItemsFit, HasKey;
    OrFits(s, KeyFits);
    WithoutFits(s.Or([]), {gone}, KeyFits);
    if doc.Some? { AppendFits(s, Object(doc.value), KeyFits); }
  }

  lemma OtherHandlersFit(m: Metadata, u: Update)
    requires OthersFit(m) && UpdatePresents(u)
    ensures OthersFit(ApplyUpdate(m, u).state)
  {
    hide ItemsFit, AddEntry, SetPointer, RemoveEntries, PutSnapshot, SetRef, DropSnapshots, DropRef, SetStatistic, DropStatistic,
      PutKey, DropKey, SchemaFits, SpecFits, OrderFits, SnapshotFits, KeptApart;
    match u {
      case SetStatistics(id, doc) => StatisticHandlerFits(m.statistics, doc, id, 0);
      case SetPartitionStatistics(doc) => StatisticHandlerFits(m.partitionStatistics, doc, None, 0);
      case RemoveStatistics(id) => StatisticHandlerFits(m.statistics, None, None, id);
      case RemovePartitionStatistics(id) => StatisticHandlerFits(m.partitionStatistics, None, None, id);
      case AddEncryptionKey(doc) => KeyHandlersFit(m.encryptionKeys, doc, "");
      case RemoveEncryptionKey(id) => KeyHandlersFit(m.encryptionKeys, None, id);
      case _ =>
    }
  }

  lemma CoreHandlersFit(m: Metadata, u: Update)
    requires CoreFits(m)
    ensures CoreFits(ApplyUpdate(m, u).state)
  {
    hide AddEntry, SetPointer, RemoveEntries, PutSnapshot, SetRef, DropSnapshots, DropRef, SetStatistic, DropStatistic,
      PutKey, DropKey, MergeProperties, DropProperties, ReadText, ReadNumber;
  }

  /** Every update keeps it, failing or not. */
  lemma UpdateKeepsPresents(m: Metadata, u: Update)
    requires Presents(m) && UpdatePresents(u)
    ensures Presents(ApplyUpdate(m, u).state)
  {
    hide ApplyUpdate, CoreFits, FamilyFits, SnapshotsFit, OthersFit, UpdatePresents;
    CoreHandlersFit(m, u);
    EntryHandlersFit(m, u);
    SnapshotHandlersFit(m, u);
    OtherHandlersFit(m, u);
  }

  lemma EntryHandlersFit(m: Metadata, u: Update)
    requires FamilyFits(m.schemas, SchemaFits) && FamilyFits(m.specs, SpecFits) && FamilyFits(m.sortOrders, OrderFits)
    requires m.sortOrders.lastFieldId.Absent? && UpdatePresents(u)
    ensures var n := ApplyUpdate(m, u).state;
            FamilyFits(n.schemas, SchemaFits) && FamilyFits(n.specs, SpecFits) && FamilyFits(n.sortOrders, OrderFits)
            && n.sortOrders.lastFieldId.Absent?
  {
    hide FamilyFits, AddEntry, SetPointer, RemoveEntries, PutSnapshot, SetRef, DropSnapshots, DropRef,
      SetStatistic, DropStatistic, PutKey, DropKey, ReadFieldIds, MergeProperties, DropProperties;
    match u {
      case AddSchema(doc, hint) => AddEntryFits(m.schemas, doc, hint, SchemaFits);
      case AddSpec(doc) => AddEntryFits(m.specs, doc, None, SpecFits);
      case AddSortOrder(doc) =>
        AddEntryFits(m.sortOrders, doc, None, OrderFits);
        NoOrderMark(m.sortOrders, doc);
      case SetCurrentSchema(id) => SelectFits(m.schemas, id, SchemaFits);
      case SetDefaultSpec(id) => SelectFits(m.specs, id, SpecFits);
      case SetDefaultSortOrder(id) => SelectFits(m.sortOrders, id, OrderFits);
      case RemoveSchemas(ids) => RemoveEntriesFits(m.schemas, ids, SchemaFits);
      case RemovePartitionSpecs(ids) => RemoveEntriesFits(m.specs, ids, SpecFits);
      case _ =>
    }
  }

  /** A sort order has no field ids, so adding one sets no mark. */
  lemma NoOrderMark(f: Family, doc: Option<FamilyDoc>)
    requires f.lastFieldId.Absent? && (doc.Some? ==> doc.value.detail == None)
    ensures AddEntry(f, doc, None).state.lastFieldId.Absent?
  {
    hide HasKey, AssignedId;
  }

  // ---------------------------------------------------------------- requests, loading, rows

  lemma {:induction false} RunKeepsPresents(m: Metadata, us: seq<Update>)
    requires Presents(m) && forall u :: u in us ==> UpdatePresents(u)
    ensures Presents(Run(m, us).meta)
    decreases |us|
  {
    hide ApplyUpdate, Presents, UpdatePresents;
    if us != [] {
      UpdateKeepsPresents(m, us[0]);
      var s := ApplyUpdate(m, us[0]);
      if s.error.None? { RunKeepsPresents(s.state, us[1..]); }
    }
  }

  lemma RequestKeepsPresents(m: Metadata, raws: seq<RawUpdate>)
    requires Presents(m)
    ensures Presents(ApplyRequest(m, raws).meta)
  {
    hide Run, UpdatePresents, Presents;
    ParseAllSpec(raws);
    if ParseAll(raws).AllParsed? {
      var us := ParseAll(raws).us;
      SortedIsStableSort(us);
      forall u | u in Sorted(us) ensures UpdatePresents(u) {
        var i :| 0 <= i < |us| && us[i] == u;
        ParsedPresents(raws[i]);
      }
      RunKeepsPresents(m, Sorted(us));
    }
  }

  lemma SlotReloadFits<T>(s: Slot<T>, r: Slot<T>, read: Json -> Option<T>)
    requires Fits(s, read) && (s.Foreign? ==> r == ReloadForeign(s)) && (!s.Foreign? ==> !r.Foreign?)
    requires forall j :: read(j).None? ==> read(ReloadJson(j)).None?
    ensures Fits(r, read)
  {
  }

  lemma ScalarReadsKept(j: Json)
    ensures ReadText(j).None? <==> ReadText(ReloadJson(j)).None?
    ensures ReadNumber(j).None? <==> ReadNumber(ReloadJson(j)).None?
    ensures ReadMap(j).None? <==> ReadMap(ReloadJson(j)).None?
  {
    ReloadOnlyRounds(j);
  }

  lemma ItemsReloadFit<K, D>(s: Slot<seq<Item<K, D>>>, key: Option<K> -> Option<K>, detail: D -> D, fits: Doc<K, D> -> bool)
    requires ItemsFit(s, fits)
    requires forall doc: Doc<K, D> :: fits(doc) ==> fits(Doc(key(doc.key), detail(doc.detail), ReloadMembers(doc.rest)))
    ensures ItemsFit(ReloadItems(s, key, detail), fits)
  {
    hide ReloadMembers, ReloadJson;
    if s.Is? {
      forall i | 0 <= i < |s.value| ensures ItemFits(ReloadItem(s.value[i], key, detail), fits) {
        assert ItemFits(s.value[i], fits);
        if s.value[i].Loose? { ReloadOnlyRounds(s.value[i].raw); }
      }
    } else if s.Foreign? {
      ReloadOnlyRounds(s.raw);
    }
  }

  lemma EntryReloadFits(doc: FamilyDoc)
    ensures var again := Doc(ReloadOption(doc.key), ReloadFieldIds(doc.detail), ReloadMembers(doc.rest));
            && (SchemaFits(doc) ==> SchemaFits(again)) && (SpecFits(doc) ==> SpecFits(again)) && (OrderFits(doc) ==> OrderFits(again))
  {
    hide ReadFieldIds, ReloadOption;
    FieldIdsOfCopy(doc.rest, "id");
    FieldIdsOfCopy(doc.rest, "field-id");
    ReloadFieldIdsTwice(doc.detail);
  }

  lemma FamiliesReloadFit(m: Metadata)
    requires FamilyFits(m.schemas, SchemaFits) && FamilyFits(m.specs, SpecFits) && FamilyFits(m.sortOrders, OrderFits)
    ensures FamilyFits(ReloadFamily(m.schemas), SchemaFits) && FamilyFits(ReloadFamily(m.specs), SpecFits)
    ensures FamilyFits(ReloadFamily(m.sortOrders), OrderFits)
  {
    hide ItemsFit, SchemaFits, SpecFits, OrderFits, ReloadItems, Fits, ReloadJson, ReadNumber;
    forall doc: FamilyDoc
      ensures var again := Doc(ReloadOption(doc.key), ReloadFieldIds(doc.detail), ReloadMembers(doc.rest));
              && (SchemaFits(doc) ==> SchemaFits(again)) && (SpecFits(doc) ==> SpecFits(again)) && (OrderFits(doc) ==> OrderFits(again))
    {
      EntryReloadFits(doc);
    }
    ItemsReloadFit(m.schemas.entries, ReloadOption, ReloadFieldIds, SchemaFits);
    ItemsReloadFit(m.specs.entries, ReloadOption, ReloadFieldIds, SpecFits);
    ItemsReloadFit(m.sortOrders.entries, ReloadOption, ReloadFieldIds, OrderFits);
    NumbersReloadFit(m.schemas.pointer);
    NumbersReloadFit(m.schemas.lastFieldId);
    NumbersReloadFit(m.specs.pointer);
    NumbersReloadFit(m.specs.lastFieldId);
    NumbersReloadFit(m.sortOrders.pointer);
    NumbersReloadFit(m.sortOrders.lastFieldId);
  }

  lemma NumbersReloadFit(s: Slot<int>)
    requires Fits(s, ReadNumber)
    ensures Fits(ReloadSlot(s), ReadNumber)
  {
    hide ReadInt64;
    if s.Foreign? { ScalarReadsKept(s.raw); }
  }

  lemma SnapshotsReloadFit(s: Snapshots)
    requires SnapshotsFit(s)
    ensures SnapshotsFit(ReloadSnapshots(s))
  {
    hide ItemsFit, ReloadItems, Fits, ReloadSlot, ReloadMembers, ReloadOption;
    forall members: map<string, Json> ensures ReloadMembers(members).Keys == members.Keys { MembersOnlyRounded(members); }
    ItemsReloadFit(s.list, ReloadOption, ReloadSnapshotDetail, SnapshotFits);
    ItemsReloadFit(s.log, ReloadOption, ReloadOption, LogFits);
    NumbersReloadFit(s.current);
    NumbersReloadFit(s.lastSequence);
    RefsReloadFit(s.refs);
  }

  lemma RefsReloadFit(s: Slot<map<string, Ref>>)
    requires RefsFit(s)
    ensures RefsFit(ReloadRefs(s))
  {
    hide ReloadOption, ReloadJson;
    forall j ensures ReloadJson(j).Obj? <==> j.Obj? { ReloadOnlyRounds(j); }
  }

  lemma OthersReloadFit(m: Metadata)
    requires OthersFit(m)
    ensures OthersFit(Reload(m))
  {
    hide ItemsFit, ReloadItems, ReloadMembers, ReloadOption, ReloadFamily, ReloadSnapshots, ReloadSlot;
    forall members: map<string, Json> ensures ReloadMembers(members).Keys == members.Keys { MembersOnlyRounded(members); }
    ItemsReloadFit(m.statistics, ReloadOption, Same, StatisticFits);
    ItemsReloadFit(m.partitionStatistics, ReloadOption, Same, StatisticFits);
    ItemsReloadFit(m.encryptionKeys, Same, Same, KeyFits);
    if m.properties.Foreign? { ScalarReadsKept(m.properties.raw); }
  }

  lemma CoreReloadFits(m: Metadata)
    requires CoreFits(m)
    ensures CoreFits(Reload(m))
  {
    hide ReloadSlot, ReloadFamily, ReloadSnapshots, ReloadMembers, ReloadItems, ReadNumber;
    NumbersReloadFit(m.formatVersion);
    NumbersReloadFit(m.lastUpdatedMs);
    if m.tableUuid.Foreign? { ScalarReadsKept(m.tableUuid.raw); }
    if m.location.Foreign? { ScalarReadsKept(m.location.raw); }
  }

  /** Loading keeps it. */
  lemma ReloadKeepsPresents(m: Metadata)
    requires Presents(m)
    ensures Presents(Reload(m))
  {
    hide CoreFits, FamilyFits, SnapshotsFit, OthersFit, ReloadSnapshots, ReloadItems, ReloadMembers;
    CoreReloadFits(m);
    FamiliesReloadFit(m);
    SnapshotsReloadFit(m.snaps);
    OthersReloadFit(m);
  }

  lemma RegisteredPresents(uuid: string, location: string, now: int)
    ensures Presents(RegisteredMetadata(uuid, location, now))
  {
  }

  lemma InitialFamiliesFit(uuid: string, location: string, now: int, schema: map<string, Json>, spec: Json, order: Json, properties: Json)
    ensures var m := InitialMetadata(uuid, location, now, schema, spec, order, properties);
            FamilyFits(m.schemas, SchemaFits) && FamilyFits(m.specs, SpecFits) && FamilyFits(m.sortOrders, OrderFits)
  {
    hide SchemaView, SpecView, SortOrderView, SchemaFits, SpecFits, OrderFits, MaxFieldId;
    EntryViewsFit(schema);
    if spec.Obj? { EntryViewsFit(spec.members); }
    if order.Obj? { EntryViewsFit(order.members); }
  }

  lemma InitialPresents(uuid: string, location: string, now: int, schema: map<string, Json>, spec: Json, order: Json, properties: Json)
    ensures Presents(InitialMetadata(uuid, location, now, schema, spec, order, properties))
  {
    hide FamilyFits, SchemaView, SpecView, SortOrderView, MaxFieldId;
    InitialFamiliesFit(uuid, location, now, schema, spec, order, properties);
  }

  lemma InsertedPresents(row: Row)
    requires Inserted(row)
    ensures Presents(row.metadata)
  {
    hide Presents, InitialMetadata, RegisteredMetadata, TrimSuffix;
    if uuid: string, path: string, now: int :| row == RegisterRow(uuid, path, now) {
      RegisteredPresents(uuid, TrimSuffix(path, "/metadata"), now);
    } else {
      var uuid: string, location: string, now: int, schema: map<string, Json>, spec: Json, order: Json, properties: Json :|
        row == CreateRow(uuid, location, now, schema, spec, order, properties);
      InitialPresents(uuid, location, now, schema, spec, order, properties);
    }
  }

  lemma CommitKeepsPresents(row: Row, request: Request, now: int)
    requires Presents(Load(row)) && Decide(row, request, now).Write?
    ensures Presents(Decide(row, request, now).row.metadata)
  {
    hide Reload, ApplyRequest, Decide, FamilyFits, SnapshotsFit, OthersFit;
    RequestKeepsPresents(Load(row), request.updates);
    WrittenRow(row, request, now);
    var m, n := ApplyRequest(Load(row), request.updates).meta, Decide(row, request, now).row.metadata;
    assert n == m.(lastUpdatedMs := n.lastUpdatedMs);
    OthersOfTime(m, n);
  }

  lemma OthersOfTime(m: Metadata, n: Metadata)
    requires n == m.(lastUpdatedMs := n.lastUpdatedMs)
    ensures OthersFit(n) <==> OthersFit(m)
  {
    hide ItemsFit;
  }

  ghost predicate RowPresents(row: Row) {
    Presents(row.metadata)
  }

  lemma {:induction false} ChainPresents(jobs: Jobs, t: Table, first: Row, links: seq<Link>, last: Row, i: nat)
    requires Chain(first, links, last) && RowPresents(first) && i <= |links|
    requires forall k :: 0 <= k < |links| ==> Justified(jobs, t, links[k])
    ensures RowPresents(Reached(first, links, i))
  {
    hide Presents, Justified;
    if i > 0 {
      ChainPresents(jobs, t, first, links, last, i - 1);
      LinkPresents(jobs, t, links[i - 1]);
    }
  }

  lemma LinkPresents(jobs: Jobs, t: Table, link: Link)
    requires Justified(jobs, t, link) && RowPresents(link.base)
    ensures RowPresents(link.result)
  {
    hide Decide, Presents, Reload;
    ReloadKeepsPresents(link.base.metadata);
    CommitKeepsPresents(link.base, jobs[link.owner].request, link.now);
  }

  /** In every run from created and registered tables, loading a committed row is writing its metadata
      object as JSON text and reading it back, and so is the processor's copy of what was loaded. */
  lemma RowsAreWrittenAndRead(rows: map<Table, Row>, jobs: Jobs, events: seq<Event>, states: seq<System>, n: nat, t: Table)
    requires IsRun(rows, jobs, events, states) && n < |states| && t in rows && Inserted(rows[t])
    ensures t in states[n].rows && Presents(states[n].rows[t].metadata)
    ensures Load(states[n].rows[t]) == MetadataView(MetadataObject(states[n].rows[t].metadata))
    ensures Reload(Load(states[n].rows[t])) == MetadataView(MetadataObject(Load(states[n].rows[t])))
  {
    hide IsRun, Presents, Reload, Inserted, Justified, MetadataView, MetadataObject;
    RunKeepsInv(rows, jobs, events, states, n);
    InsertedPresents(rows[t]);
    var links := states[n].history[t];
    ChainPresents(jobs, t, rows[t], links, states[n].rows[t], |links|);
    ReloadKeepsPresents(states[n].rows[t].metadata);
    ReloadIsWriteThenRead(states[n].rows[t].metadata);
    ReloadIsWriteThenRead(Load(states[n].rows[t]));
  }
}
