/** What one commit keeps, from loaded row to loaded row. */
module CommitIntegrity {
  import opened Options
  import opened JsonValues
  import opened Binary64
  import opened TableMetadata
  import opened Updates
  import opened Handlers
  import opened StableSort
  import opened Requests
  import opened ItemLemmas
  import opened SnapshotIntegrity
  import opened Families
  import opened Selection
  import opened Attributes
  import opened Commits

  // ---------------------------------------------------------------- kept by every commit

  /** Holds of every table from its creation on, whatever is committed. */
  ghost predicate Sound(m: Metadata) {
    && Integral(m.snaps)
    && UniqueKeys(m.encryptionKeys.Or([]))
    && 1 <= m.formatVersion.Or(0) <= 3
  }

  /** Created and registered tables are sound. */
  lemma InsertedIsSound(row: Row)
    requires Inserted(row)
    ensures Sound(Load(row))
  {
    hide Integral, InitialMetadata, RegisteredMetadata;
    FirstMetadata(row);
    ReloadKeepsIntegral(row.metadata.snaps);
    SmallSurvives(2);
  }

  lemma FirstMetadata(row: Row)
    requires Inserted(row)
    ensures Integral(row.metadata.snaps) && row.metadata.formatVersion == Is(2) && row.metadata.encryptionKeys == Absent
    ensures ColumnsBounded(row.metadata.schemas) && MarkFits(row.metadata.schemas) && StatisticsTidy(row.metadata)
    ensures forall kind :: IdsTidy(FamilyOf(row.metadata, kind))
  {
    hide Integral, IdsTidy, StatisticsTidy, ColumnsBounded, MarkFits;
    if uuid: string, path: string, now: int :| row == RegisterRow(uuid, path, now) {
      var location := TrimSuffix(path, "/metadata");
      RegisteredIsIntegral(uuid, location, now);
      RegisteredIsTidy(uuid, location, now);
    } else {
      var uuid: string, location: string, now: int, schema: map<string, Json>, spec: Json, order: Json, properties: Json :|
        row == CreateRow(uuid, location, now, schema, spec, order, properties);
      InitialIsIntegral(uuid, location, now, schema, spec, order, properties);
      InitialIsTidy(uuid, location, now, schema, spec, order, properties);
    }
  }

  lemma RegisteredIsTidy(uuid: string, location: string, now: int)
    ensures var m := RegisteredMetadata(uuid, location, now);
            && ColumnsBounded(m.schemas) && MarkFits(m.schemas) && StatisticsTidy(m)
            && forall kind :: IdsTidy(FamilyOf(m, kind))
  {
  }

  /** The metadata a successful commit stores comes from the loaded metadata by the request. */
  lemma WriteComesFromRequest(row: Row, request: Request, now: int)
    requires Decide(row, request, now).Write?
    ensures var o := ApplyRequest(Load(row), request.updates);
            o.failure.None? && Decide(row, request, now) == NewRow(row, o.meta, now)
    ensures RequirementsHold(Load(row), request.requirements)
  {
    hide Reload, ApplyUpdate;
    ReloadTwice(row.metadata);
    if request.updates == [] { SortedEmpty(); }
  }

  lemma CommitKeepsSound(row: Row, request: Request, now: int)
    requires Sound(Load(row)) && Decide(row, request, now).Write?
    ensures Sound(Load(Decide(row, request, now).row))
  {
    var m, o := Load(row), ApplyRequest(Load(row), request.updates);
    hide ApplyRequest, Integral, Run;
    WriteComesFromRequest(row, request, now);
    RequestKeepsIntegral(m, request.updates);
    RequestAdvances(m, request.updates);
    RequestKeepsKeys(m, request.updates);
    ReloadTextKeys(o.meta.encryptionKeys, Same);
    ReloadKeepsIntegral(o.meta.snaps);
    SmallSurvives(o.meta.formatVersion.Or(0));
  }

  lemma RequestKeepsKeys(m: Metadata, raws: seq<RawUpdate>)
    requires UniqueKeys(m.encryptionKeys.Or([]))
    ensures UniqueKeys(ApplyRequest(m, raws).meta.encryptionKeys.Or([]))
  {
    hide Run, UniqueKeys;
    if ParseAll(raws).AllParsed? { RunKeepsKeys(m, Sorted(ParseAll(raws).us)); }
  }

  /** The snapshot log of the old row is a prefix of the new row's, entry for entry. */
  lemma CommitExtendsLog(row: Row, request: Request, now: int)
    requires Sound(Load(row)) && Decide(row, request, now).Write?
    ensures IsPrefix(Load(row).snaps.log.Or([]), Load(Decide(row, request, now).row).snaps.log.Or([]))
    ensures |Load(Decide(row, request, now).row).snaps.log.Or([])|
         == |Load(row).snaps.log.Or([])| + AddedSnapshots(ParseAll(request.updates).us)
  {
    var m, o := Load(row), ApplyRequest(Load(row), request.updates);
    hide ApplyRequest, Run;
    WriteComesFromRequest(row, request, now);
    RequestLog(m, request.updates);
    RequestKeepsIntegral(m, request.updates);
  }

  /** The UUID, the format version and the last sequence number, as later readers see them. */
  lemma CommitKeepsDirection(row: Row, request: Request, now: int)
    requires Sound(Load(row)) && Decide(row, request, now).Write?
    ensures KeepsDirection(Load(row), Load(Decide(row, request, now).row))
  {
    var m, o := Load(row), ApplyRequest(Load(row), request.updates);
    hide ApplyRequest, Run, Load, ReadInt64;
    WriteComesFromRequest(row, request, now);
    RequestAdvances(m, request.updates);
    RequestKeepsIntegral(m, request.updates);
    StoredDirection(m, o.meta, Decide(row, request, now).row);
  }

  lemma StoredDirection(m: Metadata, n: Metadata, row: Row)
    requires Sound(m) && KeepsDirection(m, n) && Integral(n.snaps)
    requires row.metadata == n.(lastUpdatedMs := row.metadata.lastUpdatedMs)
    ensures KeepsDirection(m, Load(row))
  {
    hide ReadInt64;
    SmallSurvives(n.formatVersion.Or(0));
  }

  // ---------------------------------------------------------------- one family across a commit

  /** A written row's families come from the loaded ones by the reordered request, stored and loaded. */
  lemma FamilyOfWrite(row: Row, request: Request, now: int, kind: Kind) returns (us: seq<Update>)
    requires Decide(row, request, now).Write?
    ensures ParseAll(request.updates).AllParsed? && us == Sorted(ParseAll(request.updates).us)
    ensures Run(Load(row), us).failure.None?
    ensures FamilyOf(Load(Decide(row, request, now).row), kind) == ReloadFamily(FamilyOf(Run(Load(row), us).meta, kind))
    ensures forall u :: u in us ==> ReadFromJson(u)
    ensures forall u :: u in us <==> u in ParseAll(request.updates).us
  {
    hide Run, ReadFromJson, Sorted, ReloadFamily;
    WriteComesFromRequest(row, request, now);
    us := Sorted(ParseAll(request.updates).us);
    ParsedRequestIsReadFromJson(request.updates);
    SortedIsStableSort(ParseAll(request.updates).us);
    ReloadOfFamily(Run(Load(row), us).meta, now, kind);
  }

  lemma ReloadOfFamily(m: Metadata, now: int, kind: Kind)
    ensures FamilyOf(Reload(m), kind) == ReloadFamily(FamilyOf(m, kind))
    ensures FamilyOf(Reload(m.(lastUpdatedMs := Is(now))), kind) == ReloadFamily(FamilyOf(m, kind))
  {
    hide ReloadFamily;
  }

  /** As loaded, last-column-id and last-partition-id do not fall in a commit exactly when all hints
      of the request are readable, or the mark was the smallest int64 before. */
  lemma CommitOnMark(row: Row, request: Request, now: int, kind: Kind)
    requires Decide(row, request, now).Write?
    ensures ParseAll(request.updates).AllParsed?
    ensures var before, after := FamilyOf(Load(row), kind), FamilyOf(Load(Decide(row, request, now).row), kind);
            before.lastFieldId.Or(0) <= after.lastFieldId.Or(0)
            <==> before.lastFieldId == Is(MIN_INT64) || HintsFit(ParseAll(request.updates).us, kind)
  {
    hide Run, Decide, ParseAll, ReadFromJson, HintFits, MarkFits, ExactMark, ReloadFamily;
    var us := FamilyOfWrite(row, request, now, kind);
    RunOnMark(Load(row), us, kind);
    ReloadOfFamily(row.metadata, now, kind);
    LoadedMark(FamilyOf(row.metadata, kind));
    MarkReadBack(FamilyOf(Load(row), kind), FamilyOf(Run(Load(row), us).meta, kind));
  }

  /** Specs and sort orders carry no hints, so their marks never fall. */
  lemma CommitRaisesOtherMarks(row: Row, request: Request, now: int, kind: Kind)
    requires Decide(row, request, now).Write? && kind != SchemaKind
    ensures FamilyOf(Load(row), kind).lastFieldId.Or(0)
         <= FamilyOf(Load(Decide(row, request, now).row), kind).lastFieldId.Or(0)
  {
    hide Decide, ParseAll, HintsFit, Load;
    CommitOnMark(row, request, now, kind);
    OnlySchemasHaveHints(ParseAll(request.updates).us, kind);
  }

  /** last-column-id goes on bounding the columns exactly when all hints are readable, or no column
      id is above the smallest int64. */
  lemma CommitOnColumns(row: Row, request: Request, now: int)
    requires Decide(row, request, now).Write? && ColumnsBounded(Load(row).schemas)
    ensures ParseAll(request.updates).AllParsed?
    ensures var after := Load(Decide(row, request, now).row).schemas;
            ColumnsBounded(after)
            <==> HintsFit(ParseAll(request.updates).us, SchemaKind) || ItemsBounded(after.entries.Or([]), MIN_INT64)
  {
    hide Run, Decide, ParseAll, ReadFromJson, HintFits, MarkFits, ExactMark, ItemsBounded, ColumnsBounded;
    var us := FamilyOfWrite(row, request, now, SchemaKind);
    var n := Run(Load(row), us).meta.schemas;
    RunOnMark(Load(row), us, SchemaKind);
    RunKeepsColumns(Load(row), us, SchemaKind);
    LoadedMark(row.metadata.schemas);
    ReloadOnColumns(n);
    ReloadedColumns(n);
  }

  lemma ReloadedColumns(f: Family)
    requires ColumnsBounded(f)
    ensures ItemsBounded(ReloadFamily(f).entries.Or([]), MIN_INT64) <==> ItemsBounded(f.entries.Or([]), MIN_INT64)
  {
    hide ItemsBounded, ReadInt64;
    ReloadedItemsBounded(f.entries, f.lastFieldId.Or(0), MIN_INT64);
  }

  /** Ids of one family that are distinct and survive the round trip. */
  ghost predicate IdsTidy(f: Family) {
    Distinct(f) && KeysExact(f.entries.Or([]))
  }

  /** A commit with room for the ids it assigns in one family keeps that family's ids distinct. */
  lemma CommitKeepsIds(row: Row, request: Request, now: int, kind: Kind)
    requires Decide(row, request, now).Write? && IdsTidy(FamilyOf(Load(row), kind))
    requires ParseAll(request.updates).AllParsed?
             && Room(FamilyOf(Load(row), kind).entries.Or([]), ParseAll(request.updates).us, kind)
    ensures IdsTidy(FamilyOf(Load(Decide(row, request, now).row), kind))
  {
    hide Run, Decide, ParseAll, ReadFromJson, Distinct, KeysExact, ReloadFamily, Room, Load;
    var us := FamilyOfWrite(row, request, now, kind);
    SortedRoom(FamilyOf(Load(row), kind).entries.Or([]), ParseAll(request.updates).us, kind);
    RunKeepsFamily(Load(row), us, kind);
    RunKeepsExactIds(Load(row), us, kind);
    ReloadKeepsFamily(FamilyOf(Run(Load(row), us).meta, kind));
  }

  /** Room does not depend on the order of the request. */
  lemma SortedRoom(items: seq<FamilyItem>, us: seq<Update>, kind: Kind)
    requires Room(items, us, kind)
    ensures Room(items, Sorted(us), kind)
  {
    hide Sorted, OpOf, OfRank, AdditionRank, GivesId;
    SortedIsStableSort(us);
    LackingOfRank(us, kind);
    LackingOfRank(Sorted(us), kind);
  }

  /** When a commit gives and removes no ids of a kind, the ids it assigns merge with others exactly
      when they do not survive the store and load. */
  lemma CommitMergesExactly(row: Row, request: Request, now: int, kind: Kind)
    requires Decide(row, request, now).Write? && IdsTidy(FamilyOf(Load(row), kind))
    requires ParseAll(request.updates).AllParsed?
    requires forall u :: u in ParseAll(request.updates).us && OpOf(u, kind).AddOp? ==> LacksId(OpOf(u, kind))
    requires RemovedIds(ParseAll(request.updates).us, kind) == {}
    requires MaxKey(FamilyOf(Load(row), kind).entries.Or([])) + Lacking(ParseAll(request.updates).us, kind) < TWO63
    ensures Distinct(FamilyOf(Load(Decide(row, request, now).row), kind))
       <==> AssignedSurvive(MaxKey(FamilyOf(Load(row), kind).entries.Or([])), Lacking(ParseAll(request.updates).us, kind))
  {
    hide Run, Decide, ParseAll, ReadFromJson, Distinct, KeysExact, ReloadFamily, Load, Sorted, LacksId, OpOf, RemovedIds,
      AssignedSurvive;
    var sorted := FamilyOfWrite(row, request, now, kind);
    RequestMergesExactly(Load(row), ParseAll(request.updates).us, kind);
  }

  /** Every commit keeps valid selections valid, whatever the ids. */
  lemma CommitKeepsSelection(row: Row, request: Request, now: int, kind: Kind)
    requires Decide(row, request, now).Write? && PointsInto(FamilyOf(Load(row), kind))
    ensures PointsInto(FamilyOf(Load(Decide(row, request, now).row), kind))
  {
    hide Run, Decide, ParseAll, ReadFromJson, PointsInto, ReloadFamily, Load;
    var us := FamilyOfWrite(row, request, now, kind);
    RunKeepsFamily(Load(row), us, kind);
    ReloadKeepsSelection(FamilyOf(Run(Load(row), us).meta, kind));
  }

  // ---------------------------------------------------------------- statistics across a commit

  ghost predicate StatisticsTidy(m: Metadata) {
    && UniqueKeys(m.statistics.Or([])) && KeysExact(m.statistics.Or([]))
    && UniqueKeys(m.partitionStatistics.Or([])) && KeysExact(m.partitionStatistics.Or([]))
  }

  /** The deprecated id an update falls back to survives the round trip. */
  predicate StatIdFits(u: Update) {
    u.SetStatistics? && u.statistics.Some? && u.statistics.value.key.None? && u.deprecatedSnapshotId.Some? ==>
      Exact(u.deprecatedSnapshotId.value)
  }

  lemma CommitKeepsStatistics(row: Row, request: Request, now: int)
    requires Decide(row, request, now).Write? && StatisticsTidy(Load(row))
    requires ParseAll(request.updates).AllParsed? && forall u :: u in ParseAll(request.updates).us ==> StatIdFits(u)
    ensures StatisticsTidy(Load(Decide(row, request, now).row))
  {
    hide Run, UniqueKeys, KeysExact, ReadFromJson, StatIdFits, Sorted;
    WriteComesFromRequest(row, request, now);
    var us := Sorted(ParseAll(request.updates).us);
    ParsedRequestIsReadFromJson(request.updates);
    SortedIsStableSort(ParseAll(request.updates).us);
    RunKeepsStatisticsExact(Load(row), us);
    RunKeepsStatisticsUnique(Load(row), us);
    ReloadKeepsStatistics(Run(Load(row), us).meta.(lastUpdatedMs := Is(now)));
  }

  lemma ReloadKeepsStatistics(m: Metadata)
    requires StatisticsTidy(m)
    ensures StatisticsTidy(Reload(m))
  {
    hide Exact;
    ReloadListKeys(m.statistics, Same);
    SameKeys(m.statistics.Or([]), ReloadList(m.statistics, Same).Or([]));
    ReloadListKeys(m.partitionStatistics, Same);
    SameKeys(m.partitionStatistics.Or([]), ReloadList(m.partitionStatistics, Same).Or([]));
  }

  /** Statistics set under an id on loaded ones are still unique at the next load exactly when the
      id survives, or what it is read back as is not there. */
  lemma StatisticsMergeExactly(slot: Slot<seq<StatItem>>, doc: StatDoc, id: int)
    requires UniqueKeys(slot.Or([])) && KeysExact(slot.Or([]))
    ensures UniqueKeys(ReloadList(PutStatistic(slot, doc, id), Same).Or([])) <==> Exact(id) || !HasKey(slot.Or([]), ReadInt64(id))
  {
    hide ReadInt64;
    var items, kept := slot.Or([]), Without(slot.Or([]), {id});
    var again, n := ReloadList(PutStatistic(slot, doc, id), Same).Or([]), |Without(slot.Or([]), {id})|;
    WithoutUnique(items, {id});
    RemovedStayExact(items, {id});
    WithoutKeys(items, {id}, ReadInt64(id));
    if HasKey(items, id) { KeyIsExact(items, id); }
    assert forall i :: 0 <= i < n && kept[i].Key().Some? ==> Exact(kept[i].Key().value);
    assert forall i :: 0 <= i < n ==> again[i].Key() == kept[i].Key();
    assert again[n].Key() == Some(ReadInt64(id));
    if HasKey(kept, ReadInt64(id)) {
      var i :| 0 <= i < n && kept[i].Key() == Some(ReadInt64(id));
      assert again[i].Key() == again[n].Key();
    }
  }

  lemma KeyIsExact(items: seq<StatItem>, id: int)
    requires KeysExact(items) && HasKey(items, id)
    ensures Exact(id)
  {
    hide Exact;
    var i :| 0 <= i < |items| && items[i].Key() == Some(id);
  }

  // ---------------------------------------------------------------- new tables

  /** Created and registered tables have bounded columns, distinct ids and unique statistics. */
  lemma InsertedIsTidy(row: Row)
    requires Inserted(row)
    ensures ColumnsBounded(Load(row).schemas) && StatisticsTidy(Load(row))
    ensures forall kind :: IdsTidy(FamilyOf(Load(row), kind))
  {
    hide Inserted, IdsTidy, StatisticsTidy, ColumnsBounded, ReloadFamily, MarkFits, Integral;
    FirstMetadata(row);
    ReloadOnColumns(row.metadata.schemas);
    ReloadKeepsStatistics(row.metadata);
    forall kind ensures IdsTidy(FamilyOf(Load(row), kind)) {
      assert IdsTidy(FamilyOf(row.metadata, kind));
      ReloadOfFamily(row.metadata, 0, kind);
      ReloadKeepsIds(FamilyOf(row.metadata, kind));
    }
  }

  lemma ReloadKeepsIds(f: Family)
    requires IdsTidy(f)
    ensures IdsTidy(ReloadFamily(f))
  {
    ReloadKeepsFamily(f);
  }

  lemma InitialIsTidy(uuid: string, location: string, now: int, schema: map<string, Json>,
                      spec: Json, order: Json, properties: Json)
    ensures var m := InitialMetadata(uuid, location, now, schema, spec, order, properties);
            && ColumnsBounded(m.schemas) && MarkFits(m.schemas) && StatisticsTidy(m)
            && forall kind :: IdsTidy(FamilyOf(m, kind))
  {
    hide Exact, ReadInt, ReadFieldIds, ColumnsBounded, Distinct, KeysExact;
    var m := InitialMetadata(uuid, location, now, schema, spec, order, properties);
    ReadIntIsExact(schema, "schema-id");
    ReadFieldIdsAreExact(schema, "id");
    if spec.Obj? { ReadIntIsExact(spec.members, "spec-id"); }
    if order.Obj? { ReadIntIsExact(order.members, "order-id"); }
    SingleIsTidy(m.schemas, m.schemas.entries.value[0]);
    SingleIsTidy(m.specs, m.specs.entries.value[0]);
    SingleIsTidy(m.sortOrders, m.sortOrders.entries.value[0]);
    SingleColumnsBounded(SchemaView(schema), m.schemas);
    NothingIsExact();
  }

  lemma NothingIsExact()
    ensures KeysExact<()>([]) && UniqueKeys<int, ()>([])
  {
  }

  lemma SingleIsTidy(f: Family, x: FamilyItem)
    requires f.entries == Is([x]) && (x.Key().Some? ==> Exact(x.Key().value))
    ensures IdsTidy(f)
  {
    hide Exact;
  }

  lemma SingleColumnsBounded(doc: FamilyDoc, f: Family)
    requires f.entries == Is([Object(doc)]) && FamilyReadFromJson(doc)
    requires f.lastFieldId == Is(if doc.detail.Some? then MaxFieldId(doc.detail.value) else 0)
    ensures ColumnsBounded(f) && MarkFits(f)
  {
    hide Exact;
    if doc.detail.Some? {
      MaxFieldIdExact(doc.detail.value);
      ExactFits(MaxFieldId(doc.detail.value));
    }
    OwnMaximumBounds(doc.detail, f.lastFieldId.Or(0));
  }

  // ---------------------------------------------------------------- statistics ids stay exact

  lemma StatisticsStayExact(slot: Slot<seq<StatItem>>, doc: StatDoc, id: int)
    requires KeysExact(slot.Or([])) && Exact(id)
    ensures KeysExact(PutStatistic(slot, doc, id).Or([]))
  {
    hide Exact;
    RemovedStayExact(slot.Or([]), {id});
  }

  lemma RemovedStayExact(items: seq<StatItem>, gone: set<int>)
    requires KeysExact(items)
    ensures KeysExact(Without(items, gone))
  {
    hide Exact;
    var kept := Without(items, gone);
    forall i | 0 <= i < |kept| && kept[i].Key().Some? ensures Exact(kept[i].Key().value) {
      WithoutMembers(items, gone, kept[i]);
      var j :| 0 <= j < |items| && items[j] == kept[i];
    }
  }

  lemma UpdateKeepsStatisticsExact(m: Metadata, u: Update)
    requires KeysExact(m.statistics.Or([])) && KeysExact(m.partitionStatistics.Or([]))
    requires ReadFromJson(u) && StatIdFits(u)
    ensures var n := ApplyUpdate(m, u).state;
            KeysExact(n.statistics.Or([])) && KeysExact(n.partitionStatistics.Or([]))
  {
    hide Exact, KeysExact;
    match u {
      case SetStatistics(id, doc) =>
        if doc.Some? {
          if doc.value.key.Some? { StatisticsStayExact(m.statistics, doc.value, doc.value.key.value); }
          else if id.Some? { StatisticsStayExact(m.statistics, doc.value, id.value); }
        }
      case SetPartitionStatistics(doc) =>
        if doc.Some? && doc.value.key.Some? {
          StatisticsStayExact(m.partitionStatistics, doc.value, doc.value.key.value);
        }
      case RemoveStatistics(id) => RemovedStayExact(m.statistics.Or([]), {id});
      case RemovePartitionStatistics(id) => RemovedStayExact(m.partitionStatistics.Or([]), {id});
      case _ =>
    }
  }

  lemma {:induction false} RunKeepsStatisticsExact(m: Metadata, us: seq<Update>)
    requires KeysExact(m.statistics.Or([])) && KeysExact(m.partitionStatistics.Or([]))
    requires forall u :: u in us ==> ReadFromJson(u) && StatIdFits(u)
    ensures KeysExact(Run(m, us).meta.statistics.Or([])) && KeysExact(Run(m, us).meta.partitionStatistics.Or([]))
    decreases |us|
  {
    hide ApplyUpdate, KeysExact, ReadFromJson, StatIdFits;
    if us != [] {
      UpdateKeepsStatisticsExact(m, us[0]);
      var s := ApplyUpdate(m, us[0]);
      if s.error.None? { RunKeepsStatisticsExact(s.state, us[1..]); }
    }
  }

  lemma ParsedRequestIsReadFromJson(raws: seq<RawUpdate>)
    requires ParseAll(raws).AllParsed?
    ensures forall u :: u in Sorted(ParseAll(raws).us) ==> ReadFromJson(u)
  {
    hide ReadFromJson, Sorted;
    var us := ParseAll(raws).us;
    ParseAllSpec(raws);
    SortedIsStableSort(us);
    forall u | u in Sorted(us) ensures ReadFromJson(u) {
      var i :| 0 <= i < |us| && us[i] == u;
      ParsedIsReadFromJson(raws[i]);
    }
  }
}
