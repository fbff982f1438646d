/** Snapshots, references, the current snapshot and the snapshot log stay consistent. */
module SnapshotIntegrity {
  import opened Options
  import opened JsonValues
  import opened Binary64
  import opened TableMetadata
  import opened Updates
  import opened Handlers
  import opened StableSort
  import opened Requests
  import opened ItemLemmas

  // ---------------------------------------------------------------- the invariant

  /** Every reference with a non-negative id names a snapshot that is present. */
  ghost predicate RefsResolve(s: Snapshots) {
    var refs := s.refs.Or(map[]);
    forall name :: name in refs && refs[name].Ref? && refs[name].snapshotId.Some? && refs[name].snapshotId.value >= 0
      ==> HasKey(s.list.Or([]), refs[name].snapshotId.value)
  }

  ghost predicate CurrentResolves(s: Snapshots) {
    s.current.Is? && s.current.value >= 0 ==> HasKey(s.list.Or([]), s.current.value)
  }

  /** While "main" is a branch, the current snapshot is the one it points at. */
  ghost predicate MainIsCurrent(s: Snapshots) {
    var refs := s.refs.Or(map[]);
    MAIN in refs && IsBranch(refs[MAIN]) ==>
      refs[MAIN].snapshotId.Some? && s.current == Is(refs[MAIN].snapshotId.value)
  }

  /** Every snapshot that is present was logged. */
  ghost predicate LogCovers(s: Snapshots) {
    forall key :: HasKey(s.list.Or([]), key) ==> HasKey(s.log.Or([]), key)
  }

  function SequenceOf(x: SnapshotItem): Option<int> {
    if x.Object? then x.doc.detail.sequenceNumber else None
  }

  /** last-sequence-number bounds every snapshot's sequence number. */
  ghost predicate SequencesBounded(s: Snapshots) {
    && (s.lastSequence.Is? ==> Exact(s.lastSequence.value))
    && forall x :: x in s.list.Or([]) && SequenceOf(x).Some? ==>
         Exact(SequenceOf(x).value) && SequenceOf(x).value <= s.lastSequence.Or(0)
  }

  /** Log entries carry ids and times that the JSON round trip leaves alone. */
  ghost predicate LogStable(s: Snapshots) {
    ReloadList(s.log, ReloadOption) == s.log
  }

  ghost predicate Integral(s: Snapshots) {
    && UniqueKeys(s.list.Or([]))
    && KeysExact(s.list.Or([]))
    && RefsResolve(s)
    && CurrentResolves(s)
    && MainIsCurrent(s)
    && LogCovers(s)
    && LogStable(s)
    && SequencesBounded(s)
  }

  lemma InitialIsIntegral(uuid: string, location: string, now: int, schema: map<string, Json>,
                          spec: Json, order: Json, properties: Json)
    ensures Integral(InitialMetadata(uuid, location, now, schema, spec, order, properties).snaps)
  {
    assert ReloadList(Is([]), ReloadOption).value == [];
  }

  lemma RegisteredIsIntegral(uuid: string, location: string, now: int)
    ensures Integral(RegisteredMetadata(uuid, location, now).snaps)
  {
  }

  // ---------------------------------------------------------------- what parsing gives

  /** Integers that were read from the request's JSON objects, not from typed fields. */
  ghost predicate ReadFromJson(u: Update) {
    match u
    case AddSnapshot(Some(doc)) =>
      && (doc.key.Some? ==> Exact(doc.key.value))
      && (doc.detail.timestampMs.Some? ==> Exact(doc.detail.timestampMs.value))
      && (doc.detail.sequenceNumber.Some? ==> Exact(doc.detail.sequenceNumber.value))
    case AddSchema(Some(doc), _) => FamilyReadFromJson(doc)
    case AddSpec(Some(doc)) => FamilyReadFromJson(doc)
    case AddSortOrder(Some(doc)) => FamilyReadFromJson(doc)
    case SetStatistics(_, Some(doc)) => doc.key.Some? ==> Exact(doc.key.value)
    case SetPartitionStatistics(Some(doc)) => doc.key.Some? ==> Exact(doc.key.value)
    case _ => true
  }

  ghost predicate FamilyReadFromJson(doc: FamilyDoc) {
    && (doc.key.Some? ==> Exact(doc.key.value))
    && (doc.detail.Some? ==> FieldIdsExact(doc.detail.value))
  }

  ghost predicate FieldIdsExact(ids: seq<Option<int>>) {
    forall i :: 0 <= i < |ids| && ids[i].Some? ==> Exact(ids[i].value)
  }

  lemma ReadIntIsExact(o: map<string, Json>, member: string)
    ensures ReadInt(o, member).Some? ==> Exact(ReadInt(o, member).value)
  {
    if member in o && o[member].Num? { ReadIsExact(o[member].n); }
  }

  lemma ReadFieldIdsAreExact(o: map<string, Json>, member: string)
    ensures ReadFieldIds(o, member).Some? ==> FieldIdsExact(ReadFieldIds(o, member).value)
  {
    if "fields" in o && o["fields"].Arr? {
      var fields := o["fields"].items;
      forall i | 0 <= i < |fields| && fields[i].Obj?
        ensures ReadInt(fields[i].members, member).Some? ==> Exact(ReadInt(fields[i].members, member).value)
      {
        ReadIntIsExact(fields[i].members, member);
      }
    }
  }

  /** Ids of a parsed update's JSON objects survive the round trip unchanged. */
  lemma ParsedIsReadFromJson(raw: RawUpdate)
    requires ParseUpdate(raw).Parsed?
    ensures ReadFromJson(ParseUpdate(raw).update)
  {
    var o := raw.body;
    match raw.action {
      case AddSnapshotAction =>
        var s := Member(o, "snapshot");
        if s.Obj? { ReadIntIsExact(s.members, "snapshot-id"); ReadIntIsExact(s.members, "timestamp-ms");
          ReadIntIsExact(s.members, "sequence-number"); }
      case AddSchemaAction =>
        var s := Member(o, "schema");
        if s.Obj? { ReadIntIsExact(s.members, "schema-id"); ReadFieldIdsAreExact(s.members, "id"); }
      case AddSpecAction =>
        var s := Member(o, "spec");
        if s.Obj? { ReadIntIsExact(s.members, "spec-id"); ReadFieldIdsAreExact(s.members, "field-id"); }
      case AddSortOrderAction =>
        var s := Member(o, "sort-order");
        if s.Obj? { ReadIntIsExact(s.members, "order-id"); }
      case SetStatisticsAction =>
        var s := Member(o, "statistics");
        if s.Obj? { ReadIntIsExact(s.members, "snapshot-id"); }
      case SetPartitionStatisticsAction =>
        var s := Member(o, "partition-statistics");
        if s.Obj? { ReadIntIsExact(s.members, "snapshot-id"); }
      case _ =>
    }
  }

  // ---------------------------------------------------------------- each handler keeps it

  lemma LogStaysStable(log: Slot<seq<LogItem>>, id: int, timestampMs: int)
    requires ReloadList(log, ReloadOption) == log && Exact(id) && Exact(timestampMs)
    ensures ReloadList(Is(log.Or([]) + [LogEntry(id, timestampMs)]), ReloadOption)
         == Is(log.Or([]) + [LogEntry(id, timestampMs)])
  {
    var before, after := log.Or([]), log.Or([]) + [LogEntry(id, timestampMs)];
    var again := ReloadList(Is(after), ReloadOption).value;
    forall i | 0 <= i < |after| ensures again[i] == after[i] {
      if i < |before| { assert ReloadList(log, ReloadOption).value[i] == before[i]; }
    }
    assert again == after;
  }

  lemma PutSnapshotKeeps(s: Snapshots, doc: Option<SnapshotDoc>)
    requires Integral(s) && ReadFromJson(AddSnapshot(doc))
    ensures Integral(PutSnapshot(s, doc).state)
  {
    hide Exact;
    if PutSnapshot(s, doc).error.None? {
      var list, item := s.list.Or([]), Object(doc.value);
      var id, time := doc.value.key.value, doc.value.detail.timestampMs.value;
      UniqueGrows(list, item);
      LogStaysStable(s.log, id, time);
      forall key ensures HasKey(list + [item], key) <==> HasKey(list, key) || item.Key() == Some(key) {
        HasKeyGrows(list, item, key);
      }
      forall key ensures HasKey(s.log.Or([]) + [LogEntry(id, time)], key) <==> HasKey(s.log.Or([]), key) || key == id {
        HasKeyGrows(s.log.Or([]), LogEntry(id, time), key);
      }
    }
  }

  lemma SetRefKeeps(s: Snapshots, name: string, kind: string, id: int, ret: Retention)
    requires Integral(s)
    ensures Integral(SetRef(s, name, kind, id, ret).state)
  {
  }

  lemma DropSnapshotsKeeps(s: Snapshots, ids: seq<int>)
    requires Integral(s)
    ensures Integral(DropSnapshots(s, ids).state)
  {
    var t := DropSnapshots(s, ids);
    if t.error.None? && ids != [] && s.list.Or([]) != [] {
      var list := s.list.value;
      WithoutUnique(list, ToSet(ids));
      forall key ensures HasKey(Without(list, ToSet(ids)), key) <==> HasKey(list, key) && key !in ids {
        WithoutKeys(list, ToSet(ids), key);
      }
      forall x ensures x in Without(list, ToSet(ids)) ==> x in list {
        WithoutMembers(list, ToSet(ids), x);
      }
      KeysExactByMembers(list, Without(list, ToSet(ids)));
    }
  }

  lemma KeysExactByMembers(list: seq<SnapshotItem>, part: seq<SnapshotItem>)
    requires KeysExact(list) && forall x :: x in part ==> x in list
    ensures KeysExact(part)
  {
    forall i | 0 <= i < |part| && part[i].Key().Some? ensures Exact(part[i].Key().value) {
      assert part[i] in list;
      var j :| 0 <= j < |list| && list[j] == part[i];
    }
  }

  lemma DropRefKeeps(s: Snapshots, name: string)
    requires Integral(s)
    ensures Integral(DropRef(s, name).state)
  {
  }

  /** Every update keeps the snapshots integral. */
  lemma UpdateKeepsIntegral(m: Metadata, u: Update)
    requires Integral(m.snaps) && ReadFromJson(u)
    ensures Integral(ApplyUpdate(m, u).state.snaps)
  {
    hide Integral;
    match u {
      case AddSnapshot(doc) => PutSnapshotKeeps(m.snaps, doc);
      case SetSnapshotRef(name, kind, id, ret) => SetRefKeeps(m.snaps, name, kind, id, ret);
      case RemoveSnapshots(ids) => DropSnapshotsKeeps(m.snaps, ids);
      case RemoveSnapshotRef(name) => DropRefKeeps(m.snaps, name);
      case _ =>
    }
  }

  lemma {:induction false} RunKeepsIntegral(m: Metadata, us: seq<Update>)
    requires Integral(m.snaps) && forall u :: u in us ==> ReadFromJson(u)
    ensures Integral(Run(m, us).meta.snaps)
    decreases |us|
  {
    hide ApplyUpdate, Integral, ReadFromJson;
    if us != [] {
      UpdateKeepsIntegral(m, us[0]);
      var s := ApplyUpdate(m, us[0]);
      if s.error.None? { RunKeepsIntegral(s.state, us[1..]); }
    }
  }

  /** So does any request, also one that fails after some of its updates. */
  lemma RequestKeepsIntegral(m: Metadata, raws: seq<RawUpdate>)
    requires Integral(m.snaps)
    ensures Integral(ApplyRequest(m, raws).meta.snaps)
  {
    hide Run, ReadFromJson, Integral;
    ParseAllSpec(raws);
    if ParseAll(raws).AllParsed? {
      var us := ParseAll(raws).us;
      SortedIsStableSort(us);
      forall u | u in Sorted(us) ensures ReadFromJson(u) {
        var i :| 0 <= i < |us| && us[i] == u;
        ParsedIsReadFromJson(raws[i]);
      }
      RunKeepsIntegral(m, Sorted(us));
    }
  }

  /** And so does storing the metadata and loading it again. */
  lemma ReloadKeepsIntegral(s: Snapshots)
    requires Integral(s)
    ensures Integral(ReloadSnapshots(s))
  {
    var t := ReloadSnapshots(s);
    var list, again := s.list.Or([]), t.list.Or([]);
    ReloadListKeys(s.list, ReloadSnapshotDetail);
    SameKeys(list, again);
    forall key | HasKey(list, key) ensures Exact(key) && HasKey(t.log.Or([]), key) {
      var i :| 0 <= i < |list| && list[i].Key() == Some(key);
      ReloadListFinds(s.log, ReloadOption, key);
    }
    if s.current.Is? { ReadBackResolves(s, s.current.value); }
    forall name | name in s.refs.Or(map[]) && s.refs.value[name].Ref? && s.refs.value[name].snapshotId.Some?
      ensures ReadInt64(s.refs.value[name].snapshotId.value) >= 0 ==>
                HasKey(list, ReadInt64(s.refs.value[name].snapshotId.value))
    {
      ReadBackResolves(s, s.refs.value[name].snapshotId.value);
    }
    forall x | x in again && SequenceOf(x).Some?
      ensures Exact(SequenceOf(x).value) && SequenceOf(x).value <= t.lastSequence.Or(0)
    {
      var i :| 0 <= i < |again| && again[i] == x;
      assert list[i] in list;
      assert SequenceOf(x).value == ReadInt64(SequenceOf(list[i]).value);
    }
  }

  /** An id that resolves when it is non-negative is read back unchanged, or is negative. */
  lemma ReadBackResolves(s: Snapshots, id: int)
    requires KeysExact(s.list.Or([])) && (id >= 0 ==> HasKey(s.list.Or([]), id))
    ensures ReadInt64(id) >= 0 ==> HasKey(s.list.Or([]), ReadInt64(id))
  {
    if id < 0 {
      NegativeStaysNegative(id);
    } else {
      var list := s.list.Or([]);
      var i :| 0 <= i < |list| && list[i].Key() == Some(id);
    }
  }

  // ---------------------------------------------------------------- the snapshot log

  function AddedSnapshots(us: seq<Update>): nat {
    if us == [] then 0 else (if us[0].AddSnapshot? then 1 else 0) + AddedSnapshots(us[1..])
  }

  ghost predicate IsPrefix<T(!new)>(a: seq<T>, b: seq<T>) {
    |a| <= |b| && a == b[..|a|]
  }

  /** The log only grows at its end, by one entry per added snapshot. */
  lemma {:induction false} LogOnlyGrows(m: Metadata, us: seq<Update>)
    ensures IsPrefix(m.snaps.log.Or([]), Run(m, us).meta.snaps.log.Or([]))
    ensures Run(m, us).failure.None? ==>
              |Run(m, us).meta.snaps.log.Or([])| == |m.snaps.log.Or([])| + AddedSnapshots(us)
    decreases |us|
  {
    if us != [] {
      var s := ApplyUpdate(m, us[0]);
      LogStep(m, us[0]);
      if s.error.None? { LogOnlyGrows(s.state, us[1..]); }
    }
  }

  lemma LogStep(m: Metadata, u: Update)
    ensures IsPrefix(m.snaps.log.Or([]), ApplyUpdate(m, u).state.snaps.log.Or([]))
    ensures ApplyUpdate(m, u).error.None? ==>
              |ApplyUpdate(m, u).state.snaps.log.Or([])| == |m.snaps.log.Or([])| + (if u.AddSnapshot? then 1 else 0)
  {
  }

  lemma {:induction false} CountIsRankSize(us: seq<Update>)
    ensures AddedSnapshots(us) == |OfRank(us, Position(AddSnapshotAction))|
  {
    if us != [] { CountIsRankSize(us[1..]); }
  }

  /** A request leaves the old log as a prefix; a successful one adds an entry per add-snapshot. */
  lemma RequestLog(m: Metadata, raws: seq<RawUpdate>)
    ensures IsPrefix(m.snaps.log.Or([]), ApplyRequest(m, raws).meta.snaps.log.Or([]))
    ensures ApplyRequest(m, raws).failure.None? ==>
              |ApplyRequest(m, raws).meta.snaps.log.Or([])|
              == |m.snaps.log.Or([])| + AddedSnapshots(ParseAll(raws).us)
  {
    if ParseAll(raws).AllParsed? {
      var us := ParseAll(raws).us;
      LogOnlyGrows(m, Sorted(us));
      SortedIsStableSort(us);
      CountIsRankSize(us);
      CountIsRankSize(Sorted(us));
    }
  }
}
