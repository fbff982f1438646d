/** The update processor: its metadata field is rewritten step by step by each handler. */
module UpdateProcessor {
  import opened Options
  import opened JsonValues
  import opened TableMetadata
  import opened Updates
  import opened Handlers
  import opened StableSort
  import opened Requests

  // ---------------------------------------------------------------- loops shared by the handlers

  /** The search for an id that every duplicate and existence check makes. */
  method ContainsKey<K(==), D>(items: seq<Item<K, D>>, key: K) returns (found: bool)
    ensures found == HasKey(items, key)
  {
    for i := 0 to |items|
      invariant forall j :: 0 <= j < i ==> items[j].Key() != Some(key)
    {
      if items[i].Key().Some? && items[i].Key().value == key {
        return true;
      }
    }
    return false;
  }

  method MaxIntInSlice<D>(items: seq<Item<int, D>>) returns (top: int)
    ensures top == MaxKey(items)
  {
    top := 0;
    for i := 0 to |items|
      invariant top == MaxKey(items[..i])
    {
      assert items[..i + 1][..i] == items[..i];
      if items[i].Key().Some? && items[i].Key().value > top {
        top := items[i].Key().value;
      }
    }
    assert items[..|items|] == items;
  }

  method MaxField(ids: seq<Option<int>>) returns (top: int)
    ensures top == MaxFieldId(ids)
  {
    top := 0;
    for i := 0 to |ids|
      invariant top == MaxFieldId(ids[..i])
    {
      assert ids[..i + 1][..i] == ids[..i];
      if ids[i].Some? && ids[i].value > top {
        top := ids[i].value;
      }
    }
    assert ids[..|ids|] == ids;
  }

  method FilterSlice<K(==), D>(items: seq<Item<K, D>>, gone: set<K>) returns (kept: seq<Item<K, D>>)
    ensures kept == Without(items, gone)
  {
    kept := [];
    for i := 0 to |items|
      invariant kept == Without(items[..i], gone)
    {
      assert items[..i + 1][..i] == items[..i];
      if !(items[i].Key().Some? && items[i].Key().value in gone) {
        kept := kept + [items[i]];
      }
    }
    assert items[..|items|] == items;
  }

  method CollectIds(ids: seq<int>) returns (toRemove: set<int>)
    ensures toRemove == ToSet(ids)
  {
    toRemove := {};
    for i := 0 to |ids|
      invariant toRemove == ToSet(ids[..i])
    {
      toRemove := toRemove + {ids[i]};
      assert ids[..i + 1] == ids[..i] + [ids[i]];
    }
    assert ids[..|ids|] == ids;
  }

  method RemoveItemsById(items: seq<FamilyItem>, ids: seq<int>, inUse: int)
    returns (kept: seq<FamilyItem>, error: Option<Error>)
    ensures Step(kept, error) == RemoveById(items, ids, inUse)
  {
    if |ids| == 0 || |items| == 0 {
      return items, None;
    }
    var toRemove := CollectIds(ids);
    if inUse in toRemove {
      return items, Some(EntryInUse);
    }
    kept := FilterSlice(items, toRemove);
    if |kept| == 0 {
      return items, Some(CannotRemoveAll);
    }
    return kept, None;
  }

  /** The scan over refs that guards snapshot removal; a map is visited in any order. */
  method AnyRefersInto(refs: map<string, Ref>, toRemove: set<int>, ghost ids: seq<int>) returns (found: bool)
    requires toRemove == ToSet(ids)
    ensures found == RefersInto(refs, ids)
  {
    var todo := refs.Keys;
    while todo != {}
      invariant todo <= refs.Keys
      invariant forall name :: name in refs && name !in todo && refs[name].Ref? && refs[name].snapshotId.Some?
                  ==> refs[name].snapshotId.value !in ids
    {
      var name :| name in todo;
      todo := todo - {name};
      var ref := refs[name];
      if ref.Ref? && ref.snapshotId.Some? && ref.snapshotId.value in toRemove {
        return true;
      }
    }
    return false;
  }

  /** What the loop below has written when `todo` is left. */
  function Written(updates: map<string, string>, todo: set<string>): map<string, Json> {
    map k | k in updates && k !in todo :: Str(updates[k])
  }

  /** The loop of set-properties; the request's map is visited in any order. */
  method WriteProperties(before: map<string, Json>, updates: map<string, string>) returns (props: map<string, Json>)
    ensures props == before + map k | k in updates :: Str(updates[k])
  {
    props := before;
    var todo := updates.Keys;
    while todo != {}
      invariant todo <= updates.Keys
      invariant props == before + Written(updates, todo)
    {
      var key :| key in todo;
      todo := todo - {key};
      props := props[key := Str(updates[key])];
    }
    assert Written(updates, todo) == map k | k in updates :: Str(updates[k]);
  }

  // ---------------------------------------------------------------- the processor

  class Processor {
    var metadata: Metadata

    /** The updates whose handlers were run, in the order in which they were. */
    ghost var ran: seq<Update>

    /** `NewProcessor`: works on the metadata as it comes back from its JSON copy. */
    constructor (original: Metadata)
      ensures metadata == Reload(original) && ran == []
    {
      metadata, ran := Reload(original), [];
    }

    // -------------------------------------------------------------- core attributes

    method ApplyAssignUuid(uuid: string) returns (error: Option<Error>)
      modifies this`metadata
      ensures Step(metadata, error) == ApplyUpdate(old(metadata), AssignUuid(uuid))
    {
      if uuid == "" {
        return Some(UuidRequired);
      }
      if metadata.tableUuid.Is? && metadata.tableUuid.value != "" && metadata.tableUuid.value != uuid {
        return Some(UuidIsFixed);
      }
      metadata := metadata.(tableUuid := Is(uuid));
      return None;
    }

    method ApplyUpgradeFormatVersion(version: int) returns (error: Option<Error>)
      modifies this`metadata
      ensures Step(metadata, error) == ApplyUpdate(old(metadata), UpgradeFormatVersion(version))
    {
      if version < 1 || version > 3 {
        return Some(BadFormatVersion);
      }
      if version < metadata.formatVersion.Or(0) {
        return Some(CannotDowngrade);
      }
      metadata := metadata.(formatVersion := Is(version));
      return None;
    }

    method ApplySetLocation(location: string) returns (error: Option<Error>)
      modifies this`metadata
      ensures Step(metadata, error) == ApplyUpdate(old(metadata), SetLocation(location))
    {
      if location == "" {
        return Some(LocationRequired);
      }
      metadata := metadata.(location := Is(location));
      return None;
    }

    method ApplySetProperties(updates: map<string, string>) returns (error: Option<Error>)
      modifies this`metadata
      ensures Step(metadata, error) == ApplyUpdate(old(metadata), SetProperties(updates))
    {
      if updates == map[] {
        return None;
      }
      var props := WriteProperties(metadata.properties.Or(map[]), updates);
      metadata := metadata.(properties := Is(props));
      return None;
    }

    method ApplyRemoveProperties(removals: seq<string>) returns (error: Option<Error>)
      modifies this`metadata
      ensures Step(metadata, error) == ApplyUpdate(old(metadata), RemoveProperties(removals))
    {
      if |removals| == 0 || !metadata.properties.Is? {
        return None;
      }
      var props := metadata.properties.value;
      ghost var before := props;
      for i := 0 to |removals|
        invariant props == before - ToSet(removals[..i])
        invariant metadata == old(metadata).(properties := Is(props))
      {
        props := props - {removals[i]};
        metadata := metadata.(properties := Is(props));
        assert removals[..i + 1] == removals[..i] + [removals[i]];
      }
      assert removals[..|removals|] == removals;
      return None;
    }

    // -------------------------------------------------------------- schemas, specs, sort orders

    /** The body `applyAddSchema`, `applyAddSpec` and `applyAddSortOrder` have in common. */
    method AddFamilyEntry(f: Family, doc: Option<FamilyDoc>, hint: Option<int>)
      returns (g: Family, error: Option<Error>)
      ensures Step(g, error) == AddEntry(f, doc, hint)
    {
      g := f;
      if doc.None? {
        return g, Some(PayloadRequired);
      }
      var items := g.entries.Or([]);
      g := g.(entries := Is(items));
      var id;
      if doc.value.key.Some? {
        id := doc.value.key.value;
      } else {
        var top := MaxIntInSlice(items);
        id := Wrap64(top + 1);
      }
      var duplicate := ContainsKey(items, id);
      if duplicate {
        return g, Some(DuplicateId);
      }
      if doc.value.detail.Some? {
        var top := MaxField(doc.value.detail.value);
        if top > g.lastFieldId.Or(0) {
          g := g.(lastFieldId := Is(top));
        }
      }
      if hint.Some? && hint.value > g.lastFieldId.Or(0) {
        g := g.(lastFieldId := Is(hint.value));
      }
      g := g.(entries := Is(items + [Object(doc.value.(key := Some(id)))]));
      return g, None;
    }

    method SetFamilyPointer(f: Family, target: int) returns (g: Family, error: Option<Error>)
      ensures Step(g, error) == SetPointer(f, target)
    {
      g := f;
      if !g.entries.Is? || |g.entries.value| == 0 {
        return g, Some(NothingToSelect);
      }
      var items := g.entries.value;
      var id := target;
      if id == -1 {
        var last := items[|items| - 1].Key();
        if last.Some? {
          id := last.value;
        }
      }
      var found := ContainsKey(items, id);
      if !found {
        return g, Some(NoSuchEntry);
      }
      g := g.(pointer := Is(id));
      return g, None;
    }

    method RemoveFamilyEntries(f: Family, ids: seq<int>) returns (g: Family, error: Option<Error>)
      ensures Step(g, error) == RemoveEntries(f, ids)
    {
      g := f;
      if !g.entries.Is? {
        return g, None;
      }
      var kept, e := RemoveItemsById(g.entries.value, ids, g.pointer.Or(0));
      if e.Some? {
        return g, e;
      }
      g := g.(entries := Is(kept));
      return g, None;
    }

    method ApplyAddSchema(schema: Option<FamilyDoc>, lastColumnId: Option<int>) returns (error: Option<Error>)
      modifies this`metadata
      ensures Step(metadata, error) == ApplyUpdate(old(metadata), AddSchema(schema, lastColumnId))
    {
      var f;
      f, error := AddFamilyEntry(metadata.schemas, schema, lastColumnId);
      metadata := metadata.(schemas := f);
    }

    method ApplySetCurrentSchema(id: int) returns (error: Option<Error>)
      modifies this`metadata
      ensures Step(metadata, error) == ApplyUpdate(old(metadata), SetCurrentSchema(id))
    {
      var f;
      f, error := SetFamilyPointer(metadata.schemas, id);
      metadata := metadata.(schemas := f);
    }

    method ApplyRemoveSchemas(ids: seq<int>) returns (error: Option<Error>)
      modifies this`metadata
      ensures Step(metadata, error) == ApplyUpdate(old(metadata), RemoveSchemas(ids))
    {
      var f;
      f, error := RemoveFamilyEntries(metadata.schemas, ids);
      metadata := metadata.(schemas := f);
    }

    method ApplyAddSpec(spec: Option<FamilyDoc>) returns (error: Option<Error>)
      modifies this`metadata
      ensures Step(metadata, error) == ApplyUpdate(old(metadata), AddSpec(spec))
    {
      var f;
      f, error := AddFamilyEntry(metadata.specs, spec, None);
      metadata := metadata.(specs := f);
    }

    method ApplySetDefaultSpec(id: int) returns (error: Option<Error>)
      modifies this`metadata
      ensures Step(metadata, error) == ApplyUpdate(old(metadata), SetDefaultSpec(id))
    {
      var f;
      f, error := SetFamilyPointer(metadata.specs, id);
      metadata := metadata.(specs := f);
    }

    method ApplyRemovePartitionSpecs(ids: seq<int>) returns (error: Option<Error>)
      modifies this`metadata
      ensures Step(metadata, error) == ApplyUpdate(old(metadata), RemovePartitionSpecs(ids))
    {
      var f;
      f, error := RemoveFamilyEntries(metadata.specs, ids);
      metadata := metadata.(specs := f);
    }

    method ApplyAddSortOrder(sortOrder: Option<FamilyDoc>) returns (error: Option<Error>)
      modifies this`metadata
      ensures Step(metadata, error) == ApplyUpdate(old(metadata), AddSortOrder(sortOrder))
    {
      var f;
      f, error := AddFamilyEntry(metadata.sortOrders, sortOrder, None);
      metadata := metadata.(sortOrders := f);
    }

    method ApplySetDefaultSortOrder(id: int) returns (error: Option<Error>)
      modifies this`metadata
      ensures Step(metadata, error) == ApplyUpdate(old(metadata), SetDefaultSortOrder(id))
    {
      var f;
      f, error := SetFamilyPointer(metadata.sortOrders, id);
      metadata := metadata.(sortOrders := f);
    }

    // -------------------------------------------------------------- snapshots

    method ApplyAddSnapshot(snapshot: Option<SnapshotDoc>) returns (error: Option<Error>)
      modifies this`metadata
      ensures Step(metadata, error) == ApplyUpdate(old(metadata), AddSnapshot(snapshot))
    {
      if snapshot.None? {
        return Some(PayloadRequired);
      }
      var doc := snapshot.value;
      if doc.key.None? {
        return Some(IdRequired);
      }
      if doc.detail.timestampMs.None? {
        return Some(TimestampRequired);
      }
      var list := metadata.snaps.list.Or([]);
      metadata := metadata.(snaps := metadata.snaps.(list := Is(list)));
      var duplicate := ContainsKey(list, doc.key.value);
      if duplicate {
        return Some(DuplicateId);
      }
      metadata := metadata.(snaps := metadata.snaps.(list := Is(list + [Object(doc)])));
      if doc.detail.sequenceNumber.Some? {
        var sequence := doc.detail.sequenceNumber.value;
        if sequence > metadata.snaps.lastSequence.Or(0) {
          metadata := metadata.(snaps := metadata.snaps.(lastSequence := Is(sequence)));
        }
      }
      var log := metadata.snaps.log.Or([]);
      var entry := LogEntry(doc.key.value, doc.detail.timestampMs.value);
      metadata := metadata.(snaps := metadata.snaps.(log := Is(log + [entry])));
      return None;
    }

    method ApplySetSnapshotRef(name: string, kind: string, id: int, retention: Retention)
      returns (error: Option<Error>)
      modifies this`metadata
      ensures Step(metadata, error) == ApplyUpdate(old(metadata), SetSnapshotRef(name, kind, id, retention))
    {
      if name == "" {
        return Some(RefNameRequired);
      }
      if kind != BRANCH && kind != TAG {
        return Some(BadRefType);
      }
      if id >= 0 {
        var found := ContainsKey(metadata.snaps.list.Or([]), id);
        if !found {
          return Some(NoSuchSnapshot);
        }
      }
      var refs := metadata.snaps.refs.Or(map[]);
      refs := refs[name := Ref(Some(kind), Some(id), retention)];
      metadata := metadata.(snaps := metadata.snaps.(refs := Is(refs)));
      if name == MAIN && kind == BRANCH {
        metadata := metadata.(snaps := metadata.snaps.(current := Is(id)));
      }
      return None;
    }

    method ApplyRemoveSnapshots(ids: seq<int>) returns (error: Option<Error>)
      modifies this`metadata
      ensures Step(metadata, error) == ApplyUpdate(old(metadata), RemoveSnapshots(ids))
    {
      if |ids| == 0 {
        return None;
      }
      if !metadata.snaps.list.Is? || |metadata.snaps.list.value| == 0 {
        return None;
      }
      var toRemove := CollectIds(ids);
      var referenced := AnyRefersInto(metadata.snaps.refs.Or(map[]), toRemove, ids);
      if referenced {
        return Some(SnapshotReferenced);
      }
      if metadata.snaps.current.Is? && metadata.snaps.current.value in toRemove {
        return Some(SnapshotIsCurrent);
      }
      var kept := FilterSlice(metadata.snaps.list.value, toRemove);
      metadata := metadata.(snaps := metadata.snaps.(list := Is(kept)));
      return None;
    }

    method ApplyRemoveSnapshotRef(name: string) returns (error: Option<Error>)
      modifies this`metadata
      ensures Step(metadata, error) == ApplyUpdate(old(metadata), RemoveSnapshotRef(name))
    {
      if name == "" {
        return Some(RefNameRequired);
      }
      if !metadata.snaps.refs.Is? {
        return None;
      }
      var refs := metadata.snaps.refs.value;
      if name in refs && IsBranch(refs[name]) && name == MAIN {
        metadata := metadata.(snaps := metadata.snaps.(current := Absent));
      }
      metadata := metadata.(snaps := metadata.snaps.(refs := Is(refs - {name})));
      return None;
    }

    // -------------------------------------------------------------- statistics

    method ApplySetStatistics(deprecatedId: Option<int>, statistics: Option<StatDoc>) returns (error: Option<Error>)
      modifies this`metadata
      ensures Step(metadata, error) == ApplyUpdate(old(metadata), SetStatistics(deprecatedId, statistics))
    {
      if statistics.None? {
        return Some(PayloadRequired);
      }
      var doc := statistics.value;
      if doc.key.None? {
        if deprecatedId.None? {
          return Some(IdRequired);
        }
        doc := doc.(key := deprecatedId);
      }
      var kept := FilterSlice(metadata.statistics.Or([]), {doc.key.value});
      metadata := metadata.(statistics := Is(kept + [Object(doc)]));
      return None;
    }

    method ApplyRemoveStatistics(id: int) returns (error: Option<Error>)
      modifies this`metadata
      ensures Step(metadata, error) == ApplyUpdate(old(metadata), RemoveStatistics(id))
    {
      if metadata.statistics.Is? && |metadata.statistics.value| != 0 {
        var kept := FilterSlice(metadata.statistics.value, {id});
        metadata := metadata.(statistics := Is(kept));
      }
      return None;
    }

    method ApplySetPartitionStatistics(statistics: Option<StatDoc>) returns (error: Option<Error>)
      modifies this`metadata
      ensures Step(metadata, error) == ApplyUpdate(old(metadata), SetPartitionStatistics(statistics))
    {
      if statistics.None? {
        return Some(PayloadRequired);
      }
      var doc := statistics.value;
      if doc.key.None? {
        return Some(IdRequired);
      }
      var kept := FilterSlice(metadata.partitionStatistics.Or([]), {doc.key.value});
      metadata := metadata.(partitionStatistics := Is(kept + [Object(doc)]));
      return None;
    }

    method ApplyRemovePartitionStatistics(id: int) returns (error: Option<Error>)
      modifies this`metadata
      ensures Step(metadata, error) == ApplyUpdate(old(metadata), RemovePartitionStatistics(id))
    {
      if metadata.partitionStatistics.Is? && |metadata.partitionStatistics.value| != 0 {
        var kept := FilterSlice(metadata.partitionStatistics.value, {id});
        metadata := metadata.(partitionStatistics := Is(kept));
      }
      return None;
    }

    // -------------------------------------------------------------- encryption keys

    method ApplyAddEncryptionKey(encryptionKey: Option<KeyDoc>) returns (error: Option<Error>)
      modifies this`metadata
      ensures Step(metadata, error) == ApplyUpdate(old(metadata), AddEncryptionKey(encryptionKey))
    {
      if encryptionKey.None? {
        return Some(PayloadRequired);
      }
      var doc := encryptionKey.value;
      if doc.key.None? || doc.key.value == "" {
        return Some(KeyIdRequired);
      }
      var keys := metadata.encryptionKeys.Or([]);
      metadata := metadata.(encryptionKeys := Is(keys));
      var duplicate := ContainsKey(keys, doc.key.value);
      if duplicate {
        return Some(DuplicateId);
      }
      metadata := metadata.(encryptionKeys := Is(keys + [Object(doc)]));
      return None;
    }

    method ApplyRemoveEncryptionKey(id: string) returns (error: Option<Error>)
      modifies this`metadata
      ensures Step(metadata, error) == ApplyUpdate(old(metadata), RemoveEncryptionKey(id))
    {
      if id == "" {
        return Some(KeyIdRequired);
      }
      if metadata.encryptionKeys.Is? && |metadata.encryptionKeys.value| != 0 {
        var kept := FilterSlice(metadata.encryptionKeys.value, {id});
        metadata := metadata.(encryptionKeys := Is(kept));
      }
      return None;
    }

    // -------------------------------------------------------------- dispatch and Apply

    method ApplyOne(u: Update) returns (error: Option<Error>)
      modifies this
      ensures Step(metadata, error) == ApplyUpdate(old(metadata), u)
      ensures ran == old(ran) + [u]
    {
      ran := ran + [u];
      match u {
        case AssignUuid(uuid) => error := ApplyAssignUuid(uuid);
        case UpgradeFormatVersion(v) => error := ApplyUpgradeFormatVersion(v);
        case SetLocation(l) => error := ApplySetLocation(l);
        case SetProperties(updates) => error := ApplySetProperties(updates);
        case RemoveProperties(removals) => error := ApplyRemoveProperties(removals);
        case AddSchema(doc, hint) => error := ApplyAddSchema(doc, hint);
        case SetCurrentSchema(id) => error := ApplySetCurrentSchema(id);
        case RemoveSchemas(ids) => error := ApplyRemoveSchemas(ids);
        case AddSpec(doc) => error := ApplyAddSpec(doc);
        case SetDefaultSpec(id) => error := ApplySetDefaultSpec(id);
        case RemovePartitionSpecs(ids) => error := ApplyRemovePartitionSpecs(ids);
        case AddSortOrder(doc) => error := ApplyAddSortOrder(doc);
        case SetDefaultSortOrder(id) => error := ApplySetDefaultSortOrder(id);
        case AddSnapshot(doc) => error := ApplyAddSnapshot(doc);
        case SetSnapshotRef(name, kind, id, ret) => error := ApplySetSnapshotRef(name, kind, id, ret);
        case RemoveSnapshots(ids) => error := ApplyRemoveSnapshots(ids);
        case RemoveSnapshotRef(name) => error := ApplyRemoveSnapshotRef(name);
        case SetStatistics(id, doc) => error := ApplySetStatistics(id, doc);
        case RemoveStatistics(id) => error := ApplyRemoveStatistics(id);
        case SetPartitionStatistics(doc) => error := ApplySetPartitionStatistics(doc);
        case RemovePartitionStatistics(id) => error := ApplyRemovePartitionStatistics(id);
        case AddEncryptionKey(doc) => error := ApplyAddEncryptionKey(doc);
        case RemoveEncryptionKey(id) => error := ApplyRemoveEncryptionKey(id);
      }
    }

    /** `Apply`: parse, then two nested loops over the processing order and the grouped updates. */
    method Apply(raws: seq<RawUpdate>) returns (failure: Option<Failure>)
      modifies this
      ensures Outcome(metadata, failure) == ApplyRequest(old(metadata), raws)
      ensures ParseAll(raws).FirstBad? ==> ran == old(ran)
      ensures ParseAll(raws).AllParsed? ==> RanThrough(old(metadata), old(ran), ran, Sorted(ParseAll(raws).us), failure)
    {
      if |raws| == 0 {
        SortedEmpty();
        return None;
      }
      var parsed, bad := ParseUpdates(raws);
      if bad.Some? {
        return bad;
      }
      failure := ApplyGroups(PROCESSING_ORDER, parsed, ParseAll(raws).us);
    }

    /** The inner loop: the updates of one action, up to the first error. */
    method ApplyGroup(action: Action, updates: seq<Update>) returns (failure: Option<Failure>)
      requires forall u :: u in updates ==> ActionOf(u) == action
      modifies this
      ensures Outcome(metadata, failure) == Run(old(metadata), updates)
      ensures RanThrough(old(metadata), old(ran), ran, updates, failure)
    {
      hide ApplyUpdate;
      assert updates[..0] == [];
      for j := 0 to |updates|
        invariant Run(metadata, updates[j..]) == Run(old(metadata), updates)
        invariant Run(old(metadata), updates[..j]) == Outcome(metadata, None)
        invariant ran == old(ran) + updates[..j]
      {
        ghost var before := metadata;
        assert updates[j..][0] == updates[j] && updates[j..][1..] == updates[j + 1..];
        assert updates[..j + 1] == updates[..j] + [updates[j]];
        var error := ApplyOne(updates[j]);
        RunConcat(old(metadata), updates[..j], [updates[j]]);
        RunSingle(before, updates[j]);
        if error.Some? {
          assert ran[|old(ran)|..] == updates[..j + 1];
          return Some(Rejected(action, error.value));
        }
      }
      assert updates[..|updates|] == updates;
      return None;
    }

    /** The nested loops over an order and the grouped updates, and the check that follows them. */
    method ApplyGroups(order: seq<Action>, parsed: map<Action, seq<Update>>, ghost us: seq<Update>)
      returns (failure: Option<Failure>)
      requires Groups(order, parsed, us) && Labelled(order, us)
      modifies this
      ensures Outcome(metadata, failure) == Run(old(metadata), Sorted(us))
      ensures RanThrough(old(metadata), old(ran), ran, Sorted(us), failure)
    {
      hide *;
      ghost var done: seq<Update> := [];
      NothingRan(metadata);
      StartsAtRankZero(order, parsed, us);
      for r := 0 to |order|
        invariant Sorted(us) == done + FromRank(us, r) && ran == old(ran) + done
        invariant Run(old(metadata), done) == Outcome(metadata, None)
      {
        ghost var start, group, rest := metadata, OfRank(us, r), FromRank(us, r + 1);
        RankStep(us, r, done);
        GroupOfRank(order, parsed, us, r);
        if order[r] in parsed {
          failure := ApplyGroup(order[r], parsed[order[r]]);
          GroupRan(old(metadata), old(ran), done, start, ran, group, rest, metadata, failure);
          if failure.Some? {
            return;
          }
          done := done + group;
        }
      }
      failure := CheckUnknown(order, parsed);
      assert done + FromRank(us, |order|) == done;
      AllRan(old(metadata), old(ran), ran, Sorted(us));
    }
  }

  lemma StartsAtRankZero(order: seq<Action>, parsed: map<Action, seq<Update>>, us: seq<Update>)
    requires Groups(order, parsed, us) && Labelled(order, us)
    ensures |order| == RANKS && Sorted(us) == FromRank(us, 0) && FromRank(us, |order|) == []
    ensures forall action :: action in parsed ==> action in order
  {
  }

  lemma RankStep(us: seq<Update>, r: nat, done: seq<Update>)
    requires r < RANKS
    ensures done + FromRank(us, r) == done + (OfRank(us, r) + FromRank(us, r + 1))
    ensures done + FromRank(us, r) == done + OfRank(us, r) + FromRank(us, r + 1)
  {
    hide OfRank;
  }

  lemma GroupOfRank(order: seq<Action>, parsed: map<Action, seq<Update>>, us: seq<Update>, r: nat)
    requires Groups(order, parsed, us) && Labelled(order, us) && r < |order|
    ensures order[r] in parsed ==> parsed[order[r]] == OfRank(us, r)
    ensures order[r] !in parsed ==> OfRank(us, r) == []
    ensures forall u :: u in OfRank(us, r) ==> ActionOf(u) == order[r]
  {
    hide OfRank, Rank, Labelled;
    OfRankLabels(order, us, r);
    assert OfRank(us, r) == GroupOf(parsed, order[r]);
  }

  /** From `before` to `after`, the handlers of this order ran one by one from its start: all of them
      without a failure, and otherwise none after the one that failed. */
  ghost predicate RanThrough(m: Metadata, before: seq<Update>, after: seq<Update>, order: seq<Update>, failure: Option<Failure>) {
    && before <= after
    && var done := after[|before|..];
       && done <= order
       && (failure.None? ==> done == order)
       && (failure.Some? ==> done != [] && Run(m, done[..|done| - 1]).failure.None? && Run(m, done).failure == failure)
  }

  lemma NothingRan(m: Metadata)
    ensures Run(m, []) == Outcome(m, None)
  {
  }

  lemma AllRan(m: Metadata, before: seq<Update>, after: seq<Update>, order: seq<Update>)
    requires after == before + order && Run(m, order).failure.None?
    ensures RanThrough(m, before, after, order, None)
  {
  }

  /** A group that runs to its end prolongs what was done; one that stops stops the whole order. */
  lemma GroupRan(m: Metadata, before: seq<Update>, done: seq<Update>, start: Metadata, after: seq<Update>,
                 group: seq<Update>, rest: seq<Update>, reached: Metadata, failure: Option<Failure>)
    requires Run(m, done) == Outcome(start, None) && Run(start, group) == Outcome(reached, failure)
    requires RanThrough(start, before + done, after, group, failure)
    ensures failure.None? ==> after == before + (done + group) && Run(m, done + group) == Outcome(reached, None)
    ensures failure.Some? ==>
              RanThrough(m, before, after, done + (group + rest), failure)
              && Run(m, done + (group + rest)) == Outcome(reached, failure)
  {
    hide Run;
    var part := after[|before + done|..];
    assert after == before + done + part && after[|before|..] == done + part;
    RunConcat(m, done, group);
    if failure.Some? {
      RunConcat(m, done, part[..|part| - 1]);
      RunConcat(m, done, part);
      assert (done + part)[..|done + part| - 1] == done + part[..|part| - 1];
      RunConcat(m, done, group + rest);
      RunConcat(start, group, rest);
    }
  }

  lemma OfRankLabels(order: seq<Action>, us: seq<Update>, r: nat)
    requires Labelled(order, us) && r < |order|
    ensures forall u :: u in OfRank(us, r) ==> ActionOf(u) == order[r]
  {
    OfRankMembers(us, r);
  }

  /** The check after the loops: parsing has already refused unknown actions. */
  method CheckUnknown(order: seq<Action>, parsed: map<Action, seq<Update>>) returns (failure: Option<Failure>)
    requires forall action :: action in parsed ==> action in order
    ensures failure.None?
  {
    var actions := parsed.Keys;
    while actions != {}
      invariant actions <= parsed.Keys
    {
      var action :| action in actions;
      actions := actions - {action};
      var known := IsKnownAction(order, action);
      if !known {
        assert false;
      }
    }
    return None;
  }

  method IsKnownAction(order: seq<Action>, action: Action) returns (known: bool)
    ensures known == (action in order)
  {
    for i := 0 to |order|
      invariant action !in order[..i]
    {
      if order[i] == action {
        return true;
      }
    }
    return false;
  }

  /** The parsed updates grouped by action, each group in request order. */
  ghost predicate Groups(order: seq<Action>, parsed: map<Action, seq<Update>>, us: seq<Update>) {
    && (forall action :: action in parsed ==> action in order)
    && (forall r :: 0 <= r < |order| ==> OfRank(us, r) == GroupOf(parsed, order[r]))
  }

  /** Every update's action stands at the update's rank. */
  ghost predicate Labelled(order: seq<Action>, us: seq<Update>) {
    |order| == RANKS && forall u :: u in us ==> order[Rank(u)] == ActionOf(u)
  }

  method ParseUpdates(raws: seq<RawUpdate>) returns (parsed: map<Action, seq<Update>>, bad: Option<Failure>)
    ensures bad.Some? ==> ParseAll(raws) == FirstBad(bad.value)
    ensures bad.None? ==> ParseAll(raws).AllParsed? && Groups(PROCESSING_ORDER, parsed, ParseAll(raws).us)
    ensures bad.None? ==> Labelled(PROCESSING_ORDER, ParseAll(raws).us)
  {
    ghost var order := PROCESSING_ORDER;
    parsed := map[];
    assert Groups(order, parsed, []);
    for i := 0 to |raws|
      invariant ParseAll(raws[..i]).AllParsed? && Groups(order, parsed, ParseAll(raws[..i]).us)
      invariant Labelled(order, ParseAll(raws[..i]).us)
    {
      assert raws[..i + 1][..i] == raws[..i];
      ghost var us := ParseAll(raws[..i]).us;
      match ParseUpdate(raws[i]) {
        case UnknownAction =>
          bad := Some(CannotParse(i, raws[i].action, true));
          FirstBadSticks(raws, i + 1);
          return;
        case Malformed =>
          bad := Some(CannotParse(i, raws[i].action, false));
          FirstBadSticks(raws, i + 1);
          return;
        case Parsed(u) =>
          var group := if raws[i].action in parsed then parsed[raws[i].action] else [];
          ghost var before := parsed;
          parsed := parsed[raws[i].action := group + [u]];
          OrderRanks(u);
          GroupGrows(order, before, us, u);
      }
    }
    assert raws[..|raws|] == raws;
    return parsed, None;
  }

  ghost predicate RanksIn(order: seq<Action>, u: Update) {
    |order| == RANKS && forall r: nat :: r < |order| ==> (order[r] == ActionOf(u) <==> r == Rank(u))
  }

  lemma OrderRanks(u: Update)
    ensures RanksIn(PROCESSING_ORDER, u)
  {
    forall r: nat | r < RANKS ensures PROCESSING_ORDER[r] == ActionOf(u) <==> r == Rank(u) {
      OrderListsEachActionOnce(ActionOf(u), r);
    }
  }

  function GroupOf(parsed: map<Action, seq<Update>>, action: Action): seq<Update> {
    if action in parsed then parsed[action] else []
  }

  /** Appending an update to the group of its action keeps the groups right. */
  lemma GroupGrows(order: seq<Action>, parsed: map<Action, seq<Update>>, us: seq<Update>, u: Update)
    requires RanksIn(order, u) && Groups(order, parsed, us)
    ensures Groups(order, parsed[ActionOf(u) := GroupOf(parsed, ActionOf(u)) + [u]], us + [u])
  {
    var action, rank := ActionOf(u), Rank(u);
    assert order[rank] == action;
    forall r | 0 <= r < |order|
      ensures OfRank(us + [u], r) == GroupOf(parsed[action := GroupOf(parsed, action) + [u]], order[r])
    {
      OfRankSnoc(us, u, rank, r);
    }
  }

  lemma OfRankSnoc(us: seq<Update>, u: Update, rank: nat, r: nat)
    requires rank == Rank(u)
    ensures OfRank(us + [u], r) == if r == rank then OfRank(us, r) + [u] else OfRank(us, r)
  {
    OfRankConcat(us, [u], r);
    assert OfRank([u], r) == if r == rank then [u] else [];
  }

  lemma {:induction false} FirstBadSticks(raws: seq<RawUpdate>, i: nat)
    requires i <= |raws| && ParseAll(raws[..i]).FirstBad?
    ensures ParseAll(raws) == ParseAll(raws[..i])
    decreases |raws|
  {
    if i == |raws| {
      assert raws[..i] == raws;
    } else {
      var init := raws[..|raws| - 1];
      assert init[..i] == raws[..i];
      FirstBadSticks(init, i);
    }
  }
}
