/** Turning two updates round matters exactly when they clash. */
module Inversions {
  import opened Options
  import opened JsonValues
  import opened TableMetadata
  import opened Updates
  import opened Handlers
  import opened StableSort
  import opened Requests
  import opened ItemLemmas
  import opened Reordering

  /** Request order succeeds on m, and the turned order fails or comes to something else. */
  ghost predicate TellsApart(m: Metadata, a: Update, b: Update) {
    BothSucceed(m, a, b) && !(BothSucceed(m, b, a) && After(m, b, a) == After(m, a, b))
  }

  const NO_FAMILY := Family(Absent, Absent, Absent)
  const NO_SNAPSHOTS := Snapshots(Absent, Absent, Absent, Absent, Absent)

  /** Metadata with nothing in it. */
  const BLANK := Metadata(Absent, Absent, Absent, Absent, NO_FAMILY, NO_FAMILY, NO_FAMILY, NO_SNAPSHOTS,
                          Absent, Absent, Absent, Absent, map[])

  // ---------------------------------------------------------------- schemas, specs, sort orders

  function Entry(id: int): FamilyItem {
    Object(Doc(Some(id), None, map[]))
  }

  /** One entry, selected, with an id other than the one to be added. */
  function OneEntry(doc: FamilyDoc): Family {
    var k := if doc.key == Some(0) then 1 else 0;
    Family(Is([Entry(k)]), Is(k), Absent)
  }

  /** Select the last entry, add one: the old last entry is selected, or the new one. */
  lemma LastBeforeAndAfterAdding(doc: FamilyDoc, hint: Option<int>)
    ensures var f := OneEntry(doc);
            var byHand := AddEntry(SetPointer(f, -1).state, Some(doc), hint);
            var turned := SetPointer(AddEntry(f, Some(doc), hint).state, -1);
            && SetPointer(f, -1).error.None? && byHand.error.None?
            && turned.state.pointer != byHand.state.pointer
  {
    var f := OneEntry(doc);
    var items, k := f.entries.value, if doc.key == Some(0) then 1 else 0;
    assert items[0].Key() == Some(k);
    MaxKeyGrows([], items[0]);
    assert [] + [items[0]] == items;
    MaxKeyBounds(items, AssignedId(items, doc));
    var added := Object(doc.(key := Some(AssignedId(items, doc))));
    HasKeyGrows(items, added, AssignedId(items, doc));
  }

  /** Nothing there, and the first removed id selected: removing first is accepted, adding first is refused. */
  function NothingButSelected(ids: seq<int>): Family
    requires ids != []
  {
    Family(Absent, Is(ids[0]), Absent)
  }

  lemma RemovingFromNothing(ids: seq<int>, doc: FamilyDoc, hint: Option<int>)
    requires ids != []
    ensures var f := NothingButSelected(ids);
            && RemoveEntries(f, ids) == Step(f, None)
            && AddEntry(f, Some(doc), hint).error.None?
            && RemoveEntries(AddEntry(f, Some(doc), hint).state, ids).error.Some?
  {
    hide Without;
    var f := NothingButSelected(ids);
    var added := AddEntry(f, Some(doc), hint).state;
    assert !HasKey(f.entries.Or([]), AssignedId(f.entries.Or([]), doc));
    assert added.pointer == Is(ids[0]) && added.entries.Is? && |added.entries.value| == 1;
    assert ids[0] in ids;
  }

  lemma {:induction false} Unlisted(ids: seq<int>) returns (q: int)
    ensures q !in ids && forall id :: id in ids ==> id < q
  {
    q := 0;
    if ids != [] {
      var p := Unlisted(ids[1..]);
      q := if p > ids[0] then p else ids[0] + 1;
      assert forall id :: id in ids ==> id == ids[0] || id in ids[1..];
    }
  }

  /** Two entries, the second to be removed, the first selected. */
  function TwoEntries(q: int, r: int): Family {
    Family(Is([Entry(q), Entry(r)]), Is(q), Absent)
  }

  /** Remove the last entry, select the last entry: the one before it, or the one that must go. */
  lemma LastBeforeAndAfterRemoving(ids: seq<int>, q: int, r: int)
    requires r in ids && q !in ids
    ensures var f := TwoEntries(q, r);
            && RemoveEntries(f, ids).error.None? && SetPointer(RemoveEntries(f, ids).state, -1).error.None?
            && RemoveEntries(SetPointer(f, -1).state, ids).error.Some?
  {
    var f := TwoEntries(q, r);
    var items := f.entries.value;
    assert items == [Entry(q)] + [Entry(r)];
    WithoutConcat([Entry(q)], [Entry(r)], ToSet(ids));
    assert [Entry(q)][..0] == [] && [Entry(r)][..0] == [];
    assert Without(items, ToSet(ids)) == [Entry(q)];
    assert items[1].Key() == Some(r) && [Entry(q)][0].Key() == Some(q);
  }

  lemma FamilyWitness(a: Update, b: Update) returns (m: Metadata)
    requires Clash(a, b) && ZoneOf(a) in {SchemaZone, SpecZone, SortOrderZone}
    ensures TellsApart(m, a, b)
  {
    hide AddEntry, SetPointer, RemoveEntries;
    m := BLANK;
    match (a, b) {
      case (SetCurrentSchema(_), AddSchema(doc, hint)) =>
        LastBeforeAndAfterAdding(doc.value, hint); m := BLANK.(schemas := OneEntry(doc.value));
      case (SetDefaultSpec(_), AddSpec(doc)) =>
        LastBeforeAndAfterAdding(doc.value, None); m := BLANK.(specs := OneEntry(doc.value));
      case (SetDefaultSortOrder(_), AddSortOrder(doc)) =>
        LastBeforeAndAfterAdding(doc.value, None); m := BLANK.(sortOrders := OneEntry(doc.value));
      case (RemoveSchemas(ids), AddSchema(doc, hint)) =>
        RemovingFromNothing(ids, doc.value, hint); m := BLANK.(schemas := NothingButSelected(ids));
      case (RemovePartitionSpecs(ids), AddSpec(doc)) =>
        RemovingFromNothing(ids, doc.value, None); m := BLANK.(specs := NothingButSelected(ids));
      case (RemoveSchemas(ids), SetCurrentSchema(_)) =>
        var q := Unlisted(ids);
        LastBeforeAndAfterRemoving(ids, q, ids[0]); m := BLANK.(schemas := TwoEntries(q, ids[0]));
      case (RemovePartitionSpecs(ids), SetDefaultSpec(_)) =>
        var q := Unlisted(ids);
        LastBeforeAndAfterRemoving(ids, q, ids[0]); m := BLANK.(specs := TwoEntries(q, ids[0]));
    }
  }

  // ---------------------------------------------------------------- snapshots and references

  function Snapshot(id: int): SnapshotItem {
    Object(Doc(Some(id), SnapshotDetail(None, None), map[]))
  }

  /** No snapshots, and the first removed id current. */
  lemma DroppingFromNothing(ids: seq<int>, doc: SnapshotDoc)
    requires ids != [] && ValidSnapshot(Some(doc))
    ensures var s := NO_SNAPSHOTS.(current := Is(ids[0]));
            && DropSnapshots(s, ids) == Step(s, None)
            && PutSnapshot(s, Some(doc)).error.None?
            && DropSnapshots(PutSnapshot(s, Some(doc)).state, ids).error.Some?
  {
    assert ids[0] in ids;
  }

  /** A list element without an id, and a reference to a negative id that is to be removed. */
  const LOOSE_SNAPSHOT := NO_SNAPSHOTS.(list := Is([Loose(Null)]))

  lemma NegativeReference(ids: seq<int>, name: string, kind: string, id: int, ret: Retention)
    requires ValidRef(name, kind) && id < 0 && id in ids
    ensures var s := LOOSE_SNAPSHOT;
            && DropSnapshots(s, ids).error.None? && SetRef(DropSnapshots(s, ids).state, name, kind, id, ret).error.None?
            && DropSnapshots(SetRef(s, name, kind, id, ret).state, ids).error.Some?
  {
    hide HasKey;
    var s := LOOSE_SNAPSHOT;
    assert !RefersInto(map[], ids);
    var refs := SetRef(s, name, kind, id, ret).state.refs.value;
    assert name in refs && refs[name].snapshotId.value in ids;
  }

  /** A reference that is set and removed is there, or not. */
  function OneSnapshot(id: int): Snapshots {
    NO_SNAPSHOTS.(list := Is([Snapshot(id)]), log := Is([LogEntry(id, 0)]))
  }

  lemma SetAndRemoved(name: string, kind: string, id: int, ret: Retention)
    requires ValidRef(name, kind)
    ensures var s := if id < 0 then NO_SNAPSHOTS else OneSnapshot(id);
            && DropRef(s, name) == Step(s, None) && SetRef(s, name, kind, id, ret).error.None?
            && name in SetRef(s, name, kind, id, ret).state.refs.Or(map[])
            && name !in DropRef(SetRef(s, name, kind, id, ret).state, name).state.refs.Or(map[])
  {
    assert [Snapshot(id)][0].Key() == Some(id);
  }

  lemma SnapshotWitness(a: Update, b: Update) returns (m: Metadata)
    requires Clash(a, b) && ZoneOf(a) == SnapshotZone
    ensures TellsApart(m, a, b)
  {
    hide SetRef, PutSnapshot, DropRef, DropSnapshots;
    m := BLANK;
    match (a, b) {
      case (RemoveSnapshots(ids), AddSnapshot(doc)) =>
        DroppingFromNothing(ids, doc.value);
        m := BLANK.(snaps := NO_SNAPSHOTS.(current := Is(ids[0])));
      case (RemoveSnapshots(ids), SetSnapshotRef(name, kind, id, ret)) =>
        NegativeReference(ids, name, kind, id, ret);
        m := BLANK.(snaps := LOOSE_SNAPSHOT);
      case (RemoveSnapshotRef(_), SetSnapshotRef(name, kind, id, ret)) =>
        SetAndRemoved(name, kind, id, ret);
        m := BLANK.(snaps := if id < 0 then NO_SNAPSHOTS else OneSnapshot(id));
    }
  }

  // ---------------------------------------------------------------- statistics, properties, keys

  lemma OnlyOne<K, D>(x: Item<K, D>, id: K)
    requires x.Key() == Some(id)
    ensures Without([], {id}) + [x] == [x] && [] + [x] == [x] && Without([x], {id}) == []
  {
    assert [x][..0] == [];
  }

  lemma StatisticThereOrNot(id: int, doc: Option<StatDoc>, deprecatedId: Option<int>)
    requires StatId(deprecatedId, doc) == Some(id)
    ensures var set_ := SetStatistic(Absent, doc, deprecatedId);
            && DropStatistic(Absent, id) == Absent && set_.error.None?
            && DropStatistic(set_.state, id) != set_.state
  {
    var x := Object(doc.value.(key := Some(id)));
    OnlyOne(x, id);
  }

  lemma KeyThereOrNot(id: string, doc: KeyDoc)
    requires id != "" && doc.key == Some(id)
    ensures var put := PutKey(Absent, Some(doc));
            && DropKey(Absent, id) == Step(Absent, None) && put.error.None?
            && DropKey(put.state, id).state != put.state
  {
    var x := Object(doc);
    assert !HasKey<string, ()>([], id);
    OnlyOne(x, id);
  }

  lemma PropertyThereOrNot(removals: seq<string>, updates: map<string, string>)
    requires exists k :: k in updates && k in removals
    ensures var merged := MergeProperties(Absent, updates);
            && DropProperties(Absent, removals) == Absent && DropProperties(merged, removals) != merged
  {
    var k :| k in updates && k in removals;
    assert k in MergeProperties(Absent, updates).Or(map[]);
    assert k !in DropProperties(MergeProperties(Absent, updates), removals).Or(map[]);
  }

  lemma OtherWitness(m: Metadata, a: Update, b: Update)
    requires Clash(a, b) && ZoneOf(a) !in {SchemaZone, SpecZone, SortOrderZone, SnapshotZone}
    requires m.statistics == m.partitionStatistics == Absent && m.properties == Absent && m.encryptionKeys == Absent
    ensures TellsApart(m, a, b)
  {
    hide SetStatistic, DropStatistic, PutKey, DropKey, MergeProperties, DropProperties;
    match (a, b) {
      case (RemoveStatistics(id), SetStatistics(dep, doc)) => StatisticThereOrNot(id, doc, dep);
      case (RemovePartitionStatistics(id), SetPartitionStatistics(doc)) => StatisticThereOrNot(id, doc, None);
      case (RemoveProperties(removals), SetProperties(updates)) => PropertyThereOrNot(removals, updates);
      case (RemoveEncryptionKey(id), AddEncryptionKey(doc)) => KeyThereOrNot(id, doc.value);
    }
  }

  // ---------------------------------------------------------------- the exact condition

  lemma ClashIsTold(a: Update, b: Update) returns (m: Metadata)
    requires Clash(a, b)
    ensures Rank(a) > Rank(b) && TellsApart(m, a, b)
  {
    hide TellsApart;
    ClashIsOutOfOrder(a, b);
    m := BLANK;
    if ZoneOf(a) in {SchemaZone, SpecZone, SortOrderZone} {
      m := FamilyWitness(a, b);
    } else if ZoneOf(a) == SnapshotZone {
      m := SnapshotWitness(a, b);
    } else {
      OtherWitness(m, a, b);
    }
  }

  lemma ClashIsOutOfOrder(a: Update, b: Update)
    requires Clash(a, b)
    ensures Rank(a) > Rank(b)
  {
  }

  lemma PairOutcome(m: Metadata, a: Update, b: Update)
    ensures Run(m, [a, b]).failure.None? <==> BothSucceed(m, a, b)
    ensures BothSucceed(m, a, b) ==> Run(m, [a, b]) == Outcome(After(m, a, b), None)
  {
    hide ApplyUpdate;
    RunPair(m, a, b);
    RunSingle(ApplyUpdate(m, a).state, b);
  }

  /** A request of two updates comes to what it says, on all metadata on which it succeeds as
      written, exactly when the updates are in processing order or do not clash. */
  lemma TwoUpdatesAgreeExactly(a: Update, b: Update)
    ensures (forall m :: Run(m, [a, b]).failure.None? ==> Run(m, Sorted([a, b])) == Run(m, [a, b]))
       <==> Rank(a) <= Rank(b) || Independent(a, b)
  {
    hide Run, Sorted, Rank, Clash, BothSucceed, After;
    SortedPair(a, b);
    if Rank(a) <= Rank(b) {
    } else if Independent(a, b) {
      forall m | Run(m, [a, b]).failure.None? ensures Run(m, Sorted([a, b])) == Run(m, [a, b]) {
        PairOutcome(m, a, b);
        SwapNeighbours(m, a, b);
        PairOutcome(m, b, a);
      }
    } else {
      var m := ClashIsTold(a, b);
      PairOutcome(m, a, b);
      PairOutcome(m, b, a);
      assert Run(m, [a, b]).failure.None? && Run(m, Sorted([a, b])) != Run(m, [a, b]);
    }
  }
}
