/** The same for tables as commits find them: with a current schema and a default spec that are there,
    ids read from JSON and integral snapshots, fewer pairs of updates clash. */
module Settled {
  import opened Options
  import opened Binary64
  import opened TableMetadata
  import opened Updates
  import opened Handlers
  import opened StableSort
  import opened ItemLemmas
  import opened SnapshotIntegrity
  import opened Families
  import opened Reordering
  import opened Inversions
  import opened Parsing
  import opened Commits
  import opened Protocol
  import opened History

  /** The selected entry is present and the ids were read back from JSON. */
  ghost predicate SettledFamily(f: Family) {
    PointsInto(f) && KeysExact(f.entries.Or([]))
  }

  ghost predicate IsSettled(m: Metadata) {
    SettledFamily(m.schemas) && SettledFamily(m.specs) && Integral(m.snaps)
  }

  /** Some id of the removal can be one of a loaded entry. */
  predicate CanRemove(ids: seq<int>) {
    exists id :: id in ids && Exact(id)
  }

  /** An entry to be added that can tell whether these ids were removed before: it has one of them,
      or they can be the largest one, or the next. */
  predicate Notices(doc: FamilyDoc, ids: seq<int>) {
    if doc.key.Some? then doc.key.value in ids
    else exists id :: id in ids && id > 0 && (Exact(id) || Exact(id - 1))
  }

  predicate SettledClash(a: Update, b: Update) {
    match (a, b)
    case (RemoveSchemas(ids), AddSchema(doc, _)) => doc.Some? && Notices(doc.value, ids)
    case (RemovePartitionSpecs(ids), AddSpec(doc)) => doc.Some? && Notices(doc.value, ids)
    case (RemoveSchemas(ids), SetCurrentSchema(t)) => t == -1 && CanRemove(ids)
    case (RemovePartitionSpecs(ids), SetDefaultSpec(t)) => t == -1 && CanRemove(ids)
    case (RemoveSnapshots(ids), AddSnapshot(doc)) =>
      ValidSnapshot(doc) && (doc.value.key.value in ids || exists id :: id in ids && id < 0)
    case (RemoveSnapshotRef(_), SetSnapshotRef(_, _, id, _)) => Clash(a, b) && (id < 0 || Exact(id))
    case _ => Clash(a, b)
  }

  lemma SettledClashIsClash(a: Update, b: Update)
    requires SettledClash(a, b)
    ensures Clash(a, b)
  {
    hide Exact;
  }

  // ---------------------------------------------------------------- what no longer clashes

  /** Entries removed that the added one does not notice, from a list that keeps its selected entry. */
  lemma SwapUnnoticed(f: Family, ids: seq<int>, doc: FamilyDoc, hint: Option<int>)
    requires SettledFamily(f) && !Notices(doc, ids)
    requires RemoveEntries(f, ids).error.None?
    requires AddEntry(RemoveEntries(f, ids).state, Some(doc), hint).error.None?
    ensures AddEntry(f, Some(doc), hint).error.None?
    ensures RemoveEntries(AddEntry(f, Some(doc), hint).state, ids)
         == AddEntry(RemoveEntries(f, ids).state, Some(doc), hint)
  {
    hide HasKey, AssignedId, KeysExact, Notices;
    var items := f.entries.Or([]);
    SomethingThere(items, f.pointer.value);
    if ids != [] {
      var gone, id := ToSet(ids), AssignedId(items, doc);
      SameAssignedId(items, doc, ids);
      WithoutKeys(items, gone, id);
      var x := Object(doc.(key := Some(id)));
      WithoutConcat(items, [x], gone);
      KeptBySet(x, gone, id);
    }
  }

  lemma SomethingThere(items: seq<FamilyItem>, id: int)
    requires HasKey(items, id)
    ensures items != []
  {
  }

  lemma KeptBySet(x: FamilyItem, gone: set<int>, id: int)
    requires x.Key() == Some(id) && id !in gone
    ensures Without([x], gone) == [x]
  {
    assert [x][..0] == [];
  }

  /** The id to be given is the same before and after the removal, and not among the removed ones. */
  lemma SameAssignedId(items: seq<FamilyItem>, doc: FamilyDoc, ids: seq<int>)
    requires KeysExact(items) && !Notices(doc, ids)
    ensures AssignedId(Without(items, ToSet(ids)), doc) == AssignedId(items, doc) && AssignedId(items, doc) !in ids
  {
    hide HasKey, Exact, KeysExact;
    if doc.key.None? {
      var kept, top := Without(items, ToSet(ids)), MaxKey(items);
      MaxKeyIsExact(items);
      SmallIsExact(0);
      ExactFits(top);
      MaxKeyBounds(items, MaxKey(kept));
      MaxKeyBounds(kept, top);
      WithoutKeys(items, ToSet(ids), top);
      WithoutKeys(items, ToSet(ids), MaxKey(kept));
      assert Exact(top + 1 - 1);
    }
  }

  /** Removing ids no loaded entry has changes nothing. */
  lemma SwapNothingRemoved(f: Family, ids: seq<int>, target: int)
    requires SettledFamily(f) && !CanRemove(ids)
    requires RemoveEntries(f, ids).error.None? && SetPointer(RemoveEntries(f, ids).state, target).error.None?
    ensures SetPointer(f, target).error.None?
    ensures RemoveEntries(SetPointer(f, target).state, ids) == SetPointer(RemoveEntries(f, ids).state, target)
  {
    hide HasKey, Exact, TargetId;
    var items := f.entries.Or([]);
    forall key | key in ToSet(ids) ensures !HasKey(items, key) { OnlyExactKeys(items, key); }
    WithoutNothing(items, ToSet(ids));
    SomethingThere(items, f.pointer.value);
    OnlyExactKeys(items, TargetId(items, target));
  }

  lemma OnlyExactKeys(items: seq<FamilyItem>, key: int)
    requires KeysExact(items)
    ensures HasKey(items, key) ==> Exact(key)
  {
    hide Exact;
  }

  lemma SwapUnseenSnapshot(s: Snapshots, ids: seq<int>, doc: SnapshotDoc)
    requires Integral(s) && ValidSnapshot(Some(doc)) && doc.key.value !in ids && forall id :: id in ids ==> id >= 0
    requires DropSnapshots(s, ids).error.None? && PutSnapshot(DropSnapshots(s, ids).state, Some(doc)).error.None?
    ensures PutSnapshot(s, Some(doc)).error.None?
    ensures DropSnapshots(PutSnapshot(s, Some(doc)).state, ids) == PutSnapshot(DropSnapshots(s, ids).state, Some(doc))
  {
    hide HasKey, RefersInto, KeysExact, LogStable, LogCovers, SequencesBounded, UniqueKeys;
    var list, x, gone := s.list.Or([]), Object(doc), ToSet(ids);
    WithoutKeys(list, gone, doc.key.value);
    WithoutConcat(list, [x], gone);
    KeptSnapshot(x, gone);
    if list == [] { NothingReferred(s, ids); }
  }

  lemma KeptSnapshot(x: SnapshotItem, gone: set<int>)
    requires x.Key().Some? && x.Key().value !in gone
    ensures Without([x], gone) == [x] && Without<int, SnapshotDetail>([], gone) == [] && [] + [x] == [x]
  {
    assert [x][..0] == [];
  }

  /** Without snapshots nothing refers to a non-negative id. */
  lemma NothingReferred(s: Snapshots, ids: seq<int>)
    requires RefsResolve(s) && CurrentResolves(s) && s.list.Or([]) == [] && forall id :: id in ids ==> id >= 0
    ensures !RefersInto(s.refs.Or(map[]), ids) && !(s.current.Is? && s.current.value in ids)
  {
  }

  lemma SettledSwap(m: Metadata, a: Update, b: Update)
    requires IsSettled(m) && Clash(a, b) && !SettledClash(a, b) && BothSucceed(m, a, b)
    ensures BothSucceed(m, b, a) && After(m, b, a) == After(m, a, b)
  {
    hide AddEntry, SetPointer, RemoveEntries, SetRef, PutSnapshot, DropRef, DropSnapshots, Exact, Integral, SettledFamily,
      Notices, CanRemove;
    match (a, b) {
      case (RemoveSchemas(ids), AddSchema(doc, hint)) => SwapUnnoticed(m.schemas, ids, doc.value, hint);
      case (RemovePartitionSpecs(ids), AddSpec(doc)) => SwapUnnoticed(m.specs, ids, doc.value, None);
      case (RemoveSchemas(ids), SetCurrentSchema(t)) => SwapNothingRemoved(m.schemas, ids, t);
      case (RemovePartitionSpecs(ids), SetDefaultSpec(t)) => SwapNothingRemoved(m.specs, ids, t);
      case (RemoveSnapshots(ids), AddSnapshot(doc)) => SwapUnseenSnapshot(m.snaps, ids, doc.value);
      case (RemoveSnapshotRef(n), SetSnapshotRef(name, kind, id, ret)) => InexactRefused(m.snaps, n, name, kind, id, ret);
    }
  }

  /** A reference to a non-negative id that no loaded snapshot can have is refused. */
  lemma InexactRefused(s: Snapshots, gone: string, name: string, kind: string, id: int, ret: Retention)
    requires Integral(s) && id >= 0 && !Exact(id)
    ensures DropRef(s, gone).error.None? ==> SetRef(DropRef(s, gone).state, name, kind, id, ret).error.Some?
  {
    hide Exact, UniqueKeys, LogStable, LogCovers, SequencesBounded, RefsResolve, CurrentResolves, MainIsCurrent;
  }

  // ---------------------------------------------------------------- what still clashes

  /** The update's integers are 64-bit and its lists shorter than 2^53, as in any request. */
  predicate Feasible(u: Update) {
    && IntegersFit(u)
    && (u.RemoveSchemas? ==> |u.schemaIds| < TWO53)
    && (u.RemovePartitionSpecs? ==> |u.specIds| < TWO53)
  }

  const ONE_ENTRY := Family(Is([Entry(0)]), Is(0), Absent)

  /** A settled table with nothing in it but one schema, spec and sort order. */
  const BASE := BLANK.(schemas := ONE_ENTRY, specs := ONE_ENTRY, sortOrders := ONE_ENTRY)

  lemma EntriesSettled(f: Family, k: int)
    requires f.entries.Is? && f.pointer == Is(k) && Exact(k)
    requires f.entries.value == [Entry(k)]
             || (|f.entries.value| == 2 && f.entries.value[0] == Entry(k) && f.entries.value[1].Key().Some?
                 && Exact(f.entries.value[1].Key().value))
    ensures SettledFamily(f)
  {
    hide Exact;
    assert f.entries.value[0].Key() == Some(k);
  }

  lemma BaseIsSettled()
    ensures SettledFamily(ONE_ENTRY) && Integral(NO_SNAPSHOTS)
  {
    SmallIsExact(0);
    EntriesSettled(ONE_ENTRY, 0);
  }

  /** The n ids from -1 downwards. */
  function Negatives(n: nat): (s: set<int>)
    ensures |s| == n && forall id :: id in s <==> -(n as int) <= id <= -1
  {
    if n == 0 then {} else Negatives(n - 1) + {-(n as int)}
  }

  /** A negative id that is small, and not in the list. */
  lemma UnlistedNegative(ids: seq<int>) returns (q: int)
    ensures -(|ids| as int) - 1 <= q <= -1 && q !in ids
  {
    var all := Negatives(|ids| + 1);
    MembersAtMost(ids);
    if all <= ToSet(ids) { SubsetSize(all, ToSet(ids)); }
    q :| q in all && q !in ToSet(ids);
  }

  lemma {:induction false} MembersAtMost(ids: seq<int>)
    ensures |ToSet(ids)| <= |ids|
  {
    if ids != [] {
      assert ToSet(ids) == ToSet(ids[1..]) + {ids[0]};
      MembersAtMost(ids[1..]);
    }
  }

  lemma {:induction false} SubsetSize<T>(a: set<T>, b: set<T>)
    requires a <= b
    ensures |a| <= |b|
    decreases |a|
  {
    if a != {} {
      var x :| x in a;
      SubsetSize(a - {x}, b - {x});
    }
  }

  /** An entry whose id is to be removed: added last it stays, added first it goes. */
  lemma GivenIdNoticed(ids: seq<int>, q: int, doc: FamilyDoc, hint: Option<int>)
    requires doc.key.Some? && doc.key.value in ids && q !in ids
    ensures var f := Family(Is([Entry(q)]), Is(q), Absent);
            && RemoveEntries(f, ids) == Step(f, None) && AddEntry(f, Some(doc), hint).error.None?
            && RemoveEntries(AddEntry(f, Some(doc), hint).state, ids).state.entries != AddEntry(f, Some(doc), hint).state.entries
            && RemoveEntries(AddEntry(f, Some(doc), hint).state, ids).error.None?
  {
    var f := Family(Is([Entry(q)]), Is(q), Absent);
    var x := Object(doc);
    assert [Entry(q)][..0] == [];
    assert Without([Entry(q)], ToSet(ids)) == [Entry(q)];
    assert ([Entry(q)] + [x])[..1] == [Entry(q)] && ([Entry(q)] + [x])[1] == x;
    assert Without([Entry(q)] + [x], ToSet(ids)) == [Entry(q)];
    assert !HasKey([Entry(q)], doc.key.value);
  }

  lemma WrapsAtTheEnd(n: int)
    requires 0 < n <= TWO63
    ensures Wrap64(n) == if n < TWO63 then n else -TWO63
  {
  }

  /** The id given beside one entry, and beside a negative one and another. */
  lemma IdBesideEntries(q: int, k: int, doc: FamilyDoc)
    requires doc.key.None? && q < 0 <= k < TWO63
    ensures AssignedId([Entry(q)], doc) == 1
    ensures k + 1 < TWO63 ==> AssignedId([Entry(k)], doc) == k + 1
    ensures k > 0 ==> AssignedId([Entry(q), Entry(k)], doc) != 1
  {
    hide HasKey, Wrap64;
    WrapsAtTheEnd(1);
    WrapsAtTheEnd(k + 1);
    assert [] + [Entry(q)] == [Entry(q)] && [] + [Entry(k)] == [Entry(k)];
    assert [Entry(q)] + [Entry(k)] == [Entry(q), Entry(k)];
    MaxKeyGrows([], Entry(q));
    MaxKeyGrows([], Entry(k));
    MaxKeyGrows([Entry(q)], Entry(k));
  }

  /** An entry that is assigned the id after a removed one: added last it gets 1, added first more. */
  lemma LargestIdNoticed(ids: seq<int>, q: int, r: int, doc: FamilyDoc, hint: Option<int>)
    requires doc.key.None? && r in ids && 0 < r < TWO63 && q < 0 && q !in ids
    ensures var f := TwoEntries(q, r);
            var removed, added := RemoveEntries(f, ids), AddEntry(f, Some(doc), hint);
            var byHand, turned := AddEntry(removed.state, Some(doc), hint), RemoveEntries(added.state, ids);
            && removed.error.None? && byHand.error.None?
            && (added.error.None? && turned.error.None? ==> turned.state.entries != byHand.state.entries)
  {
    hide HasKey, AssignedId;
    var f := TwoEntries(q, r);
    var items := f.entries.value;
    assert items == [Entry(q)] + [Entry(r)];
    assert [Entry(q)][..0] == [] && [Entry(r)][..0] == [] && [] + [Entry(q)] == [Entry(q)];
    WithoutConcat([Entry(q)], [Entry(r)], ToSet(ids));
    assert Without(items, ToSet(ids)) == [Entry(q)];
    IdBesideEntries(q, r, doc);
    MaxKeyGrows([], Entry(q));
    MaxKeyBounds([Entry(q)], 1);
    var first := Object(doc.(key := Some(1)));
    assert AddEntry(RemoveEntries(f, ids).state, Some(doc), hint).state.entries == Is([Entry(q)] + [first]);
    var x := Object(doc.(key := Some(AssignedId(items, doc))));
    if AddEntry(f, Some(doc), hint).error.None? {
      WithoutMembers(items + [x], ToSet(ids), first);
      assert first !in Without(items + [x], ToSet(ids));
      assert first in [Entry(q)] + [first];
    }
  }

  /** An entry without an id is added like one with the id it is assigned. */
  lemma AddedAlike(f: Family, doc: FamilyDoc, id: int, hint: Option<int>)
    requires AssignedId(f.entries.Or([]), doc) == id
    ensures AddEntry(f, Some(doc), hint) == AddEntry(f, Some(doc.(key := Some(id))), hint)
  {
    hide HasKey, Wrap64;
  }

  /** An entry that is assigned a removed id: added last it stays, added first it goes. */
  lemma NextIdNoticed(ids: seq<int>, id: int, doc: FamilyDoc, hint: Option<int>)
    requires doc.key.None? && id in ids && 1 < id < TWO63 && id - 1 !in ids
    ensures var f := Family(Is([Entry(id - 1)]), Is(id - 1), Absent);
            && RemoveEntries(f, ids) == Step(f, None) && AddEntry(f, Some(doc), hint).error.None?
            && RemoveEntries(AddEntry(f, Some(doc), hint).state, ids).state.entries != AddEntry(f, Some(doc), hint).state.entries
            && RemoveEntries(AddEntry(f, Some(doc), hint).state, ids).error.None?
  {
    hide AddEntry, RemoveEntries, AssignedId, HasKey, Without;
    IdBesideEntries(-1, id - 1, doc);
    GivenIdNoticed(ids, id - 1, doc.(key := Some(id)), hint);
    AddedAlike(Family(Is([Entry(id - 1)]), Is(id - 1), Absent), doc, id, hint);
  }

  /** The metadata of a kind's noticed addition. */
  lemma NoticedWitness(ids: seq<int>, doc: FamilyDoc, hint: Option<int>) returns (f: Family)
    requires Notices(doc, ids) && |ids| < TWO53 && forall i :: 0 <= i < |ids| ==> FitsInt64(ids[i])
    ensures SettledFamily(f)
    ensures var removed, added := RemoveEntries(f, ids), AddEntry(f, Some(doc), hint);
            var byHand, turned := AddEntry(removed.state, Some(doc), hint), RemoveEntries(added.state, ids);
            && removed.error.None? && byHand.error.None?
            && !(added.error.None? && turned.error.None? && turned.state == byHand.state)
  {
    hide Exact, RemoveEntries, AddEntry, SettledFamily;
    var q := UnlistedNegative(ids);
    SmallIsExact(q);
    if doc.key.Some? {
      GivenIdNoticed(ids, q, doc, hint);
      f := Family(Is([Entry(q)]), Is(q), Absent);
      EntriesSettled(f, q);
    } else if r :| r in ids && r > 0 && Exact(r) {
      LargestIdNoticed(ids, q, r, doc, hint);
      f := TwoEntries(q, r);
      EntriesSettled(f, q);
    } else {
      var id :| id in ids && id > 0 && Exact(id - 1);
      SmallIsExact(1);
      NextIdNoticed(ids, id, doc, hint);
      f := Family(Is([Entry(id - 1)]), Is(id - 1), Absent);
      EntriesSettled(f, id - 1);
    }
  }

  lemma SelectingWitness(a: Update, b: Update) returns (m: Metadata)
    requires SettledClash(a, b) && (a.SetCurrentSchema? || a.SetDefaultSpec? || a.SetDefaultSortOrder?)
    ensures IsSettled(m) && TellsApart(m, a, b)
  {
    hide AddEntry, SetPointer, SettledFamily, Integral, Notices, CanRemove;
    BaseIsSettled();
    m := BASE;
    match (a, b) {
      case (SetCurrentSchema(_), AddSchema(doc, hint)) =>
        LastBeforeAndAfterAdding(doc.value, hint);
        OneIsSettled(doc.value);
        m := BASE.(schemas := OneEntry(doc.value));
      case (SetDefaultSpec(_), AddSpec(doc)) =>
        LastBeforeAndAfterAdding(doc.value, None);
        OneIsSettled(doc.value);
        m := BASE.(specs := OneEntry(doc.value));
      case (SetDefaultSortOrder(_), AddSortOrder(doc)) =>
        LastBeforeAndAfterAdding(doc.value, None);
        m := BASE.(sortOrders := OneEntry(doc.value));
    }
  }

  lemma RemovingWitness(a: Update, b: Update) returns (m: Metadata)
    requires SettledClash(a, b) && Feasible(a) && ZoneOf(a) in {SchemaZone, SpecZone, SortOrderZone}
    requires !a.SetCurrentSchema? && !a.SetDefaultSpec? && !a.SetDefaultSortOrder?
    ensures IsSettled(m) && TellsApart(m, a, b)
  {
    hide AddEntry, SetPointer, RemoveEntries, SettledFamily, Integral, Notices, CanRemove;
    BaseIsSettled();
    m := BASE;
    match (a, b) {
      case (RemoveSchemas(ids), AddSchema(doc, hint)) =>
        var f := NoticedWitness(ids, doc.value, hint);
        m := BASE.(schemas := f);
      case (RemovePartitionSpecs(ids), AddSpec(doc)) =>
        var f := NoticedWitness(ids, doc.value, None);
        m := BASE.(specs := f);
      case (RemoveSchemas(ids), SetCurrentSchema(_)) =>
        var f := RemovableWitness(ids);
        m := BASE.(schemas := f);
      case (RemovePartitionSpecs(ids), SetDefaultSpec(_)) =>
        var f := RemovableWitness(ids);
        m := BASE.(specs := f);
    }
  }

  lemma OneIsSettled(doc: FamilyDoc)
    ensures SettledFamily(OneEntry(doc))
  {
    hide SettledFamily, Exact;
    SmallIsExact(0);
    SmallIsExact(1);
    EntriesSettled(OneEntry(doc), OneEntry(doc).pointer.value);
  }

  /** The family of a kind whose removal is felt by a selection of the last entry. */
  lemma RemovableWitness(ids: seq<int>) returns (f: Family)
    requires CanRemove(ids) && |ids| < TWO53
    ensures SettledFamily(f)
    ensures && RemoveEntries(f, ids).error.None? && SetPointer(RemoveEntries(f, ids).state, -1).error.None?
            && RemoveEntries(SetPointer(f, -1).state, ids).error.Some?
  {
    hide Exact, RemoveEntries, SetPointer, SettledFamily;
    var q := UnlistedNegative(ids);
    var r :| r in ids && Exact(r);
    SmallIsExact(q);
    LastBeforeAndAfterRemoving(ids, q, r);
    f := TwoEntries(q, r);
    EntriesSettled(f, q);
  }

  /** A snapshot whose id is to be removed: added last it stays, added first it goes. */
  lemma DroppedOrNot(ids: seq<int>, doc: SnapshotDoc)
    requires ValidSnapshot(Some(doc)) && doc.key.value in ids
    ensures var put := PutSnapshot(NO_SNAPSHOTS, Some(doc));
            && DropSnapshots(NO_SNAPSHOTS, ids) == Step(NO_SNAPSHOTS, None)
            && put.error.None? && DropSnapshots(put.state, ids).state != put.state
  {
    var x := Object(doc);
    assert [x][..0] == [];
    assert [] + [x] == [x];
    assert Without([x], ToSet(ids)) == [];
  }

  /** A current snapshot id below zero: nothing need have it, but it may not be removed. */
  lemma NegativeCurrent(ids: seq<int>, id: int, doc: SnapshotDoc)
    requires ValidSnapshot(Some(doc)) && id in ids
    ensures var s := NO_SNAPSHOTS.(current := Is(id));
            && DropSnapshots(s, ids) == Step(s, None)
            && PutSnapshot(s, Some(doc)).error.None?
            && DropSnapshots(PutSnapshot(s, Some(doc)).state, ids).error.Some?
  {
  }

  lemma SnapshotsSettled(id: int)
    ensures Integral(NO_SNAPSHOTS) && Integral(LOOSE_SNAPSHOT)
    ensures id < 0 ==> Integral(NO_SNAPSHOTS.(current := Is(id)))
    ensures Exact(id) ==> Integral(OneSnapshot(id))
  {
    hide Exact;
    if Exact(id) { OneIsIntegral(id); }
  }

  lemma OneIsIntegral(id: int)
    requires Exact(id)
    ensures Integral(OneSnapshot(id))
  {
    SmallIsExact(0);
    LogStaysStable(Absent, id, 0);
    assert [] + [LogEntry(id, 0)] == [LogEntry(id, 0)];
    assert [LogEntry(id, 0)][0].Key() == Some(id);
  }

  lemma AddedAndDroppedWitness(ids: seq<int>, doc: SnapshotDoc) returns (s: Snapshots)
    requires SettledClash(RemoveSnapshots(ids), AddSnapshot(Some(doc)))
    ensures Integral(s)
    ensures var put, drop := PutSnapshot(s, Some(doc)), DropSnapshots(s, ids);
            && drop == Step(s, None) && put.error.None?
            && !(DropSnapshots(put.state, ids) == Step(put.state, None))
  {
    hide PutSnapshot, DropSnapshots, Integral;
    if doc.key.value in ids {
      DroppedOrNot(ids, doc);
      SnapshotsSettled(0);
      s := NO_SNAPSHOTS;
    } else {
      var id :| id in ids && id < 0;
      NegativeCurrent(ids, id, doc);
      SnapshotsSettled(id);
      s := NO_SNAPSHOTS.(current := Is(id));
    }
  }

  lemma SettledSnapshotWitness(a: Update, b: Update) returns (m: Metadata)
    requires SettledClash(a, b) && ZoneOf(a) == SnapshotZone
    ensures IsSettled(m) && TellsApart(m, a, b)
  {
    hide SetRef, PutSnapshot, DropRef, DropSnapshots, SettledFamily, Integral, Exact, Notices, CanRemove;
    BaseIsSettled();
    m := BASE;
    match (a, b) {
      case (RemoveSnapshots(ids), AddSnapshot(doc)) =>
        var s := AddedAndDroppedWitness(ids, doc.value);
        m := BASE.(snaps := s);
      case (RemoveSnapshots(ids), SetSnapshotRef(name, kind, id, ret)) =>
        NegativeReference(ids, name, kind, id, ret);
        SnapshotsSettled(id);
        m := BASE.(snaps := LOOSE_SNAPSHOT);
      case (RemoveSnapshotRef(_), SetSnapshotRef(name, kind, id, ret)) =>
        SetAndRemoved(name, kind, id, ret);
        SnapshotsSettled(id);
        m := BASE.(snaps := if id < 0 then NO_SNAPSHOTS else OneSnapshot(id));
    }
  }

  // ---------------------------------------------------------------- the exact condition

  lemma SettledClashIsTold(a: Update, b: Update) returns (m: Metadata)
    requires SettledClash(a, b) && Feasible(a)
    ensures Rank(a) > Rank(b) && IsSettled(m) && TellsApart(m, a, b)
  {
    hide TellsApart, IsSettled, SettledClash, Clash, Rank, Feasible;
    SettledClashIsClash(a, b);
    ClashIsOutOfOrder(a, b);
    if a.SetCurrentSchema? || a.SetDefaultSpec? || a.SetDefaultSortOrder? {
      m := SelectingWitness(a, b);
    } else if ZoneOf(a) in {SchemaZone, SpecZone, SortOrderZone} {
      m := RemovingWitness(a, b);
    } else if ZoneOf(a) == SnapshotZone {
      m := SettledSnapshotWitness(a, b);
    } else {
      m := BASE;
      BaseSettles();
      OtherWitness(m, a, b);
    }
  }

  lemma BaseSettles()
    ensures IsSettled(BASE)
  {
    hide SettledFamily, Integral;
    BaseIsSettled();
  }

  /** A request of two updates comes to what it says, on all settled metadata on which it succeeds
      as written, exactly when the updates are in processing order or have no settled clash. */
  lemma SettledUpdatesAgreeExactly(a: Update, b: Update)
    requires Feasible(a)
    ensures (forall m :: IsSettled(m) && Run(m, [a, b]).failure.None? ==> Run(m, Sorted([a, b])) == Run(m, [a, b]))
       <==> Rank(a) <= Rank(b) || !SettledClash(a, b)
  {
    hide Run, Sorted, Rank, Clash, SettledClash, IsSettled, BothSucceed, After, Feasible;
    SortedPair(a, b);
    if Rank(a) <= Rank(b) {
    } else if !SettledClash(a, b) {
      forall m | IsSettled(m) && Run(m, [a, b]).failure.None? ensures Run(m, Sorted([a, b])) == Run(m, [a, b]) {
        PairOutcome(m, a, b);
        if Clash(a, b) { SettledSwap(m, a, b); } else { SwapNeighbours(m, a, b); }
        PairOutcome(m, b, a);
      }
    } else {
      var m := SettledClashIsTold(a, b);
      PairOutcome(m, a, b);
      PairOutcome(m, b, a);
      assert IsSettled(m) && Run(m, [a, b]).failure.None? && Run(m, Sorted([a, b])) != Run(m, [a, b]);
    }
  }

  // ---------------------------------------------------------------- what commits find

  lemma LoadedIdsAreExact(f: Family)
    ensures KeysExact(ReloadFamily(f).entries.Or([]))
  {
    hide Exact, ReadInt64;
    var items, again := f.entries.Or([]), ReloadFamily(f).entries.Or([]);
    forall i | 0 <= i < |again| && again[i].Key().Some? ensures Exact(again[i].Key().value) {
      ReadIsExact(items[i].Key().value);
    }
  }

  /** The current schema and the default spec are there. */
  ghost predicate HasSelections(row: Row) {
    PointsInto(Load(row).schemas) && PointsInto(Load(row).specs)
  }

  /** A created or registered table whose current schema and default spec are there at some moment
      of a run is settled at every later one. */
  lemma TablesStaySettled(rows: map<Table, Row>, jobs: Jobs, events: seq<Event>, states: seq<System>, i: nat, j: nat,
                          t: Table)
    requires IsRun(rows, jobs, events, states) && i <= j < |states| && t in rows && Inserted(rows[t])
    requires t in states[i].rows && HasSelections(states[i].rows[t])
    ensures t in states[j].rows && IsSettled(Load(states[j].rows[t]))
  {
    hide IsRun, Integral, PointsInto, Inserted, KeysExact;
    SelectionsStayValid(rows, jobs, events, states, i, j, t, SchemaKind);
    SelectionsStayValid(rows, jobs, events, states, i, j, t, SpecKind);
    CommittedRowsAreSound(rows, jobs, events, states, j, t);
    LoadedIdsAreExact(states[j].rows[t].metadata.schemas);
    LoadedIdsAreExact(states[j].rows[t].metadata.specs);
  }
}
