/** What a failing request leaves behind: updates are all or nothing, requests are not. */
module Failures {
  import opened Options
  import opened JsonValues
  import opened TableMetadata
  import opened Updates
  import opened Handlers
  import opened StableSort
  import opened Requests

  /** A handler that reports an error has changed nothing: a list it has just created holds no
      duplicate, and everything else is checked before it is written. */
  lemma UpdateIsAtomic(m: Metadata, u: Update)
    ensures ApplyUpdate(m, u).error.Some? ==> ApplyUpdate(m, u).state == m
  {
    hide AddEntry, RemoveEntries, PutSnapshot, PutKey, HasKey, TargetId, RefersInto, PutStatistic;
    match u {
      case AddSchema(doc, hint) => AddIsAtomic(m.schemas, doc, hint);
      case AddSpec(doc) => AddIsAtomic(m.specs, doc, None);
      case AddSortOrder(doc) => AddIsAtomic(m.sortOrders, doc, None);
      case RemoveSchemas(ids) => RemoveIsAtomic(m.schemas, ids);
      case RemovePartitionSpecs(ids) => RemoveIsAtomic(m.specs, ids);
      case AddSnapshot(doc) => PutIsAtomic(m.snaps, doc);
      case AddEncryptionKey(doc) => KeyIsAtomic(m.encryptionKeys, doc);
      case _ =>
    }
  }

  lemma AddIsAtomic(f: Family, doc: Option<FamilyDoc>, hint: Option<int>)
    ensures AddEntry(f, doc, hint).error.Some? ==> AddEntry(f, doc, hint).state == f
  {
  }

  lemma RemoveIsAtomic(f: Family, ids: seq<int>)
    ensures RemoveEntries(f, ids).error.Some? ==> RemoveEntries(f, ids).state == f
  {
  }

  lemma KeyIsAtomic(slot: Slot<seq<KeyItem>>, doc: Option<KeyDoc>)
    ensures PutKey(slot, doc).error.Some? ==> PutKey(slot, doc).state == slot
  {
  }

  lemma PutIsAtomic(s: Snapshots, doc: Option<SnapshotDoc>)
    ensures PutSnapshot(s, doc).error.Some? ==> PutSnapshot(s, doc).state == s
  {
  }

  /** A failing run stops at some update and leaves exactly what the updates before it did. */
  lemma {:induction false} FailingRun(m: Metadata, us: seq<Update>) returns (i: nat)
    requires Run(m, us).failure.Some?
    ensures i < |us| && Run(m, us[..i]).failure.None?
    ensures var reached := Run(m, us[..i]).meta;
            && ApplyUpdate(reached, us[i]).error.Some?
            && Run(m, us) == Outcome(reached, Some(Rejected(ActionOf(us[i]), ApplyUpdate(reached, us[i]).error.value)))
    decreases |us|
  {
    hide ApplyUpdate;
    var s := ApplyUpdate(m, us[0]);
    i := 0;
    if s.error.Some? {
      UpdateIsAtomic(m, us[0]);
      assert us[..0] == [];
    } else {
      var j := FailingRun(s.state, us[1..]);
      i := j + 1;
      assert us[..i][0] == us[0] && us[..i][1..] == us[1..][..j];
    }
  }

  /** What a failing request leaves: with a parse error the metadata as it was, otherwise the result
      of the updates that precede the failing one in processing order. */
  lemma FailingRequest(m: Metadata, raws: seq<RawUpdate>) returns (i: nat)
    requires ApplyRequest(m, raws).failure.Some?
    ensures ParseAll(raws).FirstBad? ==> ApplyRequest(m, raws).meta == m
    ensures ParseAll(raws).AllParsed? ==>
              var order := Sorted(ParseAll(raws).us);
              && i < |order| && Run(m, order[..i]).failure.None?
              && ApplyUpdate(Run(m, order[..i]).meta, order[i]).error.Some?
              && ApplyRequest(m, raws).meta == Run(m, order[..i]).meta
              && (i == 0 ==> ApplyRequest(m, raws).meta == m)
  {
    hide ApplyUpdate, ParseAll, Sorted;
    i := 0;
    if ParseAll(raws).AllParsed? {
      i := FailingRun(m, Sorted(ParseAll(raws).us));
    }
  }

  /** Nothing changed, exactly when the request did not parse, or the updates that ran undid
      one another or were none. */
  lemma UnchangedExactly(m: Metadata, raws: seq<RawUpdate>)
    requires ApplyRequest(m, raws).failure.Some?
    ensures ApplyRequest(m, raws).meta == m <==>
              || ParseAll(raws).FirstBad?
              || exists i :: CompletedPrefix(m, Sorted(ParseAll(raws).us), i) && Run(m, Sorted(ParseAll(raws).us)[..i]).meta == m
  {
    hide ApplyUpdate, ParseAll, Sorted;
    var i := FailingRequest(m, raws);
    if ParseAll(raws).AllParsed? {
      var order := Sorted(ParseAll(raws).us);
      assert CompletedPrefix(m, order, i);
      forall k | CompletedPrefix(m, order, k) ensures k == i { OneStop(m, order, i, k); }
    }
  }

  /** The updates before i succeed and the one at i fails on their result. */
  ghost predicate CompletedPrefix(m: Metadata, us: seq<Update>, i: int) {
    && 0 <= i < |us| && Run(m, us[..i]).failure.None?
    && ApplyUpdate(Run(m, us[..i]).meta, us[i]).error.Some?
  }

  lemma OneStop(m: Metadata, us: seq<Update>, i: int, k: int)
    requires CompletedPrefix(m, us, i) && CompletedPrefix(m, us, k)
    ensures i == k
  {
    hide ApplyUpdate;
    if i < k { StopsAt(m, us, i, k); }
    if k < i { StopsAt(m, us, k, i); }
  }

  lemma StopsAt(m: Metadata, us: seq<Update>, i: nat, k: nat)
    requires i < k < |us| && CompletedPrefix(m, us, i)
    ensures Run(m, us[..k]).failure.Some?
  {
    hide ApplyUpdate;
    assert us[..k] == us[..i] + us[i..k];
    RunConcat(m, us[..i], us[i..k]);
    assert us[i..k][0] == us[i];
  }

  /** A request whose first update in processing order fails changes nothing. */
  lemma FirstInOrderFails(m: Metadata, raws: seq<RawUpdate>)
    requires ParseAll(raws).AllParsed? && ParseAll(raws).us != []
    ensures Sorted(ParseAll(raws).us) != []
    ensures var first := Sorted(ParseAll(raws).us)[0];
            ApplyUpdate(m, first).error.Some? ==>
              ApplyRequest(m, raws) == Outcome(m, Some(Rejected(ActionOf(first), ApplyUpdate(m, first).error.value)))
  {
    hide ApplyUpdate, ParseAll, Sorted;
    NothingSortedAway(ParseAll(raws).us);
    UpdateIsAtomic(m, Sorted(ParseAll(raws).us)[0]);
  }

  lemma NothingSortedAway(us: seq<Update>)
    requires us != []
    ensures Sorted(us) != []
  {
    hide Sorted;
    SortedIsStableSort(us);
    assert us[0] in us;
  }

  predicate IsAddition(u: Update) {
    u.AddSchema? || u.AddSpec? || u.AddSortOrder? || u.AddSnapshot? || u.AddEncryptionKey?
  }

  /** How many entries the lists of additions hold. */
  function Entries(m: Metadata): nat {
    |m.schemas.entries.Or([])| + |m.specs.entries.Or([])| + |m.sortOrders.entries.Or([])|
    + |m.snaps.list.Or([])| + |m.encryptionKeys.Or([])|
  }

  lemma AdditionAddsOne(m: Metadata, u: Update)
    requires IsAddition(u) && ApplyUpdate(m, u).error.None?
    ensures Entries(ApplyUpdate(m, u).state) == Entries(m) + 1
  {
    hide HasKey, AssignedId, RaiseByHint, RaiseByFields;
  }

  lemma {:induction false} AdditionsAddUp(m: Metadata, us: seq<Update>)
    requires Run(m, us).failure.None? && forall u :: u in us ==> IsAddition(u)
    ensures Entries(Run(m, us).meta) == Entries(m) + |us|
    decreases |us|
  {
    hide ApplyUpdate, IsAddition, Entries;
    if us != [] {
      assert us[0] in us;
      AdditionAddsOne(m, us[0]);
      AdditionsAddUp(ApplyUpdate(m, us[0]).state, us[1..]);
    }
  }

  /** A failing request of additions only leaves the metadata unchanged exactly when the first of
      them in processing order fails. */
  lemma AdditionsUnchangedExactly(m: Metadata, raws: seq<RawUpdate>)
    requires ParseAll(raws).AllParsed? && forall u :: u in ParseAll(raws).us ==> IsAddition(u)
    requires ApplyRequest(m, raws).failure.Some?
    ensures Sorted(ParseAll(raws).us) != []
    ensures ApplyRequest(m, raws).meta == m <==> ApplyUpdate(m, Sorted(ParseAll(raws).us)[0]).error.Some?
  {
    hide ApplyUpdate, ParseAll, Sorted, IsAddition, Entries, Run;
    var us, order := ParseAll(raws).us, Sorted(ParseAll(raws).us);
    var i := FailingRequest(m, raws);
    SortedIsStableSort(us);
    assert order[i] in us && forall u :: u in order[..i] ==> u in order;
    AdditionsAddUp(m, order[..i]);
    RunOfNothing(m, order);
    FirstInOrderFails(m, raws);
  }

  lemma RunOfNothing(m: Metadata, us: seq<Update>)
    ensures us[..0] == [] && Run(m, us[..0]) == Outcome(m, None)
  {
  }

  /** Part of a failing request can stay: this one moves the table, then has no reference to remove. */
  function HalfDoneRequest(location: string): seq<RawUpdate> {
    [RawUpdate(SetLocationAction, map["location" := Str(location)]), RawUpdate(RemoveSnapshotRefAction, map[])]
  }

  lemma HalfDone(m: Metadata, location: string)
    requires location != "" && m.location != Is(location)
    ensures var o := ApplyRequest(m, HalfDoneRequest(location));
            && o.failure == Some(Rejected(RemoveSnapshotRefAction, RefNameRequired))
            && o.meta == m.(location := Is(location)) && o.meta != m
  {
    var raws := HalfDoneRequest(location);
    var move, remove := SetLocation(location), RemoveSnapshotRef("");
    assert ParseUpdate(raws[0]) == Parsed(move) && ParseUpdate(raws[1]) == Parsed(remove);
    assert raws[..1] == [raws[0]] && raws[..1][..0] == [];
    assert ParseAll(raws[..1]) == AllParsed([move]);
    assert ParseAll(raws) == AllParsed([move, remove]);
    MoveThenRemove(m, location);
  }

  lemma MoveThenRemove(m: Metadata, location: string)
    requires location != ""
    ensures Run(m, Sorted([SetLocation(location), RemoveSnapshotRef("")]))
         == Outcome(m.(location := Is(location)), Some(Rejected(RemoveSnapshotRefAction, RefNameRequired)))
  {
    hide Sorted;
    var move, remove := SetLocation(location), RemoveSnapshotRef("");
    SortedPair(move, remove);
    RunPair(m, move, remove);
    RunSingle(m.(location := Is(location)), remove);
  }
}
