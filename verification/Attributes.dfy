/** Statistics, encryption keys, table UUID, format version and sequence numbers over update lists. */
module Attributes {
  import opened Options
  import opened TableMetadata
  import opened Updates
  import opened Handlers
  import opened Requests
  import StableSort
  import opened ItemLemmas

  /** At most one statistics object per snapshot, and one encryption key per key id. */
  ghost predicate OnePerId(m: Metadata) {
    && UniqueKeys(m.statistics.Or([]))
    && UniqueKeys(m.partitionStatistics.Or([]))
    && UniqueKeys(m.encryptionKeys.Or([]))
  }

  lemma PutStatisticUnique(slot: Slot<seq<StatItem>>, doc: StatDoc, id: int)
    requires UniqueKeys(slot.Or([]))
    ensures UniqueKeys(PutStatistic(slot, doc, id).Or([]))
  {
    WithoutUnique(slot.Or([]), {id});
    WithoutKeys(slot.Or([]), {id}, id);
    UniqueGrows(Without(slot.Or([]), {id}), Object(doc.(key := Some(id))));
  }

  lemma SetStatisticUnique(slot: Slot<seq<StatItem>>, doc: Option<StatDoc>, deprecatedId: Option<int>)
    requires UniqueKeys(slot.Or([]))
    ensures UniqueKeys(SetStatistic(slot, doc, deprecatedId).state.Or([]))
  {
    if doc.Some? && doc.value.key.Some? { PutStatisticUnique(slot, doc.value, doc.value.key.value); }
    if doc.Some? && deprecatedId.Some? { PutStatisticUnique(slot, doc.value, deprecatedId.value); }
  }

  lemma {:induction false} RunKeepsStatisticsUnique(m: Metadata, us: seq<Update>)
    requires UniqueKeys(m.statistics.Or([])) && UniqueKeys(m.partitionStatistics.Or([]))
    ensures UniqueKeys(Run(m, us).meta.statistics.Or([])) && UniqueKeys(Run(m, us).meta.partitionStatistics.Or([]))
    decreases |us|
  {
    hide ApplyUpdate, UniqueKeys;
    if us != [] {
      StatisticsStayUnique(m, us[0]);
      var s := ApplyUpdate(m, us[0]);
      if s.error.None? { RunKeepsStatisticsUnique(s.state, us[1..]); }
    }
  }

  lemma StatisticsStayUnique(m: Metadata, u: Update)
    requires UniqueKeys(m.statistics.Or([])) && UniqueKeys(m.partitionStatistics.Or([]))
    ensures var n := ApplyUpdate(m, u).state;
            UniqueKeys(n.statistics.Or([])) && UniqueKeys(n.partitionStatistics.Or([]))
  {
    hide UniqueKeys;
    match u {
      case SetStatistics(id, doc) => SetStatisticUnique(m.statistics, doc, id);
      case SetPartitionStatistics(doc) => SetStatisticUnique(m.partitionStatistics, doc, None);
      case RemoveStatistics(id) => WithoutUnique(m.statistics.Or([]), {id});
      case RemovePartitionStatistics(id) => WithoutUnique(m.partitionStatistics.Or([]), {id});
      case _ =>
    }
  }

  lemma {:induction false} RunKeepsKeys(m: Metadata, us: seq<Update>)
    requires UniqueKeys(m.encryptionKeys.Or([]))
    ensures UniqueKeys(Run(m, us).meta.encryptionKeys.Or([]))
    decreases |us|
  {
    hide ApplyUpdate, UniqueKeys;
    if us != [] {
      var s := ApplyUpdate(m, us[0]);
      KeysStayUnique(m, us[0]);
      if s.error.None? { RunKeepsKeys(s.state, us[1..]); }
    }
  }

  lemma KeysStayUnique(m: Metadata, u: Update)
    requires UniqueKeys(m.encryptionKeys.Or([]))
    ensures UniqueKeys(ApplyUpdate(m, u).state.encryptionKeys.Or([]))
  {
    hide UniqueKeys;
    match u {
      case AddEncryptionKey(doc) =>
        if PutKey(m.encryptionKeys, doc).error.None? { UniqueGrows(m.encryptionKeys.Or([]), Object(doc.value)); }
      case RemoveEncryptionKey(id) => WithoutUnique(m.encryptionKeys.Or([]), {id});
      case _ =>
    }
  }

  /** Any list of updates, even one that fails midway, keeps them so. */
  lemma RunKeepsOnePerId(m: Metadata, us: seq<Update>)
    requires OnePerId(m)
    ensures OnePerId(Run(m, us).meta)
  {
    hide Run, UniqueKeys;
    RunKeepsStatisticsUnique(m, us);
    RunKeepsKeys(m, us);
  }

  /** What history can only do one way: the UUID stays once set, and versions do not go back. */
  ghost predicate KeepsDirection(m: Metadata, n: Metadata) {
    && (m.tableUuid.Is? && m.tableUuid.value != "" ==> n.tableUuid == m.tableUuid)
    && m.formatVersion.Or(0) <= n.formatVersion.Or(0)
    && (1 <= m.formatVersion.Or(0) <= 3 ==> 1 <= n.formatVersion.Or(0) <= 3)
    && m.snaps.lastSequence.Or(0) <= n.snaps.lastSequence.Or(0)
  }

  ghost predicate Advances(m: Metadata, n: Metadata) {
    && KeepsDirection(m, n)
    && m.schemas.lastFieldId.Or(0) <= n.schemas.lastFieldId.Or(0)
    && m.specs.lastFieldId.Or(0) <= n.specs.lastFieldId.Or(0)
  }

  lemma UpdateAdvances(m: Metadata, u: Update)
    ensures Advances(m, ApplyUpdate(m, u).state)
  {
  }

  /** The table UUID stays once set; format version and the three marks never go down. */
  lemma {:induction false} RunAdvances(m: Metadata, us: seq<Update>)
    ensures Advances(m, Run(m, us).meta)
    decreases |us|
  {
    hide ApplyUpdate;
    if us != [] {
      UpdateAdvances(m, us[0]);
      var s := ApplyUpdate(m, us[0]);
      if s.error.None? { RunAdvances(s.state, us[1..]); }
    }
  }

  lemma RequestAdvances(m: Metadata, raws: seq<RawUpdate>)
    ensures Advances(m, ApplyRequest(m, raws).meta)
  {
    hide Run;
    if ParseAll(raws).AllParsed? { RunAdvances(m, StableSort.Sorted(ParseAll(raws).us)); }
  }

  lemma RequestKeepsOnePerId(m: Metadata, raws: seq<RawUpdate>)
    requires OnePerId(m)
    ensures OnePerId(ApplyRequest(m, raws).meta)
  {
    hide Run, OnePerId;
    if ParseAll(raws).AllParsed? { RunKeepsOnePerId(m, StableSort.Sorted(ParseAll(raws).us)); }
  }
}
