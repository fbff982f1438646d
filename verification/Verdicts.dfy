/** When a requirement is met, when a commit is written and what it writes. */
module Verdicts {
  import opened Options
  import opened JsonValues
  import opened Binary64
  import opened TableMetadata
  import opened Updates
  import opened Handlers
  import opened StableSort
  import opened Requests
  import opened ItemLemmas
  import opened Commits
  import opened Protocol
  import opened History
  import opened MetadataJson

  // ---------------------------------------------------------------- requirements

  /** Null is asked for a value that cannot be read, and otherwise exactly that value. */
  predicate Asked(value: Slot<int>, expected: Option<int>) {
    match expected
    case None => !value.Is?
    case Some(n) => value == Is(n)
  }

  /** What each kind of requirement asks of the metadata. */
  lemma RequirementMet(m: Metadata, r: Requirement)
    ensures r.AssertTableUuid? ==> (Holds(m, r) <==> m.tableUuid == Is(r.uuid))
    ensures r.AssertLastAssignedFieldId? ==> (Holds(m, r) <==> Asked(m.schemas.lastFieldId, r.fieldId))
    ensures r.AssertCurrentSchemaId? ==> (Holds(m, r) <==> Asked(m.schemas.pointer, r.schemaId))
    ensures r.AssertDefaultSpecId? ==> (Holds(m, r) <==> Asked(m.specs.pointer, r.specId))
    ensures r.AssertDefaultSortOrderId? ==> (Holds(m, r) <==> Asked(m.sortOrders.pointer, r.orderId))
    ensures r.AcceptedUnchecked? ==> Holds(m, r)
  {
  }

  /** The reference is there and its snapshot id can be read. */
  predicate RefReadable(m: Metadata, name: string) {
    var refs := m.snaps.refs;
    refs.Is? && name in refs.value && refs.value[name].Ref? && refs.value[name].snapshotId.Some?
  }

  /** A branch or tag is required to be at one snapshot, or not to be there. */
  lemma RefRequirementMet(m: Metadata, name: string, id: int)
    ensures Holds(m, AssertRefSnapshotId(name, None)) <==> !RefReadable(m, name)
    ensures Holds(m, AssertRefSnapshotId(name, Some(id))) <==>
              RefReadable(m, name) && m.snaps.refs.value[name].snapshotId == Some(id)
  {
  }

  /** The member is a number read as the expected one, or not a number and none is expected. */
  predicate MemberAsked(o: map<string, Json>, name: string, expected: Option<int>) {
    match expected
    case None => !(name in o && o[name].Num?)
    case Some(n) => name in o && o[name].Num? && ReadInt64(o[name].n) == n
  }

  /** The member of that reference in the metadata object, if there is one. */
  function RefMember(o: map<string, Json>, name: string): map<string, Json> {
    if "refs" in o && o["refs"].Obj? && name in o["refs"].members && o["refs"].members[name].Obj?
    then o["refs"].members[name].members else map[]
  }

  /** The same on the JSON object of a row: which member each requirement is about. */
  lemma RequirementMetInObject(o: map<string, Json>, r: Requirement)
    ensures r.AssertTableUuid? ==> (Holds(MetadataView(o), r) <==> "table-uuid" in o && o["table-uuid"] == Str(r.uuid))
    ensures r.AssertLastAssignedFieldId? ==> (Holds(MetadataView(o), r) <==> MemberAsked(o, "last-column-id", r.fieldId))
    ensures r.AssertCurrentSchemaId? ==> (Holds(MetadataView(o), r) <==> MemberAsked(o, "current-schema-id", r.schemaId))
    ensures r.AssertDefaultSpecId? ==> (Holds(MetadataView(o), r) <==> MemberAsked(o, "default-spec-id", r.specId))
    ensures r.AssertDefaultSortOrderId? ==> (Holds(MetadataView(o), r) <==> MemberAsked(o, "default-sort-order-id", r.orderId))
    ensures r.AssertRefSnapshotId? ==>
              (Holds(MetadataView(o), r) <==> MemberAsked(RefMember(o, r.ref), "snapshot-id", r.snapshotId))
  {
    hide ReadInt64, ReadSchemas, ReadSpecs, ReadOrders, ReadSnapshots, ReadLog, ReadStatistics, ReadKeys, ReadMap, ReloadMembers,
      ReloadJson;
  }

  // ---------------------------------------------------------------- verdicts

  ghost predicate AllHold(m: Metadata, requirements: seq<Requirement>) {
    forall r :: r in requirements ==> Holds(m, r)
  }

  /** A row can be written for metadata that has a location and a UUID the file name can be made from. */
  predicate Addressable(m: Metadata) {
    m.location.Is? && m.tableUuid.Is? && |m.tableUuid.value| >= 8
  }

  lemma NoUpdates(m: Metadata)
    ensures ApplyRequest(m, []) == Outcome(m, None)
  {
    SortedEmpty();
  }

  /** Each verdict comes up exactly when it should. */
  lemma DecidesExactly(row: Row, request: Request, now: int)
    ensures var m, verdict := Load(row), Decide(row, request, now);
            var held, o := AllHold(m, request.requirements), ApplyRequest(m, request.updates);
            && (verdict.RequirementFailed? <==> !held)
            && (verdict.UpdateFailed? <==> held && o.failure.Some?)
            && (verdict.UpdateFailed? ==> Some(verdict.failure) == o.failure)
            && (verdict.Broken? <==> held && o.failure.None? && !Addressable(o.meta))
            && (verdict.Write? <==> held && o.failure.None? && Addressable(o.meta))
  {
    hide Reload, ApplyRequest, Holds;
    ReloadTwice(row.metadata);
    NoUpdates(Load(row));
    assert AllHold(Load(row), request.requirements) <==> RequirementsHold(Load(row), request.requirements);
  }

  /** The row that is written: the result of the request with the new time, the old location as the
      previous one, and a new location made of the result's location, version 1, the time and the
      first eight characters of its UUID. */
  lemma WrittenRow(row: Row, request: Request, now: int)
    requires Decide(row, request, now).Write?
    ensures var m, written := ApplyRequest(Load(row), request.updates).meta, Decide(row, request, now).row;
            && written.previous == Some(row.location)
            && written.location.Generated?
            && Is(written.location.base) == m.location
            && written.location.version == 1 && written.location.millis == now
            && |written.location.uuidPrefix| == 8
            && (forall i :: 0 <= i < 8 ==> m.tableUuid.Is? && i < |m.tableUuid.value| && written.location.uuidPrefix[i] == m.tableUuid.value[i])
            && written.metadata.lastUpdatedMs == Is(now)
            && written.metadata.(lastUpdatedMs := m.lastUpdatedMs) == m
  {
    hide Reload, ApplyRequest, Holds;
    ReloadTwice(row.metadata);
    NoUpdates(Load(row));
  }

  // ---------------------------------------------------------------- tables that can always be committed to

  lemma UpdateKeepsAddressable(m: Metadata, u: Update)
    requires Addressable(m)
    ensures Addressable(ApplyUpdate(m, u).state)
  {
    hide AddEntry, SetPointer, RemoveEntries, PutSnapshot, SetRef, DropSnapshots, DropRef, SetStatistic, DropStatistic,
      MergeProperties, DropProperties, PutKey, DropKey;
  }

  lemma {:induction false} RunKeepsAddressable(m: Metadata, us: seq<Update>)
    requires Addressable(m)
    ensures Addressable(Run(m, us).meta)
    decreases |us|
  {
    hide ApplyUpdate, Addressable;
    if us != [] {
      UpdateKeepsAddressable(m, us[0]);
      var s := ApplyUpdate(m, us[0]);
      if s.error.None? { RunKeepsAddressable(s.state, us[1..]); }
    }
  }

  lemma RequestKeepsAddressable(m: Metadata, raws: seq<RawUpdate>)
    requires Addressable(m)
    ensures Addressable(ApplyRequest(m, raws).meta)
  {
    hide Run, Addressable;
    if ParseAll(raws).AllParsed? { RunKeepsAddressable(m, Sorted(ParseAll(raws).us)); }
  }

  lemma LoadedAddressable(row: Row)
    ensures Addressable(Load(row)) <==> Addressable(row.metadata)
  {
  }

  lemma CommitKeepsAddressable(row: Row, request: Request, now: int)
    requires Addressable(Load(row)) && Decide(row, request, now).Write?
    ensures Addressable(Load(Decide(row, request, now).row))
  {
    hide Reload, ApplyRequest, Decide;
    RequestKeepsAddressable(Load(row), request.updates);
    WrittenRow(row, request, now);
    LoadedAddressable(Decide(row, request, now).row);
  }

  /** In every run, a table that once had a location and a UUID of eight characters never makes a
      commit break: whatever is asked of it is written, or refused for a requirement or an update. */
  lemma CommitsNeverBreak(rows: map<Table, Row>, jobs: Jobs, events: seq<Event>, states: seq<System>, n: nat, t: Table,
                          request: Request, now: int)
    requires IsRun(rows, jobs, events, states) && n < |states| && t in rows && Addressable(rows[t].metadata)
    ensures t in states[n].rows && Addressable(Load(states[n].rows[t]))
    ensures !Decide(states[n].rows[t], request, now).Broken?
  {
    hide IsRun, Load, Justified, Addressable, Between, ApplyRequest, AllHold;
    LoadedAddressable(rows[t]);
    StartOfHistory(rows, jobs, events, states, n, t);
    forall link | link in Between(states, 0, n, t) && Justified(jobs, t, link) && Addressable(Load(link.base))
      ensures Addressable(Load(link.result))
    {
      LinkKeepsAddressable(jobs, t, link);
    }
    RunKeeps((m: Metadata) => Addressable(m), rows, jobs, events, states, 0, n, t);
    RequestKeepsAddressable(Load(states[n].rows[t]), request.updates);
    DecidesExactly(states[n].rows[t], request, now);
  }

  lemma LinkKeepsAddressable(jobs: Jobs, t: Table, link: Link)
    requires Justified(jobs, t, link) && Addressable(Load(link.base))
    ensures Addressable(Load(link.result))
  {
    hide Load, Decide, Addressable;
    CommitKeepsAddressable(link.base, jobs[link.owner].request, link.now);
  }
}
