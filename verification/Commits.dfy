/** One commit: load the row, check the requirements, run the updates, build the new row. */
module Commits {
  import opened Options
  import opened JsonValues
  import opened TableMetadata
  import opened Updates
  import opened Handlers
  import opened Requests
  import opened UpdateProcessor

  // ---------------------------------------------------------------- requirements

  datatype Requirement =
    | AssertTableUuid(uuid: string)
    | AssertRefSnapshotId(ref: string, snapshotId: Option<int>)
    | AssertLastAssignedFieldId(fieldId: Option<int>)
    | AssertCurrentSchemaId(schemaId: Option<int>)
    | AssertDefaultSpecId(specId: Option<int>)
    | AssertDefaultSortOrderId(orderId: Option<int>)
    | AcceptedUnchecked(kind: string)

  function ReadSlot(s: Slot<int>): Option<int> {
    if s.Is? then Some(s.value) else None
  }

  /** The snapshot id a reference can be seen to have. */
  function RefTarget(m: Metadata, name: string): Option<int> {
    var refs := m.snaps.refs;
    if refs.Is? && name in refs.value && refs.value[name].Ref? then refs.value[name].snapshotId else None
  }

  /** `validateRequirement`, on loaded metadata. */
  predicate Holds(m: Metadata, r: Requirement) {
    match r
    case AssertTableUuid(uuid) => m.tableUuid == Is(uuid)
    case AssertRefSnapshotId(ref, id) => RefTarget(m, ref) == id
    case AssertLastAssignedFieldId(id) => ReadSlot(m.schemas.lastFieldId) == id
    case AssertCurrentSchemaId(id) => ReadSlot(m.schemas.pointer) == id
    case AssertDefaultSpecId(id) => ReadSlot(m.specs.pointer) == id
    case AssertDefaultSortOrderId(id) => ReadSlot(m.sortOrders.pointer) == id
    case AcceptedUnchecked(_) => true
  }

  // ---------------------------------------------------------------- rows and verdicts

  /** A metadata location: one the engine makes from its base, the time and a UUID prefix, or one a
      client registered. */
  datatype Location =
    | Generated(base: string, version: nat, millis: int, uuidPrefix: string)
    | Registered(path: string)

  datatype Row = Row(location: Location, previous: Option<Location>, metadata: Metadata)

  datatype Request = Request(requirements: seq<Requirement>, updates: seq<RawUpdate>)

  /** What the closure of a commit comes to: a refusal, a row to write, or an internal error. */
  datatype Verdict = RequirementFailed | UpdateFailed(failure: Failure) | Broken | Write(row: Row)

  /** The row as it is read: its metadata has been through JSON. */
  function Load(row: Row): Metadata {
    Reload(row.metadata)
  }

  predicate RequirementsHold(m: Metadata, requirements: seq<Requirement>) {
    forall i :: 0 <= i < |requirements| ==> Holds(m, requirements[i])
  }

  /** The new row; a missing UUID or location is an internal error, and so is a UUID too short for
      the eight characters the file name takes from it. */
  function NewRow(row: Row, m: Metadata, now: int): Verdict {
    if !m.tableUuid.Is? || !m.location.Is? || |m.tableUuid.value| < 8 then Broken
    else Write(Row(Generated(m.location.value, 1, now, m.tableUuid.value[..8]), Some(row.location),
                   m.(lastUpdatedMs := Is(now))))
  }

  /** The body of the `CommitTable` closure, once the row is locked and read. */
  function Decide(row: Row, request: Request, now: int): Verdict {
    var m := Load(row);
    if !RequirementsHold(m, request.requirements) then RequirementFailed
    else if request.updates == [] then NewRow(row, m, now)
    else
      var o := ApplyRequest(Reload(m), request.updates);
      if o.failure.Some? then UpdateFailed(o.failure.value) else NewRow(row, o.meta, now)
  }

  /** The closure as it runs: a loop over the requirements, then a processor on a copy. */
  method RunClosure(row: Row, request: Request, now: int) returns (verdict: Verdict)
    ensures verdict == Decide(row, request, now)
  {
    var metadata := Load(row);
    for i := 0 to |request.requirements|
      invariant forall j :: 0 <= j < i ==> Holds(metadata, request.requirements[j])
    {
      if !Holds(metadata, request.requirements[i]) {
        return RequirementFailed;
      }
    }
    if |request.updates| > 0 {
      var processor := new Processor(metadata);
      var failure := processor.Apply(request.updates);
      if failure.Some? {
        return UpdateFailed(failure.value);
      }
      metadata := processor.metadata;
    }
    return NewRow(row, metadata, now);
  }

  /** The row `CreateTable` inserts. */
  function CreateRow(uuid: string, location: string, now: int, schema: map<string, Json>,
                     spec: Json, sortOrder: Json, properties: Json): Row
  {
    Row(Generated(location, 0, now, if |uuid| >= 8 then uuid[..8] else uuid), None,
        InitialMetadata(uuid, location, now, schema, spec, sortOrder, properties))
  }

  /** The row `RegisterTable` inserts; the table's location is the registered one, less its ending. */
  function RegisterRow(uuid: string, path: string, now: int): Row {
    Row(Registered(path), None, RegisteredMetadata(uuid, TrimSuffix(path, "/metadata"), now))
  }

  function TrimSuffix(s: string, suffix: string): string {
    if |suffix| <= |s| && s[|s| - |suffix|..] == suffix then s[..|s| - |suffix|] else s
  }

  /** A row as it is first inserted: by creating a table or by registering one. */
  ghost predicate Inserted(row: Row) {
    || (exists uuid: string, location: string, now: int, schema: map<string, Json>, spec: Json, order: Json, properties: Json ::
          row == CreateRow(uuid, location, now, schema, spec, order, properties))
    || (exists uuid: string, path: string, now: int :: row == RegisterRow(uuid, path, now))
  }
}
