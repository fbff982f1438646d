/** What each update handler does to the metadata, as functions.

    An outcome carries the state reached also when it reports an error; for one handler that is the
    state it started from, for a request the result of the updates before the failing one (module
    Failures). Class Processor runs the same handlers imperatively and is proved against these. */
module Handlers {
  import opened Options
  import opened JsonValues
  import opened Binary64
  import opened TableMetadata
  import opened Updates

  datatype Error =
    | UuidRequired | UuidIsFixed | BadFormatVersion | CannotDowngrade | LocationRequired
    | PayloadRequired | IdRequired | TimestampRequired | DuplicateId
    | NothingToSelect | NoSuchEntry | EntryInUse | CannotRemoveAll
    | RefNameRequired | BadRefType | NoSuchSnapshot | SnapshotReferenced | SnapshotIsCurrent
    | KeyIdRequired

  /** The state a handler reached and the error it returned, if any. */
  datatype Step<+S> = Step(state: S, error: Option<Error>)

  /** Go's 64-bit `int` arithmetic. */
  function Wrap64(n: int): int {
    (n + TWO63) % (2 * TWO63) - TWO63
  }

  // ---------------------------------------------------------------- schemas, specs, sort orders

  function Raise(slot: Slot<int>, candidate: int): Slot<int> {
    if candidate > slot.Or(0) then Is(candidate) else slot
  }

  function RaiseByFields(slot: Slot<int>, fields: FieldIds): Slot<int> {
    if fields.Some? then Raise(slot, MaxFieldId(fields.value)) else slot
  }

  function RaiseByHint(slot: Slot<int>, hint: Option<int>): Slot<int> {
    if hint.Some? then Raise(slot, hint.value) else slot
  }

  /** The id an entry gets: its own, or one more than the largest present. */
  function AssignedId(items: seq<FamilyItem>, doc: FamilyDoc): int {
    if doc.key.Some? then doc.key.value else Wrap64(MaxKey(items) + 1)
  }

  function AddEntry(f: Family, doc: Option<FamilyDoc>, hint: Option<int>): Step<Family> {
    if doc.None? then Step(f, Some(PayloadRequired))
    else
      var items := f.entries.Or([]);
      var id := AssignedId(items, doc.value);
      if HasKey(items, id) then Step(f.(entries := Is(items)), Some(DuplicateId))
      else
        Step(f.(entries := Is(items + [Object(doc.value.(key := Some(id)))]),
                lastFieldId := RaiseByHint(RaiseByFields(f.lastFieldId, doc.value.detail), hint)),
             None)
  }

  /** The id a pointer update means: -1 stands for the last entry, when its id is readable. */
  function TargetId(items: seq<FamilyItem>, target: int): int
    requires items != []
  {
    var last := items[|items| - 1].Key();
    if target == -1 && last.Some? then last.value else target
  }

  function SetPointer(f: Family, target: int): Step<Family> {
    var items := f.entries.Or([]);
    if items == [] then Step(f, Some(NothingToSelect))
    else
      var id := TargetId(items, target);
      if HasKey(items, id) then Step(f.(pointer := Is(id)), None)
      else Step(f, Some(NoSuchEntry))
  }

  function ToSet<T>(ids: seq<T>): set<T> {
    set id | id in ids
  }

  /** `removeItemsByID`: the list is replaced unless nothing is asked or nothing is there. */
  function RemoveById(items: seq<FamilyItem>, ids: seq<int>, inUse: int): Step<seq<FamilyItem>> {
    if ids == [] || items == [] then Step(items, None)
    else if inUse in ids then Step(items, Some(EntryInUse))
    else
      var kept := Without(items, ToSet(ids));
      if kept == [] then Step(items, Some(CannotRemoveAll)) else Step(kept, None)
  }

  function RemoveEntries(f: Family, ids: seq<int>): Step<Family> {
    if !f.entries.Is? then Step(f, None)
    else
      var r := RemoveById(f.entries.value, ids, f.pointer.Or(0));
      Step(f.(entries := Is(r.state)), r.error)
  }

  // ---------------------------------------------------------------- snapshots

  function LogEntry(id: int, timestampMs: int): LogItem {
    Object(Doc(Some(id), Some(timestampMs), map[]))
  }

  function PutSnapshot(s: Snapshots, doc: Option<SnapshotDoc>): Step<Snapshots> {
    if doc.None? then Step(s, Some(PayloadRequired))
    else if doc.value.key.None? then Step(s, Some(IdRequired))
    else if doc.value.detail.timestampMs.None? then Step(s, Some(TimestampRequired))
    else
      var list := s.list.Or([]);
      var id := doc.value.key.value;
      if HasKey(list, id) then Step(s.(list := Is(list)), Some(DuplicateId))
      else
        Step(s.(list := Is(list + [Object(doc.value)]),
                lastSequence := RaiseByHint(s.lastSequence, doc.value.detail.sequenceNumber),
                log := Is(s.log.Or([]) + [LogEntry(id, doc.value.detail.timestampMs.value)])),
             None)
  }

  function SetRef(s: Snapshots, name: string, kind: string, id: int, retention: Retention): Step<Snapshots> {
    if name == "" then Step(s, Some(RefNameRequired))
    else if kind != BRANCH && kind != TAG then Step(s, Some(BadRefType))
    else if id >= 0 && !HasKey(s.list.Or([]), id) then Step(s, Some(NoSuchSnapshot))
    else
      var t := s.(refs := Is(s.refs.Or(map[])[name := Ref(Some(kind), Some(id), retention)]));
      Step(if name == MAIN && kind == BRANCH then t.(current := Is(id)) else t, None)
  }

  predicate RefersInto(refs: map<string, Ref>, ids: seq<int>) {
    exists name :: name in refs && refs[name].Ref? && refs[name].snapshotId.Some? && refs[name].snapshotId.value in ids
  }

  function DropSnapshots(s: Snapshots, ids: seq<int>): Step<Snapshots> {
    if ids == [] || s.list.Or([]) == [] then Step(s, None)
    else if RefersInto(s.refs.Or(map[]), ids) then Step(s, Some(SnapshotReferenced))
    else if s.current.Is? && s.current.value in ids then Step(s, Some(SnapshotIsCurrent))
    else Step(s.(list := Is(Without(s.list.value, ToSet(ids)))), None)
  }

  predicate IsBranch(r: Ref) {
    r.Ref? && r.kind == Some(BRANCH)
  }

  function DropRef(s: Snapshots, name: string): Step<Snapshots> {
    if name == "" then Step(s, Some(RefNameRequired))
    else if !s.refs.Is? then Step(s, None)
    else
      var refs := s.refs.value;
      Step(s.(refs := Is(refs - {name}),
              current := if name == MAIN && name in refs && IsBranch(refs[name]) then Absent else s.current),
           None)
  }

  // ---------------------------------------------------------------- statistics

  function PutStatistic(slot: Slot<seq<StatItem>>, doc: StatDoc, id: int): Slot<seq<StatItem>> {
    Is(Without(slot.Or([]), {id}) + [Object(doc.(key := Some(id)))])
  }

  function SetStatistic(slot: Slot<seq<StatItem>>, doc: Option<StatDoc>, deprecatedId: Option<int>)
    : Step<Slot<seq<StatItem>>>
  {
    if doc.None? then Step(slot, Some(PayloadRequired))
    else if doc.value.key.Some? then Step(PutStatistic(slot, doc.value, doc.value.key.value), None)
    else if deprecatedId.Some? then Step(PutStatistic(slot, doc.value, deprecatedId.value), None)
    else Step(slot, Some(IdRequired))
  }

  function DropStatistic(slot: Slot<seq<StatItem>>, id: int): Slot<seq<StatItem>> {
    if slot.Or([]) == [] then slot else Is(Without(slot.value, {id}))
  }

  // ---------------------------------------------------------------- encryption keys

  function PutKey(slot: Slot<seq<KeyItem>>, doc: Option<KeyDoc>): Step<Slot<seq<KeyItem>>> {
    if doc.None? then Step(slot, Some(PayloadRequired))
    else if doc.value.key.None? || doc.value.key.value == "" then Step(slot, Some(KeyIdRequired))
    else
      var keys := slot.Or([]);
      if HasKey(keys, doc.value.key.value) then Step(Is(keys), Some(DuplicateId))
      else Step(Is(keys + [Object(doc.value)]), None)
  }

  function DropKey(slot: Slot<seq<KeyItem>>, id: string): Step<Slot<seq<KeyItem>>> {
    if id == "" then Step(slot, Some(KeyIdRequired))
    else if slot.Or([]) == [] then Step(slot, None)
    else Step(Is(Without(slot.value, {id})), None)
  }

  // ---------------------------------------------------------------- core attributes and properties

  function AssignTableUuid(slot: Slot<string>, uuid: string): Step<Slot<string>> {
    if uuid == "" then Step(slot, Some(UuidRequired))
    else if slot.Is? && slot.value != "" && slot.value != uuid then Step(slot, Some(UuidIsFixed))
    else Step(Is(uuid), None)
  }

  function UpgradeFormat(slot: Slot<int>, version: int): Step<Slot<int>> {
    if version < 1 || version > 3 then Step(slot, Some(BadFormatVersion))
    else if version < slot.Or(0) then Step(slot, Some(CannotDowngrade))
    else Step(Is(version), None)
  }

  function MoveTo(slot: Slot<string>, location: string): Step<Slot<string>> {
    if location == "" then Step(slot, Some(LocationRequired)) else Step(Is(location), None)
  }

  function MergeProperties(slot: Slot<map<string, Json>>, updates: map<string, string>): Slot<map<string, Json>> {
    if updates == map[] then slot
    else Is(slot.Or(map[]) + (map k | k in updates :: Str(updates[k])))
  }

  function DropProperties(slot: Slot<map<string, Json>>, removals: seq<string>): Slot<map<string, Json>> {
    if removals == [] || !slot.Is? then slot else Is(slot.value - ToSet(removals))
  }

  // ---------------------------------------------------------------- dispatch

  /** `applyUpdate`: the handler of one update, on the part of the metadata it works on. */
  function ApplyUpdate(m: Metadata, u: Update): Step<Metadata> {
    match u
    case AssignUuid(uuid) =>
      var s := AssignTableUuid(m.tableUuid, uuid); Step(m.(tableUuid := s.state), s.error)
    case UpgradeFormatVersion(v) =>
      var s := UpgradeFormat(m.formatVersion, v); Step(m.(formatVersion := s.state), s.error)
    case SetLocation(l) =>
      var s := MoveTo(m.location, l); Step(m.(location := s.state), s.error)
    case AddSchema(doc, hint) =>
      var s := AddEntry(m.schemas, doc, hint); Step(m.(schemas := s.state), s.error)
    case SetCurrentSchema(id) =>
      var s := SetPointer(m.schemas, id); Step(m.(schemas := s.state), s.error)
    case RemoveSchemas(ids) =>
      var s := RemoveEntries(m.schemas, ids); Step(m.(schemas := s.state), s.error)
    case AddSpec(doc) =>
      var s := AddEntry(m.specs, doc, None); Step(m.(specs := s.state), s.error)
    case SetDefaultSpec(id) =>
      var s := SetPointer(m.specs, id); Step(m.(specs := s.state), s.error)
    case RemovePartitionSpecs(ids) =>
      var s := RemoveEntries(m.specs, ids); Step(m.(specs := s.state), s.error)
    case AddSortOrder(doc) =>
      var s := AddEntry(m.sortOrders, doc, None); Step(m.(sortOrders := s.state), s.error)
    case SetDefaultSortOrder(id) =>
      var s := SetPointer(m.sortOrders, id); Step(m.(sortOrders := s.state), s.error)
    case AddSnapshot(doc) =>
      var s := PutSnapshot(m.snaps, doc); Step(m.(snaps := s.state), s.error)
    case SetSnapshotRef(name, kind, id, retention) =>
      var s := SetRef(m.snaps, name, kind, id, retention); Step(m.(snaps := s.state), s.error)
    case RemoveSnapshots(ids) =>
      var s := DropSnapshots(m.snaps, ids); Step(m.(snaps := s.state), s.error)
    case RemoveSnapshotRef(name) =>
      var s := DropRef(m.snaps, name); Step(m.(snaps := s.state), s.error)
    case SetStatistics(id, doc) =>
      var s := SetStatistic(m.statistics, doc, id); Step(m.(statistics := s.state), s.error)
    case RemoveStatistics(id) =>
      Step(m.(statistics := DropStatistic(m.statistics, id)), None)
    case SetPartitionStatistics(doc) =>
      var s := SetStatistic(m.partitionStatistics, doc, None); Step(m.(partitionStatistics := s.state), s.error)
    case RemovePartitionStatistics(id) =>
      Step(m.(partitionStatistics := DropStatistic(m.partitionStatistics, id)), None)
    case SetProperties(updates) =>
      Step(m.(properties := MergeProperties(m.properties, updates)), None)
    case RemoveProperties(removals) =>
      Step(m.(properties := DropProperties(m.properties, removals)), None)
    case AddEncryptionKey(doc) =>
      var s := PutKey(m.encryptionKeys, doc); Step(m.(encryptionKeys := s.state), s.error)
    case RemoveEncryptionKey(id) =>
      var s := DropKey(m.encryptionKeys, id); Step(m.(encryptionKeys := s.state), s.error)
  }

  /** Why a request failed: an update that does not parse, or a handler's error under its action. */
  datatype Failure =
    | CannotParse(index: nat, action: Action, unknown: bool)
    | Rejected(action: Action, error: Error)

  /** The metadata a processor holds and the failure it reported, if any. */
  datatype Outcome = Outcome(meta: Metadata, failure: Option<Failure>)

  /** The updates in the given order, stopping at the first error. */
  function Run(m: Metadata, us: seq<Update>): Outcome
    decreases |us|
  {
    if us == [] then Outcome(m, None)
    else
      var s := ApplyUpdate(m, us[0]);
      if s.error.Some? then Outcome(s.state, Some(Rejected(ActionOf(us[0]), s.error.value)))
      else Run(s.state, us[1..])
  }
}
