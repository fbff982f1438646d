/** The update actions of a commit request, their processing order, and their parsing. */
module Updates {
  import opened Options
  import opened JsonValues
  import opened Binary64
  import opened TableMetadata

  datatype Action =
    | AssignUuidAction | UpgradeFormatVersionAction | SetLocationAction
    | AddSchemaAction | SetCurrentSchemaAction
    | AddSpecAction | SetDefaultSpecAction
    | AddSortOrderAction | SetDefaultSortOrderAction
    | AddSnapshotAction | SetSnapshotRefAction
    | SetStatisticsAction | SetPartitionStatisticsAction
    | SetPropertiesAction | RemovePropertiesAction
    | RemoveStatisticsAction | RemovePartitionStatisticsAction
    | RemoveSnapshotRefAction | RemoveSnapshotsAction
    | RemovePartitionSpecsAction | RemoveSchemasAction
    | AddEncryptionKeyAction | RemoveEncryptionKeyAction
    | OtherAction(name: string)

  /** The fixed order in which a request's actions are processed. */
  const PROCESSING_ORDER: seq<Action> := [
    AssignUuidAction, UpgradeFormatVersionAction, SetLocationAction,
    AddSchemaAction, SetCurrentSchemaAction,
    AddSpecAction, SetDefaultSpecAction,
    AddSortOrderAction, SetDefaultSortOrderAction,
    AddSnapshotAction, SetSnapshotRefAction,
    SetStatisticsAction, SetPartitionStatisticsAction,
    SetPropertiesAction, RemovePropertiesAction,
    RemoveStatisticsAction, RemovePartitionStatisticsAction,
    RemoveSnapshotRefAction, RemoveSnapshotsAction,
    RemovePartitionSpecsAction, RemoveSchemasAction,
    AddEncryptionKeyAction, RemoveEncryptionKeyAction]

  const RANKS := 23

  datatype Update =
    | AssignUuid(uuid: string)
    | UpgradeFormatVersion(version: int)
    | SetLocation(location: string)
    | AddSchema(schema: Option<FamilyDoc>, lastColumnId: Option<int>)
    | SetCurrentSchema(schemaId: int)
    | RemoveSchemas(schemaIds: seq<int>)
    | AddSpec(spec: Option<FamilyDoc>)
    | SetDefaultSpec(specId: int)
    | RemovePartitionSpecs(specIds: seq<int>)
    | AddSortOrder(sortOrder: Option<FamilyDoc>)
    | SetDefaultSortOrder(sortOrderId: int)
    | AddSnapshot(snapshot: Option<SnapshotDoc>)
    | SetSnapshotRef(refName: string, kind: string, snapshotId: int, retention: Retention)
    | RemoveSnapshots(snapshotIds: seq<int>)
    | RemoveSnapshotRef(oldRefName: string)
    | SetStatistics(deprecatedSnapshotId: Option<int>, statistics: Option<StatDoc>)
    | RemoveStatistics(statSnapshotId: int)
    | SetPartitionStatistics(partitionStatistics: Option<StatDoc>)
    | RemovePartitionStatistics(partitionSnapshotId: int)
    | SetProperties(updates: map<string, string>)
    | RemoveProperties(removals: seq<string>)
    | AddEncryptionKey(encryptionKey: Option<KeyDoc>)
    | RemoveEncryptionKey(keyId: string)

  function ActionOf(u: Update): Action {
    match u
    case AssignUuid(_) => AssignUuidAction
    case UpgradeFormatVersion(_) => UpgradeFormatVersionAction
    case SetLocation(_) => SetLocationAction
    case AddSchema(_, _) => AddSchemaAction
    case SetCurrentSchema(_) => SetCurrentSchemaAction
    case RemoveSchemas(_) => RemoveSchemasAction
    case AddSpec(_) => AddSpecAction
    case SetDefaultSpec(_) => SetDefaultSpecAction
    case RemovePartitionSpecs(_) => RemovePartitionSpecsAction
    case AddSortOrder(_) => AddSortOrderAction
    case SetDefaultSortOrder(_) => SetDefaultSortOrderAction
    case AddSnapshot(_) => AddSnapshotAction
    case SetSnapshotRef(_, _, _, _) => SetSnapshotRefAction
    case RemoveSnapshots(_) => RemoveSnapshotsAction
    case RemoveSnapshotRef(_) => RemoveSnapshotRefAction
    case SetStatistics(_, _) => SetStatisticsAction
    case RemoveStatistics(_) => RemoveStatisticsAction
    case SetPartitionStatistics(_) => SetPartitionStatisticsAction
    case RemovePartitionStatistics(_) => RemovePartitionStatisticsAction
    case SetProperties(_) => SetPropertiesAction
    case RemoveProperties(_) => RemovePropertiesAction
    case AddEncryptionKey(_) => AddEncryptionKeyAction
    case RemoveEncryptionKey(_) => RemoveEncryptionKeyAction
  }

  /** Position of an action in the processing order; unknown actions come after all. */
  function Position(a: Action): (r: nat)
    ensures r < RANKS <==> !a.OtherAction?
  {
    match a
    case AssignUuidAction => 0
    case UpgradeFormatVersionAction => 1
    case SetLocationAction => 2
    case AddSchemaAction => 3
    case SetCurrentSchemaAction => 4
    case AddSpecAction => 5
    case SetDefaultSpecAction => 6
    case AddSortOrderAction => 7
    case SetDefaultSortOrderAction => 8
    case AddSnapshotAction => 9
    case SetSnapshotRefAction => 10
    case SetStatisticsAction => 11
    case SetPartitionStatisticsAction => 12
    case SetPropertiesAction => 13
    case RemovePropertiesAction => 14
    case RemoveStatisticsAction => 15
    case RemovePartitionStatisticsAction => 16
    case RemoveSnapshotRefAction => 17
    case RemoveSnapshotsAction => 18
    case RemovePartitionSpecsAction => 19
    case RemoveSchemasAction => 20
    case AddEncryptionKeyAction => 21
    case RemoveEncryptionKeyAction => 22
    case OtherAction(_) => RANKS
  }

  function Rank(u: Update): (r: nat)
    ensures r < RANKS
  {
    Position(ActionOf(u))
  }

  /** The table lists every known action once, at its position. */
  lemma OrderListsEachActionOnce(a: Action, i: nat)
    requires i < RANKS
    ensures |PROCESSING_ORDER| == RANKS
    ensures PROCESSING_ORDER[i] == a <==> i == Position(a)
  {
    PositionInverts(i);
    if !a.OtherAction? { ListedAtPosition(a); }
  }

  /** The table's own attributes come first, then what is added and what refers to it, kind by kind,
      then properties, then removals in the reverse order, then keys. */
  lemma OrderOfActions()
    ensures Position(AssignUuidAction) < Position(UpgradeFormatVersionAction) < Position(SetLocationAction)
            < Position(AddSchemaAction) < Position(SetCurrentSchemaAction)
            < Position(AddSpecAction) < Position(SetDefaultSpecAction)
            < Position(AddSortOrderAction) < Position(SetDefaultSortOrderAction)
            < Position(AddSnapshotAction) < Position(SetSnapshotRefAction)
            < Position(SetStatisticsAction) < Position(SetPartitionStatisticsAction)
            < Position(SetPropertiesAction) < Position(RemovePropertiesAction)
            < Position(RemoveStatisticsAction) < Position(RemovePartitionStatisticsAction)
            < Position(RemoveSnapshotRefAction) < Position(RemoveSnapshotsAction)
            < Position(RemovePartitionSpecsAction) < Position(RemoveSchemasAction)
            < Position(AddEncryptionKeyAction) < Position(RemoveEncryptionKeyAction)
  {
  }

  lemma PositionInverts(i: nat)
    requires i < RANKS
    ensures |PROCESSING_ORDER| == RANKS && Position(PROCESSING_ORDER[i]) == i
  {
  }

  lemma ListedAtPosition(a: Action)
    requires !a.OtherAction?
    ensures PROCESSING_ORDER[Position(a)] == a
  {
  }

  // ---------------------------------------------------------------- decoding of struct fields

  function Member(o: map<string, Json>, name: string): Json {
    if name in o then o[name] else Null
  }

  function DecodeString(j: Json): Option<string> {
    match j
    case Null => Some("")
    case Str(s) => Some(s)
    case _ => None
  }

  predicate FitsInt64(n: int) {
    MIN_INT64 <= n < TWO63
  }

  function DecodeInt(j: Json): Option<int> {
    match j
    case Null => Some(0)
    case Num(n) => if FitsInt64(n) then Some(n) else None
    case _ => None
  }

  function DecodeIntPointer(j: Json): Option<Option<int>> {
    match j
    case Null => Some(None)
    case Num(n) => if FitsInt64(n) then Some(Some(n)) else None
    case _ => None
  }

  function DecodeObject(j: Json): Option<Option<map<string, Json>>> {
    match j
    case Null => Some(None)
    case Obj(o) => Some(Some(o))
    case _ => None
  }

  function DecodeInts(j: Json): Option<seq<int>> {
    match j
    case Null => Some([])
    case Arr(items) =>
      if forall i :: 0 <= i < |items| ==> DecodeInt(items[i]).Some? then
        Some(seq(|items|, i requires 0 <= i < |items| => if DecodeInt(items[i]).Some? then DecodeInt(items[i]).value else 0))
      else None
    case _ => None
  }

  function DecodeStrings(j: Json): Option<seq<string>> {
    match j
    case Null => Some([])
    case Arr(items) =>
      if forall i :: 0 <= i < |items| ==> DecodeString(items[i]).Some? then
        Some(seq(|items|, i requires 0 <= i < |items| => if DecodeString(items[i]).Some? then DecodeString(items[i]).value else ""))
      else None
    case _ => None
  }

  function DecodeStringMap(j: Json): Option<map<string, string>> {
    match j
    case Null => Some(map[])
    case Obj(o) =>
      if forall k :: k in o ==> DecodeString(o[k]).Some? then
        Some(map k | k in o :: if DecodeString(o[k]).Some? then DecodeString(o[k]).value else "")
      else None
    case _ => None
  }

  function Viewed<K, D>(o: Option<map<string, Json>>, view: map<string, Json> -> Doc<K, D>): Option<Doc<K, D>> {
    if o.Some? then Some(view(o.value)) else None
  }

  // ---------------------------------------------------------------- parseUpdate

  /** An update of the request body: its action and its JSON object. */
  datatype RawUpdate = RawUpdate(action: Action, body: map<string, Json>)

  datatype ParseResult = Parsed(update: Update) | UnknownAction | Malformed

  /** `parseUpdate`: an unknown action is reported before the body is looked at. */
  function ParseUpdate(raw: RawUpdate): (r: ParseResult)
    ensures r.UnknownAction? <==> raw.action.OtherAction?
    ensures r.Parsed? ==> ActionOf(r.update) == raw.action
  {
    if raw.action.OtherAction? then UnknownAction
    else
      var u := DecodeBody(raw.action, raw.body);
      if u.Some? then Parsed(u.value) else Malformed
  }

  function DecodeBody(action: Action, o: map<string, Json>): (u: Option<Update>)
    ensures u.Some? ==> ActionOf(u.value) == action
  {
    match action
    case AddSchemaAction | SetCurrentSchemaAction | RemoveSchemasAction | AddSpecAction | SetDefaultSpecAction
      | RemovePartitionSpecsAction | AddSortOrderAction | SetDefaultSortOrderAction => DecodeEntryBody(action, o)
    case AddSnapshotAction | SetSnapshotRefAction | RemoveSnapshotsAction | RemoveSnapshotRefAction
      | SetStatisticsAction | RemoveStatisticsAction | SetPartitionStatisticsAction | RemovePartitionStatisticsAction =>
      DecodeSnapshotBody(action, o)
    case AssignUuidAction =>
      var uuid :- DecodeString(Member(o, "uuid"));
      Some(AssignUuid(uuid))
    case UpgradeFormatVersionAction =>
      var v :- DecodeInt(Member(o, "format-version"));
      Some(UpgradeFormatVersion(v))
    case SetLocationAction =>
      var l :- DecodeString(Member(o, "location"));
      Some(SetLocation(l))
    case SetPropertiesAction =>
      var updates :- DecodeStringMap(Member(o, "updates"));
      Some(SetProperties(updates))
    case RemovePropertiesAction =>
      var removals :- DecodeStrings(Member(o, "removals"));
      Some(RemoveProperties(removals))
    case AddEncryptionKeyAction =>
      var k :- DecodeObject(Member(o, "encryption-key"));
      Some(AddEncryptionKey(Viewed(k, KeyView)))
    case RemoveEncryptionKeyAction =>
      var id :- DecodeString(Member(o, "key-id"));
      Some(RemoveEncryptionKey(id))
    case OtherAction(_) => None
  }

  /** Bodies about schemas, partition specs and sort orders. */
  function DecodeEntryBody(action: Action, o: map<string, Json>): (u: Option<Update>)
    ensures u.Some? ==> ActionOf(u.value) == action
  {
    match action
    case AddSchemaAction =>
      var s :- DecodeObject(Member(o, "schema"));
      var last :- DecodeIntPointer(Member(o, "last-column-id"));
      Some(AddSchema(Viewed(s, SchemaView), last))
    case SetCurrentSchemaAction =>
      var id :- DecodeInt(Member(o, "schema-id"));
      Some(SetCurrentSchema(id))
    case RemoveSchemasAction =>
      var ids :- DecodeInts(Member(o, "schema-ids"));
      Some(RemoveSchemas(ids))
    case AddSpecAction =>
      var s :- DecodeObject(Member(o, "spec"));
      Some(AddSpec(Viewed(s, SpecView)))
    case SetDefaultSpecAction =>
      var id :- DecodeInt(Member(o, "spec-id"));
      Some(SetDefaultSpec(id))
    case RemovePartitionSpecsAction =>
      var ids :- DecodeInts(Member(o, "spec-ids"));
      Some(RemovePartitionSpecs(ids))
    case AddSortOrderAction =>
      var s :- DecodeObject(Member(o, "sort-order"));
      Some(AddSortOrder(Viewed(s, SortOrderView)))
    case SetDefaultSortOrderAction =>
      var id :- DecodeInt(Member(o, "sort-order-id"));
      Some(SetDefaultSortOrder(id))
    case _ => None
  }

  /** Bodies about snapshots, references and statistics. */
  function DecodeSnapshotBody(action: Action, o: map<string, Json>): (u: Option<Update>)
    ensures u.Some? ==> ActionOf(u.value) == action
  {
    match action
    case AddSnapshotAction =>
      var s :- DecodeObject(Member(o, "snapshot"));
      Some(AddSnapshot(Viewed(s, SnapshotView)))
    case SetSnapshotRefAction =>
      var name :- DecodeString(Member(o, "ref-name"));
      var kind :- DecodeString(Member(o, "type"));
      var id :- DecodeInt(Member(o, "snapshot-id"));
      var maxRef :- DecodeIntPointer(Member(o, "max-ref-age-ms"));
      var maxSnapshot :- DecodeIntPointer(Member(o, "max-snapshot-age-ms"));
      var minSnapshots :- DecodeIntPointer(Member(o, "min-snapshots-to-keep"));
      Some(SetSnapshotRef(name, kind, id, Retention(maxRef, maxSnapshot, minSnapshots)))
    case RemoveSnapshotsAction =>
      var ids :- DecodeInts(Member(o, "snapshot-ids"));
      Some(RemoveSnapshots(ids))
    case RemoveSnapshotRefAction =>
      var name :- DecodeString(Member(o, "ref-name"));
      Some(RemoveSnapshotRef(name))
    case SetStatisticsAction =>
      var id :- DecodeIntPointer(Member(o, "snapshot-id"));
      var s :- DecodeObject(Member(o, "statistics"));
      Some(SetStatistics(id, Viewed(s, StatView)))
    case RemoveStatisticsAction =>
      var id :- DecodeInt(Member(o, "snapshot-id"));
      Some(RemoveStatistics(id))
    case SetPartitionStatisticsAction =>
      var s :- DecodeObject(Member(o, "partition-statistics"));
      Some(SetPartitionStatistics(Viewed(s, StatView)))
    case RemovePartitionStatisticsAction =>
      var id :- DecodeInt(Member(o, "snapshot-id"));
      Some(RemovePartitionStatistics(id))
    case _ => None
  }
}
