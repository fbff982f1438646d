/** Which update bodies parse, and what they parse to. */
module Parsing {
  import opened Options
  import opened JsonValues
  import opened TableMetadata
  import opened Updates

  /** The Go types the fields of the update structs have. */
  datatype FieldType = Text | Integer | Document | Integers | Texts | TextMap

  /** The fields of each update: null counts as absent everywhere. */
  function Fields(action: Action): seq<(string, FieldType)> {
    match action
    case AssignUuidAction => [("uuid", Text)]
    case UpgradeFormatVersionAction => [("format-version", Integer)]
    case SetLocationAction => [("location", Text)]
    case AddSchemaAction => [("schema", Document), ("last-column-id", Integer)]
    case SetCurrentSchemaAction => [("schema-id", Integer)]
    case RemoveSchemasAction => [("schema-ids", Integers)]
    case AddSpecAction => [("spec", Document)]
    case SetDefaultSpecAction => [("spec-id", Integer)]
    case RemovePartitionSpecsAction => [("spec-ids", Integers)]
    case AddSortOrderAction => [("sort-order", Document)]
    case SetDefaultSortOrderAction => [("sort-order-id", Integer)]
    case AddSnapshotAction => [("snapshot", Document)]
    case SetSnapshotRefAction =>
      [("ref-name", Text), ("type", Text), ("snapshot-id", Integer), ("max-ref-age-ms", Integer),
       ("max-snapshot-age-ms", Integer), ("min-snapshots-to-keep", Integer)]
    case RemoveSnapshotsAction => [("snapshot-ids", Integers)]
    case RemoveSnapshotRefAction => [("ref-name", Text)]
    case SetStatisticsAction => [("snapshot-id", Integer), ("statistics", Document)]
    case RemoveStatisticsAction => [("snapshot-id", Integer)]
    case SetPartitionStatisticsAction => [("partition-statistics", Document)]
    case RemovePartitionStatisticsAction => [("snapshot-id", Integer)]
    case SetPropertiesAction => [("updates", TextMap)]
    case RemovePropertiesAction => [("removals", Texts)]
    case AddEncryptionKeyAction => [("encryption-key", Document)]
    case RemoveEncryptionKeyAction => [("key-id", Text)]
    case OtherAction(_) => []
  }

  predicate HasType(j: Json, t: FieldType) {
    || j.Null?
    || match t
       case Text => j.Str?
       case Integer => j.Num? && FitsInt64(j.n)
       case Document => j.Obj?
       case Integers => j.Arr? && forall i :: 0 <= i < |j.items| ==> j.items[i].Null? || (j.items[i].Num? && FitsInt64(j.items[i].n))
       case Texts => j.Arr? && forall i :: 0 <= i < |j.items| ==> j.items[i].Null? || j.items[i].Str?
       case TextMap => j.Obj? && forall k :: k in j.members ==> j.members[k].Null? || j.members[k].Str?
  }

  /** Every field of the action has its type. */
  predicate WellTyped(raw: RawUpdate) {
    forall i :: 0 <= i < |Fields(raw.action)| ==> HasType(Member(raw.body, Fields(raw.action)[i].0), Fields(raw.action)[i].1)
  }

  lemma DecodersCheckTypes(j: Json)
    ensures DecodeString(j).Some? <==> HasType(j, Text)
    ensures DecodeInt(j).Some? <==> HasType(j, Integer)
    ensures DecodeIntPointer(j).Some? <==> HasType(j, Integer)
    ensures DecodeObject(j).Some? <==> HasType(j, Document)
    ensures DecodeInts(j).Some? <==> HasType(j, Integers)
    ensures DecodeStrings(j).Some? <==> HasType(j, Texts)
    ensures DecodeStringMap(j).Some? <==> HasType(j, TextMap)
  {
  }

  predicate Typed(o: map<string, Json>, field: (string, FieldType)) {
    HasType(Member(o, field.0), field.1)
  }

  /** The bodies that DecodeEntryBody decodes. */
  predicate ConcernsEntries(action: Action) {
    action in {AddSchemaAction, SetCurrentSchemaAction, RemoveSchemasAction, AddSpecAction, SetDefaultSpecAction,
               RemovePartitionSpecsAction, AddSortOrderAction, SetDefaultSortOrderAction}
  }

  lemma EntryFields(o: map<string, Json>, action: Action)
    requires ConcernsEntries(action)
    ensures var fields := Fields(action);
            && 1 <= |fields| <= 2
            && (DecodeBody(action, o).Some? <==> Typed(o, fields[0]) && (|fields| == 2 ==> Typed(o, fields[1])))
  {
    hide HasType, DecodeString, DecodeInt, DecodeIntPointer, DecodeObject, DecodeInts, DecodeStrings, DecodeStringMap, Member,
      Viewed, DecodeSnapshotBody;
    var fields := Fields(action);
    DecodersCheckTypes(Member(o, fields[0].0));
    if |fields| == 2 { DecodersCheckTypes(Member(o, fields[1].0)); }
  }

  lemma AtMostTwoFields(o: map<string, Json>, action: Action)
    requires !action.OtherAction? && action != SetSnapshotRefAction
    ensures var fields := Fields(action);
            && 1 <= |fields| <= 2
            && (DecodeBody(action, o).Some? <==> Typed(o, fields[0]) && (|fields| == 2 ==> Typed(o, fields[1])))
  {
    hide HasType, DecodeString, DecodeInt, DecodeIntPointer, DecodeObject, DecodeInts, DecodeStrings, DecodeStringMap, Member,
      Viewed, DecodeEntryBody;
    if ConcernsEntries(action) {
      EntryFields(o, action);
    } else {
      var fields := Fields(action);
      DecodersCheckTypes(Member(o, fields[0].0));
      if |fields| == 2 { DecodersCheckTypes(Member(o, fields[1].0)); }
    }
  }

  lemma SixFields(o: map<string, Json>)
    ensures var fields := Fields(SetSnapshotRefAction);
            && |fields| == 6
            && (DecodeBody(SetSnapshotRefAction, o).Some? <==>
                  Typed(o, fields[0]) && Typed(o, fields[1]) && Typed(o, fields[2])
                  && Typed(o, fields[3]) && Typed(o, fields[4]) && Typed(o, fields[5]))
  {
    hide HasType, DecodeString, DecodeInt, DecodeIntPointer, Member;
    var fields := Fields(SetSnapshotRefAction);
    DecodersCheckTypes(Member(o, fields[0].0));
    DecodersCheckTypes(Member(o, fields[1].0));
    DecodersCheckTypes(Member(o, fields[2].0));
    DecodersCheckTypes(Member(o, fields[3].0));
    DecodersCheckTypes(Member(o, fields[4].0));
    DecodersCheckTypes(Member(o, fields[5].0));
  }

  /** An update parses exactly when its action is known and its fields have their types. */
  lemma ParsesExactlyWhenWellTyped(raw: RawUpdate)
    ensures ParseUpdate(raw).Parsed? <==> !raw.action.OtherAction? && WellTyped(raw)
    ensures ParseUpdate(raw).Malformed? <==> !raw.action.OtherAction? && !WellTyped(raw)
  {
    hide HasType, DecodeBody, Member, Fields;
    var fields := Fields(raw.action);
    assert WellTyped(raw) <==> forall i :: 0 <= i < |fields| ==> Typed(raw.body, fields[i]);
    if raw.action == SetSnapshotRefAction {
      SixFields(raw.body);
    } else if !raw.action.OtherAction? {
      AtMostTwoFields(raw.body, raw.action);
    }
  }

  // ---------------------------------------------------------------- what is absent

  function OrZero(j: Json, zero: Json): Json {
    if j.Null? then zero else j
  }

  function AllOrZero(items: seq<Json>, zero: Json): seq<Json> {
    seq(|items|, i requires 0 <= i < |items| => OrZero(items[i], zero))
  }

  /** Null stands for the zero value of its type: an empty text, 0, an empty list or map, and within
      lists and maps too; where Go has a pointer or a map it stands for nothing. */
  lemma NullIsZero(items: seq<Json>, members: map<string, Json>)
    ensures DecodeString(Null) == Some("") && DecodeInt(Null) == Some(0)
    ensures DecodeIntPointer(Null) == Some(None) && DecodeObject(Null) == Some(None)
    ensures DecodeInts(Null) == Some([]) && DecodeStrings(Null) == Some([]) && DecodeStringMap(Null) == Some(map[])
    ensures DecodeInts(Arr(items)) == DecodeInts(Arr(AllOrZero(items, Num(0))))
    ensures DecodeStrings(Arr(items)) == DecodeStrings(Arr(AllOrZero(items, Str(""))))
    ensures DecodeStringMap(Obj(members)) == DecodeStringMap(Obj(map k | k in members :: OrZero(members[k], Str(""))))
  {
    var ints, texts := AllOrZero(items, Num(0)), AllOrZero(items, Str(""));
    var named := map k | k in members :: OrZero(members[k], Str(""));
    forall i | 0 <= i < |items|
      ensures DecodeInt(items[i]) == DecodeInt(ints[i]) && DecodeString(items[i]) == DecodeString(texts[i])
    {
    }
    forall k | k in members ensures DecodeString(members[k]) == DecodeString(named[k]) {}
    if DecodeInts(Arr(items)).Some? { assert DecodeInts(Arr(items)).value == DecodeInts(Arr(ints)).value; }
    if DecodeStrings(Arr(items)).Some? { assert DecodeStrings(Arr(items)).value == DecodeStrings(Arr(texts)).value; }
    if DecodeStringMap(Obj(members)).Some? {
      assert DecodeStringMap(Obj(members)).value == DecodeStringMap(Obj(named)).value;
    }
  }

  ghost predicate SameMembers(o: map<string, Json>, p: map<string, Json>) {
    forall name :: Member(o, name) == Member(p, name)
  }

  lemma EntryBodyByMembers(action: Action, o: map<string, Json>, p: map<string, Json>)
    requires SameMembers(o, p)
    ensures DecodeEntryBody(action, o) == DecodeEntryBody(action, p)
  {
    hide DecodeString, DecodeInt, DecodeIntPointer, DecodeObject, DecodeInts, DecodeStrings, DecodeStringMap, Viewed, Member;
  }

  lemma SnapshotBodyByMembers(action: Action, o: map<string, Json>, p: map<string, Json>)
    requires SameMembers(o, p)
    ensures DecodeSnapshotBody(action, o) == DecodeSnapshotBody(action, p)
  {
    hide DecodeString, DecodeInt, DecodeIntPointer, DecodeObject, DecodeInts, DecodeStrings, DecodeStringMap, Viewed, Member;
  }

  lemma BodyByMembers(action: Action, o: map<string, Json>, p: map<string, Json>)
    requires SameMembers(o, p)
    ensures DecodeBody(action, o) == DecodeBody(action, p)
  {
    hide DecodeString, DecodeInt, DecodeIntPointer, DecodeObject, DecodeInts, DecodeStrings, DecodeStringMap, Viewed, Member,
      DecodeEntryBody, DecodeSnapshotBody;
    EntryBodyByMembers(action, o, p);
    SnapshotBodyByMembers(action, o, p);
  }

  /** A field that is null parses like one that is absent, whatever else the body holds. */
  lemma AbsentIsNull(action: Action, o: map<string, Json>)
    ensures ParseUpdate(RawUpdate(action, o)) == ParseUpdate(RawUpdate(action, map k | k in o && !o[k].Null? :: o[k]))
  {
    hide DecodeBody;
    var p := map k | k in o && !o[k].Null? :: o[k];
    forall name ensures Member(o, name) == Member(p, name) { MemberWithoutNulls(o, name); }
    BodyByMembers(action, o, p);
  }

  lemma MemberWithoutNulls(o: map<string, Json>, name: string)
    ensures Member(map k | k in o && !o[k].Null? :: o[k], name) == Member(o, name)
  {
  }

  // ---------------------------------------------------------------- parsing undoes writing

  function Numbers(ids: seq<int>): Json {
    Arr(seq(|ids|, i requires 0 <= i < |ids| => Num(ids[i])))
  }

  function Strings(texts: seq<string>): Json {
    Arr(seq(|texts|, i requires 0 <= i < |texts| => Str(texts[i])))
  }

  function MaybeNumber(n: Option<int>): Json {
    if n.Some? then Num(n.value) else Null
  }

  /** The body of an update, with its documents given as JSON objects. */
  function BodyOf(u: Update, document: Json): map<string, Json> {
    match u
    case AssignUuid(uuid) => map["uuid" := Str(uuid)]
    case UpgradeFormatVersion(v) => map["format-version" := Num(v)]
    case SetLocation(l) => map["location" := Str(l)]
    case AddSchema(_, last) => map["schema" := document, "last-column-id" := MaybeNumber(last)]
    case SetCurrentSchema(id) => map["schema-id" := Num(id)]
    case RemoveSchemas(ids) => map["schema-ids" := Numbers(ids)]
    case AddSpec(_) => map["spec" := document]
    case SetDefaultSpec(id) => map["spec-id" := Num(id)]
    case RemovePartitionSpecs(ids) => map["spec-ids" := Numbers(ids)]
    case AddSortOrder(_) => map["sort-order" := document]
    case SetDefaultSortOrder(id) => map["sort-order-id" := Num(id)]
    case AddSnapshot(_) => map["snapshot" := document]
    case SetSnapshotRef(name, kind, id, ret) =>
      map["ref-name" := Str(name), "type" := Str(kind), "snapshot-id" := Num(id),
          "max-ref-age-ms" := MaybeNumber(ret.maxRefAgeMs), "max-snapshot-age-ms" := MaybeNumber(ret.maxSnapshotAgeMs),
          "min-snapshots-to-keep" := MaybeNumber(ret.minSnapshotsToKeep)]
    case RemoveSnapshots(ids) => map["snapshot-ids" := Numbers(ids)]
    case RemoveSnapshotRef(name) => map["ref-name" := Str(name)]
    case SetStatistics(id, _) => map["snapshot-id" := MaybeNumber(id), "statistics" := document]
    case RemoveStatistics(id) => map["snapshot-id" := Num(id)]
    case SetPartitionStatistics(_) => map["partition-statistics" := document]
    case RemovePartitionStatistics(id) => map["snapshot-id" := Num(id)]
    case SetProperties(updates) => map["updates" := Obj(map k | k in updates :: Str(updates[k]))]
    case RemoveProperties(removals) => map["removals" := Strings(removals)]
    case AddEncryptionKey(_) => map["encryption-key" := document]
    case RemoveEncryptionKey(id) => map["key-id" := Str(id)]
  }

  /** The update's document, if it has one, is what the engine sees of this JSON value. */
  predicate DocumentIs(u: Update, document: Json) {
    (document.Null? || document.Obj?)
    && match u
       case AddSchema(doc, _) => doc == if document.Obj? then Some(SchemaView(document.members)) else None
       case AddSpec(doc) => doc == if document.Obj? then Some(SpecView(document.members)) else None
       case AddSortOrder(doc) => doc == if document.Obj? then Some(SortOrderView(document.members)) else None
       case AddSnapshot(doc) => doc == if document.Obj? then Some(SnapshotView(document.members)) else None
       case SetStatistics(_, doc) => doc == if document.Obj? then Some(StatView(document.members)) else None
       case SetPartitionStatistics(doc) => doc == if document.Obj? then Some(StatView(document.members)) else None
       case AddEncryptionKey(doc) => doc == if document.Obj? then Some(KeyView(document.members)) else None
       case _ => true
  }

  predicate MaybeFits(n: Option<int>) {
    n.Some? ==> FitsInt64(n.value)
  }

  /** The update's own integers are 64-bit. */
  predicate IntegersFit(u: Update) {
    match u
    case UpgradeFormatVersion(v) => FitsInt64(v)
    case AddSchema(_, last) => MaybeFits(last)
    case SetCurrentSchema(id) => FitsInt64(id)
    case RemoveSchemas(ids) => forall i :: 0 <= i < |ids| ==> FitsInt64(ids[i])
    case SetDefaultSpec(id) => FitsInt64(id)
    case RemovePartitionSpecs(ids) => forall i :: 0 <= i < |ids| ==> FitsInt64(ids[i])
    case SetDefaultSortOrder(id) => FitsInt64(id)
    case SetSnapshotRef(_, _, id, ret) =>
      FitsInt64(id) && MaybeFits(ret.maxRefAgeMs) && MaybeFits(ret.maxSnapshotAgeMs) && MaybeFits(ret.minSnapshotsToKeep)
    case RemoveSnapshots(ids) => forall i :: 0 <= i < |ids| ==> FitsInt64(ids[i])
    case SetStatistics(id, _) => MaybeFits(id)
    case RemoveStatistics(id) => FitsInt64(id)
    case RemovePartitionStatistics(id) => FitsInt64(id)
    case _ => true
  }

  lemma ListsParseBack(ids: seq<int>, texts: seq<string>, updates: map<string, string>)
    ensures (forall i :: 0 <= i < |ids| ==> FitsInt64(ids[i])) ==> DecodeInts(Numbers(ids)) == Some(ids)
    ensures DecodeStrings(Strings(texts)) == Some(texts)
    ensures DecodeStringMap(Obj(map k | k in updates :: Str(updates[k]))) == Some(updates)
  {
    if forall i :: 0 <= i < |ids| ==> FitsInt64(ids[i]) {
      assert DecodeInts(Numbers(ids)).value == ids;
    }
    assert DecodeStrings(Strings(texts)).value == texts;
    assert DecodeStringMap(Obj(map k | k in updates :: Str(updates[k]))).value == updates;
  }

  predicate HasDocument(u: Update) {
    u.AddSchema? || u.AddSpec? || u.AddSortOrder? || u.AddSnapshot? || u.SetStatistics? || u.SetPartitionStatistics?
    || u.AddEncryptionKey?
  }

  predicate HasList(u: Update) {
    u.RemoveSchemas? || u.RemovePartitionSpecs? || u.RemoveSnapshots? || u.RemoveProperties? || u.SetProperties?
  }

  lemma EntriesParseBack(u: Update, document: Json)
    requires (u.AddSchema? || u.AddSpec? || u.AddSortOrder?) && IntegersFit(u) && DocumentIs(u, document)
    ensures DecodeBody(ActionOf(u), BodyOf(u, document)) == Some(u)
  {
    hide SchemaView, SpecView, SortOrderView, SnapshotView, StatView, KeyView, FitsInt64, DecodeSnapshotBody;
  }

  lemma DocumentsParseBack(u: Update, document: Json)
    requires HasDocument(u) && IntegersFit(u) && DocumentIs(u, document)
    ensures DecodeBody(ActionOf(u), BodyOf(u, document)) == Some(u)
  {
    hide SchemaView, SpecView, SortOrderView, SnapshotView, StatView, KeyView, FitsInt64, DecodeEntryBody;
    if u.AddSchema? || u.AddSpec? || u.AddSortOrder? { EntriesParseBack(u, document); }
  }

  lemma EntryRemovalsParseBack(u: Update)
    requires (u.RemoveSchemas? || u.RemovePartitionSpecs?) && IntegersFit(u)
    ensures DecodeBody(ActionOf(u), BodyOf(u, Null)) == Some(u)
  {
    hide DecodeInts, DecodeStrings, DecodeStringMap, Numbers, Strings, DecodeInt, DecodeString, DecodeIntPointer,
      DecodeObject, Viewed, SchemaView, SpecView, SortOrderView, SnapshotView, StatView, KeyView, FitsInt64, DecodeSnapshotBody;
    match u {
      case RemoveSchemas(ids) => ListsParseBack(ids, [], map[]);
      case RemovePartitionSpecs(ids) => ListsParseBack(ids, [], map[]);
    }
  }

  lemma ListUpdatesParseBack(u: Update)
    requires HasList(u) && IntegersFit(u)
    ensures DecodeBody(ActionOf(u), BodyOf(u, Null)) == Some(u)
  {
    hide DecodeInts, DecodeStrings, DecodeStringMap, Numbers, Strings, DecodeInt, DecodeString, DecodeIntPointer,
      DecodeObject, Viewed, SchemaView, SpecView, SortOrderView, SnapshotView, StatView, KeyView, FitsInt64, DecodeEntryBody;
    match u {
      case RemoveSnapshots(ids) => ListsParseBack(ids, [], map[]);
      case RemoveProperties(removals) => ListsParseBack([], removals, map[]);
      case SetProperties(updates) => ListsParseBack([], [], updates);
      case _ => EntryRemovalsParseBack(u);
    }
  }

  lemma ReferenceParsesBack(u: Update)
    requires u.SetSnapshotRef? && IntegersFit(u)
    ensures DecodeBody(ActionOf(u), BodyOf(u, Null)) == Some(u)
  {
    hide FitsInt64;
    var o := BodyOf(u, Null);
    assert Member(o, "ref-name") == Str(u.refName) && Member(o, "type") == Str(u.kind) && Member(o, "snapshot-id") == Num(u.snapshotId);
    assert Member(o, "max-ref-age-ms") == MaybeNumber(u.retention.maxRefAgeMs);
    assert Member(o, "max-snapshot-age-ms") == MaybeNumber(u.retention.maxSnapshotAgeMs);
    assert Member(o, "min-snapshots-to-keep") == MaybeNumber(u.retention.minSnapshotsToKeep);
  }

  lemma ScalarsParseBack(u: Update)
    requires !HasDocument(u) && !HasList(u) && !u.SetSnapshotRef? && IntegersFit(u)
    ensures DecodeBody(ActionOf(u), BodyOf(u, Null)) == Some(u)
  {
    hide FitsInt64;
  }

  /** Every update with 64-bit integers parses back from its body. */
  lemma ParsesBack(u: Update, document: Json)
    requires IntegersFit(u) && DocumentIs(u, document)
    ensures ParseUpdate(RawUpdate(ActionOf(u), BodyOf(u, document))) == Parsed(u)
  {
    hide DecodeBody, IntegersFit, DocumentIs;
    if HasDocument(u) {
      DocumentsParseBack(u, document);
    } else {
      assert BodyOf(u, document) == BodyOf(u, Null);
      if HasList(u) { ListUpdatesParseBack(u); }
      else if u.SetSnapshotRef? { ReferenceParsesBack(u); }
      else { ScalarsParseBack(u); }
    }
  }
}
