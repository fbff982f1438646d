/** Schemas, partition specs and sort orders: three lists with a pointer, handled alike. */
module Families {
  import opened Options
  import opened JsonValues
  import opened Binary64
  import opened TableMetadata
  import opened Updates
  import opened Handlers
  import opened StableSort
  import opened ItemLemmas
  import opened SnapshotIntegrity

  datatype Kind = SchemaKind | SpecKind | SortOrderKind

  function FamilyOf(m: Metadata, kind: Kind): Family {
    match kind
    case SchemaKind => m.schemas
    case SpecKind => m.specs
    case SortOrderKind => m.sortOrders
  }

  /** What an update means for one family. */
  datatype Op = AddOp(doc: Option<FamilyDoc>, hint: Option<int>) | PointOp(target: int) | RemoveOp(ids: seq<int>) | NoOp

  function OpOf(u: Update, kind: Kind): Op {
    match (kind, u)
    case (SchemaKind, AddSchema(doc, hint)) => AddOp(doc, hint)
    case (SchemaKind, SetCurrentSchema(id)) => PointOp(id)
    case (SchemaKind, RemoveSchemas(ids)) => RemoveOp(ids)
    case (SpecKind, AddSpec(doc)) => AddOp(doc, None)
    case (SpecKind, SetDefaultSpec(id)) => PointOp(id)
    case (SpecKind, RemovePartitionSpecs(ids)) => RemoveOp(ids)
    case (SortOrderKind, AddSortOrder(doc)) => AddOp(doc, None)
    case (SortOrderKind, SetDefaultSortOrder(id)) => PointOp(id)
    case _ => NoOp
  }

  function StepFamily(f: Family, op: Op): Step<Family> {
    match op
    case AddOp(doc, hint) => AddEntry(f, doc, hint)
    case PointOp(target) => SetPointer(f, target)
    case RemoveOp(ids) => RemoveEntries(f, ids)
    case NoOp => Step(f, None)
  }

  lemma UpdateOnFamily(m: Metadata, u: Update, kind: Kind)
    ensures FamilyOf(ApplyUpdate(m, u).state, kind) == StepFamily(FamilyOf(m, kind), OpOf(u, kind)).state
    ensures !OpOf(u, kind).NoOp? ==> ApplyUpdate(m, u).error == StepFamily(FamilyOf(m, kind), OpOf(u, kind)).error
  {
  }

  // ---------------------------------------------------------------- distinct ids and pointers

  ghost predicate Distinct(f: Family) {
    UniqueKeys(f.entries.Or([]))
  }

  /** The selected entry is present. */
  ghost predicate PointsInto(f: Family) {
    f.pointer.Is? && HasKey(f.entries.Or([]), f.pointer.value)
  }

  lemma StepKeepsFamily(f: Family, op: Op)
    ensures Distinct(f) ==> Distinct(StepFamily(f, op).state)
    ensures PointsInto(f) ==> PointsInto(StepFamily(f, op).state)
    ensures PointsInto(f) ==> StepFamily(f, op).error != Some(CannotRemoveAll)
  {
    var items := f.entries.Or([]);
    match op {
      case AddOp(doc, hint) =>
        if AddEntry(f, doc, hint).error.None? {
          var entry := Object(doc.value.(key := Some(AssignedId(items, doc.value))));
          if Distinct(f) { UniqueGrows(items, entry); }
          if f.pointer.Is? { HasKeyGrows(items, entry, f.pointer.value); }
        }
      case RemoveOp(ids) =>
        if Distinct(f) { WithoutUnique(items, ToSet(ids)); }
        if f.pointer.Is? { WithoutKeys(items, ToSet(ids), f.pointer.value); }
      case _ =>
    }
  }

  /** Any list of updates, even one that fails midway, keeps ids distinct and a good pointer good. */
  lemma {:induction false} RunKeepsFamily(m: Metadata, us: seq<Update>, kind: Kind)
    ensures Distinct(FamilyOf(m, kind)) ==> Distinct(FamilyOf(Run(m, us).meta, kind))
    ensures PointsInto(FamilyOf(m, kind)) ==> PointsInto(FamilyOf(Run(m, us).meta, kind))
    decreases |us|
  {
    hide ApplyUpdate, OpOf;
    if us != [] {
      UpdateOnFamily(m, us[0], kind);
      StepKeepsFamily(FamilyOf(m, kind), OpOf(us[0], kind));
      var s := ApplyUpdate(m, us[0]);
      if s.error.None? { RunKeepsFamily(s.state, us[1..], kind); }
    }
  }

  /** The action that removes entries of a kind; sort orders are never removed. */
  predicate RemovesFrom(action: Action, kind: Kind) {
    match kind
    case SchemaKind => action == RemoveSchemasAction
    case SpecKind => action == RemovePartitionSpecsAction
    case SortOrderKind => false
  }

  predicate FailsToRemoveAll(o: Outcome) {
    o.failure.Some? && o.failure.value.Rejected? && o.failure.value.error == CannotRemoveAll
  }

  /** While a kind's selected entry is present, removing entries of that kind never fails for
      removing them all. The error comes up nowhere else than in the two removals. */
  lemma {:induction false} CannotRemoveAllUnreachable(m: Metadata, us: seq<Update>, kind: Kind)
    requires PointsInto(FamilyOf(m, kind))
    ensures FailsToRemoveAll(Run(m, us)) ==>
              var action := Run(m, us).failure.value.action;
              !RemovesFrom(action, kind) && (RemovesFrom(action, SchemaKind) || RemovesFrom(action, SpecKind))
    decreases |us|
  {
    hide ApplyUpdate, OpOf, RemovesFrom, PointsInto;
    if us != [] {
      UpdateOnFamily(m, us[0], kind);
      StepKeepsFamily(FamilyOf(m, kind), OpOf(us[0], kind));
      OnlyRemovalsRemoveAll(m, us[0]);
      RemovalOps(us[0], kind);
      var s := ApplyUpdate(m, us[0]);
      if s.error.None? { CannotRemoveAllUnreachable(s.state, us[1..], kind); }
    }
  }

  lemma RemovalOps(u: Update, kind: Kind)
    ensures RemovesFrom(ActionOf(u), kind) <==> OpOf(u, kind).RemoveOp?
  {
  }

  lemma OnlyRemovalsRemoveAll(m: Metadata, u: Update)
    ensures ApplyUpdate(m, u).error == Some(CannotRemoveAll) ==>
              RemovesFrom(ActionOf(u), SchemaKind) || RemovesFrom(ActionOf(u), SpecKind)
  {
    hide HasKey, Without, RefersInto;
  }

  /** With the current schema and the default spec present, no request fails so. */
  lemma NeverRemovesAll(m: Metadata, us: seq<Update>)
    requires PointsInto(m.schemas) && PointsInto(m.specs)
    ensures !FailsToRemoveAll(Run(m, us))
  {
    hide Run, RemovesFrom, PointsInto;
    CannotRemoveAllUnreachable(m, us, SchemaKind);
    CannotRemoveAllUnreachable(m, us, SpecKind);
  }

  /** A new table selects id 0 everywhere, so its selections are valid exactly when the request's
      schema, spec and sort order have id 0. */
  lemma InitialSelections(uuid: string, location: string, now: int, schema: map<string, Json>,
                          spec: Json, order: Json, properties: Json)
    ensures var m := InitialMetadata(uuid, location, now, schema, spec, order, properties);
            && (PointsInto(m.schemas) <==> ReadInt(schema, "schema-id") == Some(0))
            && (PointsInto(m.specs) <==> spec.Obj? && ReadInt(spec.members, "spec-id") == Some(0))
            && (PointsInto(m.sortOrders) <==> order.Obj? && ReadInt(order.members, "order-id") == Some(0))
  {
    hide ReadInt, ReadFieldIds;
    var m := InitialMetadata(uuid, location, now, schema, spec, order, properties);
    OnlyEntry(m.schemas);
    OnlyEntry(m.specs);
    OnlyEntry(m.sortOrders);
  }

  lemma OnlyEntry(f: Family)
    requires f.entries.Is? && |f.entries.value| == 1 && f.pointer == Is(0)
    ensures PointsInto(f) <==> f.entries.value[0].Key() == Some(0)
  {
  }

  // ---------------------------------------------------------------- high-water marks

  ghost predicate FieldsBounded(fields: FieldIds, bound: int) {
    fields.Some? ==>
      forall i :: 0 <= i < |fields.value| && fields.value[i].Some? ==>
        Exact(fields.value[i].value) && fields.value[i].value <= bound
  }

  /** last-column-id (last-partition-id) bounds every top-level field id of every entry. */
  ghost predicate ColumnsBounded(f: Family) {
    ItemsBounded(f.entries.Or([]), f.lastFieldId.Or(0))
  }

  ghost predicate ItemsBounded(items: seq<FamilyItem>, bound: int) {
    forall x :: x in items && x.Object? ==> FieldsBounded(x.doc.detail, bound)
  }

  lemma ItemsBoundedGrows(items: seq<FamilyItem>, x: FamilyItem, a: int, b: int)
    requires ItemsBounded(items, a) && a <= b
    requires x.Object? ==> FieldsBounded(x.doc.detail, b)
    ensures ItemsBounded(items, b) && ItemsBounded(items + [x], b)
  {
    forall y | y in items && y.Object? ensures FieldsBounded(y.doc.detail, b) {
      assert FieldsBounded(y.doc.detail, a);
    }
  }

  lemma OwnMaximumBounds(fields: FieldIds, bound: int)
    requires fields.Some? ==> FieldIdsExact(fields.value) && MaxFieldId(fields.value) <= bound
    ensures FieldsBounded(fields, bound)
  {
    if fields.Some? {
      forall i | 0 <= i < |fields.value| && fields.value[i].Some?
        ensures fields.value[i].value <= MaxFieldId(fields.value)
      {
        MaxFieldIdBounds(fields.value, i);
      }
    }
  }

  /** The mark reads back at or above every value below it that survives. */
  ghost predicate MarkFits(f: Family) {
    f.lastFieldId.Is? ==> f.lastFieldId.value <= LARGEST_READABLE
  }

  ghost predicate HintFits(op: Op) {
    op.AddOp? && op.hint.Some? ==> op.hint.value <= LARGEST_READABLE
  }

  lemma ExactFits(n: int)
    requires Exact(n)
    ensures MIN_INT64 <= n <= LARGEST_READABLE
  {
    hide Round;
    ReadableExactly(n);
  }

  lemma AddKeepsColumns(f: Family, doc: FamilyDoc, hint: Option<int>)
    requires ColumnsBounded(f) && FamilyReadFromJson(doc)
    ensures ColumnsBounded(AddEntry(f, Some(doc), hint).state)
  {
    hide Exact;
    var items, bound := f.entries.Or([]), RaiseByHint(RaiseByFields(f.lastFieldId, doc.detail), hint).Or(0);
    RaiseRaises(f.lastFieldId, doc.detail, hint);
    OwnMaximumBounds(doc.detail, bound);
    var id := AssignedId(items, doc);
    if !HasKey(items, id) {
      ItemsBoundedGrows(items, Object(doc.(key := Some(id))), f.lastFieldId.Or(0), bound);
    }
  }

  lemma RaiseRaises(slot: Slot<int>, fields: FieldIds, hint: Option<int>)
    ensures var raised := RaiseByHint(RaiseByFields(slot, fields), hint);
            && slot.Or(0) <= raised.Or(0)
            && (fields.Some? ==> MaxFieldId(fields.value) <= raised.Or(0))
            && (hint.Some? ==> hint.value <= raised.Or(0))
            && (raised == slot || (fields.Some? && raised == Is(MaxFieldId(fields.value)))
                || (hint.Some? && raised == Is(hint.value)))
  {
  }

  /** A step never lowers the mark; the new mark fits exactly when the old one and the hint do. */
  lemma StepOnMark(f: Family, op: Op)
    requires op.AddOp? && op.doc.Some? ==> FamilyReadFromJson(op.doc.value)
    ensures f.lastFieldId.Or(0) <= StepFamily(f, op).state.lastFieldId.Or(0)
    ensures StepFamily(f, op).error.None? ==> (MarkFits(StepFamily(f, op).state) <==> MarkFits(f) && HintFits(op))
    ensures MarkFits(StepFamily(f, op).state) ==> MarkFits(f)
  {
    hide Exact, ReadInt64;
    if op.AddOp? && op.doc.Some? {
      RaiseRaises(f.lastFieldId, op.doc.value.detail, op.hint);
      if op.doc.value.detail.Some? {
        MaxFieldIdExact(op.doc.value.detail.value);
        ExactFits(MaxFieldId(op.doc.value.detail.value));
      }
    }
  }

  lemma StepKeepsColumns(f: Family, op: Op)
    requires ColumnsBounded(f)
    requires op.AddOp? && op.doc.Some? ==> FamilyReadFromJson(op.doc.value)
    ensures ColumnsBounded(StepFamily(f, op).state)
  {
    match op {
      case AddOp(doc, hint) =>
        if doc.Some? { AddKeepsColumns(f, doc.value, hint); }
      case RemoveOp(ids) =>
        var items := f.entries.Or([]);
        forall x ensures x in Without(items, ToSet(ids)) ==> x in items { WithoutMembers(items, ToSet(ids), x); }
      case _ =>
    }
  }

  lemma {:induction false} MaxFieldIdExact(ids: seq<Option<int>>)
    requires FieldIdsExact(ids)
    ensures Exact(MaxFieldId(ids))
  {
    hide Exact;
    SmallIsExact(0);
    if ids != [] { MaxFieldIdExact(ids[..|ids| - 1]); }
  }

  /** Within any list of updates, even one that fails, the mark goes on bounding the columns. */
  lemma {:induction false} RunKeepsColumns(m: Metadata, us: seq<Update>, kind: Kind)
    requires ColumnsBounded(FamilyOf(m, kind)) && forall u :: u in us ==> ReadFromJson(u)
    ensures ColumnsBounded(FamilyOf(Run(m, us).meta, kind))
    decreases |us|
  {
    hide ApplyUpdate, Exact, ColumnsBounded;
    if us != [] {
      assert us[0] in us;
      UpdateOnFamily(m, us[0], kind);
      StepKeepsColumns(FamilyOf(m, kind), OpOf(us[0], kind));
      var s := ApplyUpdate(m, us[0]);
      if s.error.None? { RunKeepsColumns(s.state, us[1..], kind); }
    }
  }

  ghost predicate HintsFit(us: seq<Update>, kind: Kind) {
    forall u :: u in us ==> HintFits(OpOf(u, kind))
  }

  /** The mark a successful list of updates ends with fits exactly when the first mark and all hints do. */
  lemma {:induction false} RunOnMark(m: Metadata, us: seq<Update>, kind: Kind)
    requires forall u :: u in us ==> ReadFromJson(u)
    ensures FamilyOf(m, kind).lastFieldId.Or(0) <= FamilyOf(Run(m, us).meta, kind).lastFieldId.Or(0)
    ensures Run(m, us).failure.None? ==>
              (MarkFits(FamilyOf(Run(m, us).meta, kind)) <==> MarkFits(FamilyOf(m, kind)) && HintsFit(us, kind))
    decreases |us|
  {
    hide ApplyUpdate, Exact, HintFits, MarkFits, OpOf;
    if us != [] {
      assert us[0] in us && forall u :: u in us <==> u == us[0] || u in us[1..];
      UpdateOnFamily(m, us[0], kind);
      JsonOp(us[0], kind);
      StepOnMark(FamilyOf(m, kind), OpOf(us[0], kind));
      NoOpFits(us[0], kind);
      var s := ApplyUpdate(m, us[0]);
      if s.error.None? { RunOnMark(s.state, us[1..], kind); }
    }
  }

  lemma JsonOp(u: Update, kind: Kind)
    requires ReadFromJson(u)
    ensures OpOf(u, kind).AddOp? && OpOf(u, kind).doc.Some? ==> FamilyReadFromJson(OpOf(u, kind).doc.value)
  {
  }

  lemma NoOpFits(u: Update, kind: Kind)
    ensures OpOf(u, kind).NoOp? ==> HintFits(OpOf(u, kind))
  {
  }

  /** Specs and sort orders come without hints. */
  lemma OnlySchemasHaveHints(us: seq<Update>, kind: Kind)
    requires kind != SchemaKind
    ensures HintsFit(us, kind)
  {
  }

  // ---------------------------------------------------------------- marks across the round trip

  ghost predicate ExactMark(f: Family) {
    f.lastFieldId.Is? ==> Exact(f.lastFieldId.value)
  }

  lemma LoadedMark(f: Family)
    ensures ExactMark(ReloadFamily(f)) && MarkFits(ReloadFamily(f))
  {
    hide Exact;
    if f.lastFieldId.Is? {
      ReadIsExact(f.lastFieldId.value);
      ExactFits(ReadInt64(f.lastFieldId.value));
    }
  }

  /** A mark grown from an exact one reads back at or above it exactly when it fits, or when the old
      mark was the smallest int64 anyway. */
  lemma MarkReadBack(f: Family, g: Family)
    requires ExactMark(f) && f.lastFieldId.Or(0) <= g.lastFieldId.Or(0)
    ensures f.lastFieldId.Or(0) <= ReloadFamily(g).lastFieldId.Or(0)
       <==> MarkFits(g) || f.lastFieldId == Is(MIN_INT64)
  {
    hide Round;
    SmallIsExact(0);
    ExactFits(f.lastFieldId.Or(0));
    if g.lastFieldId.Is? {
      ReadableExactly(g.lastFieldId.value);
      if MarkFits(g) { ReadIsMonotone(f.lastFieldId.Or(0), g.lastFieldId.value); }
    }
  }

  /** The bound survives the round trip exactly when the mark fits, or no field id is above the
      smallest int64. */
  lemma ReloadOnColumns(f: Family)
    requires ColumnsBounded(f)
    ensures ColumnsBounded(ReloadFamily(f)) <==> MarkFits(f) || ItemsBounded(f.entries.Or([]), MIN_INT64)
  {
    hide ItemsBounded, ReadInt64;
    var mark, again := f.lastFieldId.Or(0), ReloadFamily(f).lastFieldId.Or(0);
    ReloadedItemsBounded(f.entries, mark, again);
    SmallSurvives(0);
    if f.lastFieldId.Is? { ReadableExactly(mark); }
    if MarkFits(f) {
      forall x: int | Exact(x) && x <= mark ensures x <= again {
        if f.lastFieldId.Is? { ReadIsMonotone(x, mark); }
      }
      BoundedUpTo(f.entries.Or([]), mark, again);
    }
  }

  lemma BoundedUpTo(items: seq<FamilyItem>, a: int, b: int)
    requires ItemsBounded(items, a) && forall x: int :: Exact(x) && x <= a ==> x <= b
    ensures ItemsBounded(items, b)
  {
    hide Exact;
    forall x | x in items && x.Object? ensures FieldsBounded(x.doc.detail, b) {
      assert FieldsBounded(x.doc.detail, a);
    }
  }

  /** Bounded field ids are exact, so the round trip leaves them alone. */
  lemma ReloadedItemsBounded(s: Slot<seq<FamilyItem>>, bound: int, other: int)
    requires ItemsBounded(s.Or([]), bound)
    ensures ItemsBounded(ReloadList(s, ReloadFieldIds).Or([]), other) <==> ItemsBounded(s.Or([]), other)
  {
    var items, again := s.Or([]), ReloadList(s, ReloadFieldIds).Or([]);
    forall i | 0 <= i < |items| && items[i].Object? ensures again[i].doc.detail == items[i].doc.detail {
      assert items[i] in items;
      FieldsReadBack(items[i].doc.detail, bound);
    }
    forall i | 0 <= i < |items| ensures items[i] in items && again[i] in again && (again[i].Object? <==> items[i].Object?) {
    }
    if ItemsBounded(items, other) {
      forall x | x in again && x.Object? ensures FieldsBounded(x.doc.detail, other) {
        var i :| 0 <= i < |again| && again[i] == x;
      }
    }
    if ItemsBounded(again, other) {
      forall x | x in items && x.Object? ensures FieldsBounded(x.doc.detail, other) {
        var i :| 0 <= i < |items| && items[i] == x;
      }
    }
  }

  lemma FieldsReadBack(fields: FieldIds, bound: int)
    requires FieldsBounded(fields, bound)
    ensures ReloadFieldIds(fields) == fields
  {
    if fields.Some? { assert ReloadFieldIds(fields).value == fields.value; }
  }

  /** The largest hint a request can carry is stored as it is and read back as the smallest int64. */
  lemma LargestHintIsLost(f: Family, doc: FamilyDoc)
    requires f.lastFieldId.Or(0) < TWO63 - 1 && FamilyReadFromJson(doc)
    requires AddEntry(f, Some(doc), Some(TWO63 - 1)).error.None?
    ensures AddEntry(f, Some(doc), Some(TWO63 - 1)).state.lastFieldId == Is(TWO63 - 1)
    ensures ReloadFamily(AddEntry(f, Some(doc), Some(TWO63 - 1)).state).lastFieldId == Is(MIN_INT64)
  {
    hide Exact, ReadInt64;
    ReadableExactly(TWO63 - 1);
    if doc.detail.Some? {
      MaxFieldIdExact(doc.detail.value);
      ExactFits(MaxFieldId(doc.detail.value));
    }
  }

  // ---------------------------------------------------------------- ids across the round trip

  predicate LacksId(op: Op) {
    op.AddOp? && op.doc.Some? && op.doc.value.key.None?
  }

  /** How many ids of a kind the updates leave to be assigned. */
  function Lacking(us: seq<Update>, kind: Kind): nat {
    if us == [] then 0 else (if LacksId(OpOf(us[0], kind)) then 1 else 0) + Lacking(us[1..], kind)
  }

  /** Either no id is left to be assigned, or the largest id and the ids given by the request leave
      room below 2^53 for those that are. */
  ghost predicate Room(items: seq<FamilyItem>, us: seq<Update>, kind: Kind) {
    Lacking(us, kind) == 0 || RoomFor(items, us, kind, Lacking(us, kind))
  }

  ghost predicate RoomFor(items: seq<FamilyItem>, us: seq<Update>, kind: Kind, n: nat) {
    && Clear(items, n)
    && forall u :: u in us && GivesId(OpOf(u, kind)) ==> OpOf(u, kind).doc.value.key.value + n <= TWO53
  }

  predicate GivesId(op: Op) {
    op.AddOp? && op.doc.Some? && op.doc.value.key.Some?
  }

  /** The bound on ids left over after an operation. */
  ghost predicate Clear(items: seq<FamilyItem>, rest: int) {
    MaxKey(items) + rest <= TWO53
  }

  function Needs(op: Op): nat {
    if LacksId(op) then 1 else 0
  }

  lemma AddKeepsExactIds(f: Family, doc: FamilyDoc, hint: Option<int>, rest: nat)
    requires KeysExact(f.entries.Or([])) && FamilyReadFromJson(doc)
    requires doc.key.None? ==> Clear(f.entries.Or([]), rest + 1)
    ensures var g := AddEntry(f, Some(doc), hint).state.entries.Or([]);
            && KeysExact(g)
            && (Clear(f.entries.Or([]), rest) && (doc.key.Some? ==> doc.key.value + rest <= TWO53) ==> Clear(g, rest))
  {
    hide Exact, Wrap64, HasKey;
    var items := f.entries.Or([]);
    MaxKeyBounds(items, 0);
    if doc.key.None? {
      SmallIsExact(MaxKey(items) + 1);
      MissingIdIsAssigned(f, doc, hint);
    } else {
      MaxKeyGrows(items, Object(doc));
    }
  }

  lemma RemoveKeepsExactIds(items: seq<FamilyItem>, gone: set<int>)
    requires KeysExact(items)
    ensures KeysExact(Without(items, gone)) && MaxKey(Without(items, gone)) <= MaxKey(items)
  {
    var kept := Without(items, gone);
    forall x ensures x in kept ==> x in items { WithoutMembers(items, gone, x); }
    ExactByMembers(items, kept);
    MaxKeyBounds(kept, 0);
    WithoutKeys(items, gone, MaxKey(kept));
    MaxKeyBounds(items, MaxKey(kept));
  }

  lemma StepKeepsExactIds(f: Family, op: Op, rest: nat)
    requires KeysExact(f.entries.Or([]))
    requires op.AddOp? && op.doc.Some? ==> FamilyReadFromJson(op.doc.value)
    requires LacksId(op) ==> Clear(f.entries.Or([]), rest + 1)
    ensures KeysExact(StepFamily(f, op).state.entries.Or([]))
    ensures Clear(f.entries.Or([]), rest + Needs(op)) && (GivesId(op) ==> op.doc.value.key.value + rest <= TWO53)
            ==> Clear(StepFamily(f, op).state.entries.Or([]), rest)
  {
    match op {
      case AddOp(doc, hint) => if doc.Some? { AddKeepsExactIds(f, doc.value, hint, rest); }
      case RemoveOp(ids) => RemoveKeepsExactIds(f.entries.Or([]), ToSet(ids));
      case _ =>
    }
  }

  lemma ExactByMembers(list: seq<FamilyItem>, part: seq<FamilyItem>)
    requires KeysExact(list) && forall x :: x in part ==> x in list
    ensures KeysExact(part)
  {
    forall i | 0 <= i < |part| && part[i].Key().Some? ensures Exact(part[i].Key().value) {
      assert part[i] in list;
      var j :| 0 <= j < |list| && list[j] == part[i];
    }
  }

  /** With room, ids stay exact, so storing and loading merges no two of them. */
  lemma {:induction false} RunKeepsExactIds(m: Metadata, us: seq<Update>, kind: Kind)
    requires KeysExact(FamilyOf(m, kind).entries.Or([])) && Room(FamilyOf(m, kind).entries.Or([]), us, kind)
    requires forall u :: u in us ==> ReadFromJson(u)
    ensures KeysExact(FamilyOf(Run(m, us).meta, kind).entries.Or([]))
    decreases |us|
  {
    hide ApplyUpdate, Exact, OpOf, Clear, LacksId, GivesId;
    if us != [] {
      var f, op, rest := FamilyOf(m, kind), OpOf(us[0], kind), Lacking(us[1..], kind);
      assert us[0] in us && forall u :: u in us[1..] ==> u in us;
      UpdateOnFamily(m, us[0], kind);
      JsonOp(us[0], kind);
      if RoomFor(f.entries.Or([]), us, kind, Lacking(us, kind)) { LessRoom(f.entries.Or([]), us, kind, op); }
      StepKeepsExactIds(f, op, rest);
      var s := ApplyUpdate(m, us[0]);
      if s.error.None? { RunKeepsExactIds(s.state, us[1..], kind); }
    }
  }

  lemma LessRoom(items: seq<FamilyItem>, us: seq<Update>, kind: Kind, op: Op)
    requires us != [] && op == OpOf(us[0], kind) && RoomFor(items, us, kind, Lacking(us, kind))
    ensures Clear(items, Lacking(us[1..], kind) + Needs(op))
    ensures forall u :: u in us && GivesId(OpOf(u, kind)) ==> OpOf(u, kind).doc.value.key.value + Lacking(us[1..], kind) <= TWO53
    ensures GivesId(op) ==> op.doc.value.key.value + Lacking(us[1..], kind) <= TWO53
  {
    hide OpOf;
    assert us[0] in us;
  }

  /** The count does not depend on the order: only the additions matter, and they are one rank. */
  lemma {:induction false} LackingOfRank(us: seq<Update>, kind: Kind)
    ensures Lacking(us, kind) == Lacking(OfRank(us, AdditionRank(kind)), kind)
  {
    hide OpOf, Rank, AdditionRank;
    if us != [] {
      LackingOfRank(us[1..], kind);
      AdditionsHaveRank(us[0], kind);
      var rest := OfRank(us[1..], AdditionRank(kind));
      assert Rank(us[0]) == AdditionRank(kind) ==> ([us[0]] + rest)[1..] == rest;
      assert [] + rest == rest;
    }
  }

  /** Additions of a kind are one rank, selections the next. */
  function AdditionRank(kind: Kind): (r: nat)
    ensures r + 2 <= RANKS
  {
    match kind
    case SchemaKind => Position(AddSchemaAction)
    case SpecKind => Position(AddSpecAction)
    case SortOrderKind => Position(AddSortOrderAction)
  }

  lemma AdditionsHaveRank(u: Update, kind: Kind)
    ensures LacksId(OpOf(u, kind)) ==> Rank(u) == AdditionRank(kind)
  {
  }

  lemma ReloadKeepsFamily(f: Family)
    requires KeysExact(f.entries.Or([]))
    ensures KeysExact(ReloadFamily(f).entries.Or([]))
    ensures Distinct(f) ==> Distinct(ReloadFamily(f))
  {
    ReloadListKeys(f.entries, ReloadFieldIds);
    SameKeys(f.entries.Or([]), ReloadFamily(f).entries.Or([]));
  }

  /** A valid selection is still valid after the round trip, whatever the ids: the selected id and
      the entry's id are read back alike. */
  lemma ReloadKeepsSelection(f: Family)
    requires PointsInto(f)
    ensures PointsInto(ReloadFamily(f))
  {
    hide ReadInt64;
    var items, again := f.entries.Or([]), ReloadFamily(f).entries.Or([]);
    var i :| 0 <= i < |items| && items[i].Key() == Some(f.pointer.value);
    assert again[i].Key() == Some(ReadInt64(f.pointer.value));
  }

  /** Without room it can merge them: an id assigned next to 2^53 reads back as 2^53. */
  lemma AssignedIdsCanMerge(f: Family, doc: FamilyDoc, hint: Option<int>)
    requires MaxKey(f.entries.Or([])) == TWO53 && doc.key.None?
    ensures AddEntry(f, Some(doc), hint).error.None?
    ensures Distinct(f) ==> Distinct(AddEntry(f, Some(doc), hint).state)
    ensures !Distinct(ReloadFamily(AddEntry(f, Some(doc), hint).state))
  {
    hide ReadInt64;
    var items := f.entries.Or([]);
    MaxKeyBounds(items, TWO53);
    MaxKeyBounds(items, TWO53 + 1);
    StepKeepsFamily(f, AddOp(Some(doc), hint));
    var after := AddEntry(f, Some(doc), hint).state;
    var again := ReloadFamily(after).entries.Or([]);
    var i :| 0 <= i < |items| && items[i].Key() == Some(TWO53);
    assert after.entries.value[i] == items[i];
    MergeBoundary();
    SmallSurvives(TWO53);
    assert again[i].Key() == again[|items|].Key() == Some(TWO53);
  }

  /** When k ids assigned after the largest one survive the next load beside it: if there are none,
      if they stay within 2^53, or if it is one and it rounds upwards. */
  predicate AssignedSurvive(top: int, k: nat) {
    k == 0 || top + k <= TWO53 || (k == 1 && TWO53 <= top < 2 * TWO53 && top % 4 != 0)
  }

  /** On loaded ids, k ids assigned one after the other are still distinct from all others at the
      next load exactly then. */
  lemma AssignedIdsMergeExactly(f: Family, g: Family, added: seq<FamilyItem>)
    requires Distinct(f) && KeysExact(f.entries.Or([]))
    requires g.entries == Is(f.entries.Or([]) + added) && MaxKey(f.entries.Or([])) + |added| < TWO63
    requires forall i :: 0 <= i < |added| ==> added[i].Key() == Some(MaxKey(f.entries.Or([])) + 1 + i)
    ensures Distinct(ReloadFamily(g)) <==> AssignedSurvive(MaxKey(f.entries.Or([])), |added|)
  {
    hide ReadInt64, HasKey, UniqueKeys, KeysExact;
    var items, top := f.entries.Or([]), MaxKey(f.entries.Or([]));
    MaxKeyIsExact(items);
    SmallIsExact(0);
    if |added| == 0 || top + |added| <= TWO53 {
      SmallAssigned(f, g, added);
      ReloadKeepsFamily(g);
    } else if |added| == 1 {
      var doc := added[0].doc;
      assert added == [Object(doc)];
      SuccessorReading(top);
      MaxKeyBounds(items, ReadInt64(top + 1));
      LoadedAfterAssigning(f, g, doc);
    } else if top < TWO53 {
      var i := TWO53 - 1 - top;
      MergeBoundary();
      SameReading(g, |items| + i, |items| + i + 1);
    } else {
      TwoSuccessors(top);
      if ReadInt64(top + 1) == top {
        var i := KeyPosition(items, top);
        assert g.entries.value[i] == items[i];
        SameReading(g, i, |items|);
      } else {
        SameReading(g, |items|, |items| + 1);
      }
    }
  }

  lemma SmallAssigned(f: Family, g: Family, added: seq<FamilyItem>)
    requires Distinct(f) && KeysExact(f.entries.Or([]))
    requires g.entries == Is(f.entries.Or([]) + added) && (|added| == 0 || MaxKey(f.entries.Or([])) + |added| <= TWO53)
    requires forall i :: 0 <= i < |added| ==> added[i].Key() == Some(MaxKey(f.entries.Or([])) + 1 + i)
    ensures Distinct(g) && KeysExact(g.entries.Or([]))
  {
    hide Exact;
    var items, all := f.entries.Or([]), g.entries.Or([]);
    var n, top := |items|, MaxKey(items);
    MaxKeyBounds(items, 0);
    forall i | 0 <= i < n && items[i].Key().Some? ensures items[i].Key().value <= top { MaxKeyBounds(items, items[i].Key().value); }
    forall i | 0 <= i < |all| && all[i].Key().Some? ensures Exact(all[i].Key().value) {
      if i >= n { SmallIsExact(all[i].Key().value); }
    }
    assert forall i :: n <= i < |all| ==> all[i].Key() == Some(top + 1 + (i - n));
  }

  lemma KeyPosition(items: seq<FamilyItem>, key: int) returns (i: nat)
    requires HasKey(items, key)
    ensures i < |items| && items[i].Key() == Some(key)
  {
    i :| 0 <= i < |items| && items[i].Key() == Some(key);
  }

  lemma SameReading(g: Family, i: nat, j: nat)
    requires g.entries.Is? && i < j < |g.entries.value|
    requires g.entries.value[i].Key().Some? && g.entries.value[j].Key().Some?
    requires ReadInt64(g.entries.value[i].Key().value) == ReadInt64(g.entries.value[j].Key().value)
    ensures !Distinct(ReloadFamily(g))
  {
    hide ReadInt64;
    var again := ReloadFamily(g).entries.Or([]);
    assert again[i].Key() == again[j].Key() && again[i].Key().Some?;
  }

  /** For one assigned id: merged exactly when the largest id is 2^54 or more, or is between 2^53 and
      2^54 and divisible by four. */
  lemma AssignedIdMergesExactly(f: Family, doc: FamilyDoc, hint: Option<int>)
    requires Distinct(f) && KeysExact(f.entries.Or([])) && doc.key.None?
    ensures AddEntry(f, Some(doc), hint).error.None?
    ensures var top := MaxKey(f.entries.Or([]));
            !Distinct(ReloadFamily(AddEntry(f, Some(doc), hint).state))
            <==> top >= 2 * TWO53 || (top >= TWO53 && top % 4 == 0)
  {
    hide ReadInt64, Distinct, KeysExact;
    var top := MaxKey(f.entries.Or([]));
    MaxKeyIsExact(f.entries.Or([]));
    SmallIsExact(0);
    SuccessorReading(top);
    MissingIdIsAssigned(f, doc, hint);
    AssignedIdsMergeExactly(f, AddEntry(f, Some(doc), hint).state, [Object(doc.(key := Some(top + 1)))]);
  }

  lemma MaxKeyIsExact(items: seq<FamilyItem>)
    requires KeysExact(items)
    ensures MaxKey(items) == 0 || (MaxKey(items) > 0 && HasKey(items, MaxKey(items)) && Exact(MaxKey(items)))
  {
    hide Exact;
    MaxKeyBounds(items, 0);
  }

  /** A loaded list with one more entry: its ids are distinct iff the new one reads back as a new id. */
  lemma LoadedAfterAssigning(f: Family, g: Family, doc: FamilyDoc)
    requires Distinct(f) && KeysExact(f.entries.Or([])) && doc.key.Some?
    requires g.entries == Is(f.entries.Or([]) + [Object(doc)])
    ensures Distinct(ReloadFamily(g)) <==> !HasKey(f.entries.Or([]), ReadInt64(doc.key.value))
  {
    hide ReadInt64;
    var items, again := f.entries.Or([]), ReloadFamily(g).entries.Or([]);
    var n := |items|;
    assert forall i :: 0 <= i < n && items[i].Key().Some? ==> Exact(items[i].Key().value);
    assert forall i :: 0 <= i < n ==> again[i].Key() == items[i].Key();
    assert again[n].Key() == Some(ReadInt64(doc.key.value));
    if HasKey(items, ReadInt64(doc.key.value)) {
      var i :| 0 <= i < n && items[i].Key() == Some(ReadInt64(doc.key.value));
      assert again[i].Key() == again[n].Key();
    }
  }

  // ---------------------------------------------------------------- assigned ids

  /** An entry without an id is always accepted and gets the next id. */
  lemma MissingIdIsAssigned(f: Family, doc: FamilyDoc, hint: Option<int>)
    requires doc.key.None? && MaxKey(f.entries.Or([])) + 1 < TWO63
    ensures var s := AddEntry(f, Some(doc), hint);
            var id := MaxKey(f.entries.Or([])) + 1;
            && s.error.None?
            && s.state.entries == Is(f.entries.Or([]) + [Object(doc.(key := Some(id)))])
            && MaxKey(s.state.entries.Or([])) == id
  {
    var items := f.entries.Or([]);
    var id := MaxKey(items) + 1;
    MaxKeyBounds(items, id);
    MaxKeyGrows(items, Object(doc.(key := Some(id))));
  }

  function DocWithoutId(op: Op): FamilyDoc
    requires LacksId(op)
  {
    op.doc.value
  }

  /** The entries that updates without ids append, numbered from `next`. */
  ghost function Numbered(us: seq<Update>, kind: Kind, next: int): (items: seq<FamilyItem>)
    requires forall u :: u in us ==> LacksId(OpOf(u, kind))
    ensures |items| == |us|
    ensures forall i :: 0 <= i < |us| ==> items[i].Key() == Some(next + i)
  {
    if us == [] then []
    else
      [Object(DocWithoutId(OpOf(us[0], kind)).(key := Some(next)))] + Numbered(us[1..], kind, next + 1)
  }

  /** Consecutive entries without ids get the consecutive ids after the largest one present. */
  lemma {:induction false} ConsecutiveIds(m: Metadata, us: seq<Update>, kind: Kind)
    requires forall u :: u in us ==> LacksId(OpOf(u, kind))
    requires MaxKey(FamilyOf(m, kind).entries.Or([])) + |us| < TWO63
    ensures Run(m, us).failure.None?
    ensures FamilyOf(Run(m, us).meta, kind).entries.Or([])
         == FamilyOf(m, kind).entries.Or([]) + Numbered(us, kind, MaxKey(FamilyOf(m, kind).entries.Or([])) + 1)
    decreases |us|
  {
    hide ApplyUpdate, OpOf;
    if us != [] {
      var op := OpOf(us[0], kind);
      assert us[0] in us;
      UpdateOnFamily(m, us[0], kind);
      MissingIdIsAssigned(FamilyOf(m, kind), op.doc.value, op.hint);
      ConsecutiveIds(ApplyUpdate(m, us[0]).state, us[1..], kind);
    }
  }

  /** So updates without ids lead to a merge at the next load exactly as those ids do. */
  lemma RunMergesExactly(m: Metadata, us: seq<Update>, kind: Kind)
    requires Distinct(FamilyOf(m, kind)) && KeysExact(FamilyOf(m, kind).entries.Or([]))
    requires forall u :: u in us ==> LacksId(OpOf(u, kind))
    requires MaxKey(FamilyOf(m, kind).entries.Or([])) + |us| < TWO63
    ensures Distinct(ReloadFamily(FamilyOf(Run(m, us).meta, kind)))
       <==> AssignedSurvive(MaxKey(FamilyOf(m, kind).entries.Or([])), |us|)
  {
    hide Run, Distinct, KeysExact, ReloadFamily, AssignedSurvive;
    var f := FamilyOf(m, kind);
    ConsecutiveIds(m, us, kind);
    if us == [] {
      ReloadKeepsFamily(f);
      NothingAssigned(m, f);
    } else {
      var added := Numbered(us, kind, MaxKey(f.entries.Or([])) + 1);
      AssignedIdsMergeExactly(f, FamilyOf(Run(m, us).meta, kind), added);
    }
  }

  lemma NothingAssigned(m: Metadata, f: Family)
    ensures Run(m, []) == Outcome(m, None) && AssignedSurvive(MaxKey(f.entries.Or([])), 0)
  {
  }
}
