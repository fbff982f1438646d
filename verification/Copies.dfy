/** The processor's copy on the heap and `Reload` are one operation, and when it changes nothing. */
module Copies {
  import opened Options
  import opened JsonValues
  import opened Binary64
  import opened TableMetadata
  import opened ItemLemmas
  import opened JsonHeap
  import opened NestedWrites
  import opened MetadataJson
  import opened RoundTrips

  // ---------------------------------------------------------------- JSON values

  /** Two JSON values that differ in nothing but that numbers of the first are rounded in the second. */
  ghost predicate OnlyRounded(j: Json, r: Json) {
    match j
    case Num(n) => r == Num(Round(n))
    case Arr(items) => r.Arr? && |r.items| == |items| && forall i :: 0 <= i < |items| ==> OnlyRounded(items[i], r.items[i])
    case Obj(members) =>
      r.Obj? && r.members.Keys == members.Keys && forall k :: k in members ==> OnlyRounded(members[k], r.members[k])
    case _ => r == j
  }

  lemma {:induction false} ReloadOnlyRounds(j: Json)
    ensures OnlyRounded(j, ReloadJson(j))
  {
    hide Round;
    match j {
      case Arr(items) =>
        forall i | 0 <= i < |items| ensures OnlyRounded(items[i], ReloadJson(j).items[i]) { ReloadOnlyRounds(items[i]); }
      case Obj(members) =>
        forall k | k in members ensures OnlyRounded(members[k], ReloadJson(j).members[k]) { ReloadOnlyRounds(members[k]); }
      case _ =>
    }
  }

  /** Members that are kept aside keep their names, and what they are. */
  lemma MembersOnlyRounded(members: map<string, Json>)
    ensures ReloadMembers(members).Keys == members.Keys
    ensures forall k :: k in members ==> OnlyRounded(members[k], ReloadMembers(members)[k])
  {
    hide OnlyRounded, ReloadJson;
    forall k | k in members ensures OnlyRounded(members[k], ReloadMembers(members)[k]) { ReloadOnlyRounds(members[k]); }
  }

  lemma ListTree(items: seq<Json>)
    ensures var t := JsonTree(Arr(items));
            && t.Branch? && t.shape == AList
            && (forall i: nat :: i < |items| ==> Index(i) in t.slots && t.slots[Index(i)] == JsonTree(items[i]))
            && (forall l :: l in t.slots ==> l.Index? && l.i < |items|)
  {
  }

  lemma ObjectTree(members: map<string, Json>)
    ensures var t := JsonTree(Obj(members));
            && t.Branch? && t.shape == AnObject
            && (forall k :: k in members ==> Field(k) in t.slots && t.slots[Field(k)] == JsonTree(members[k]))
            && (forall l :: l in t.slots ==> l.Field? && l.name in members)
  {
  }

  lemma SameTrees(a: Tree, b: Tree)
    requires a.Branch? && b.Branch? && a.shape == b.shape
    requires forall l :: l in a.slots ==> l in b.slots && a.slots[l] == b.slots[l]
    requires forall l :: l in b.slots ==> l in a.slots
    ensures a == b
  {
    assert a.slots == b.slots;
  }

  /** The tree of a reloaded value is what the heap copy makes of the value's tree. */
  lemma {:induction false} CopyOfTree(j: Json)
    ensures JsonTree(ReloadJson(j)) == Rounded(JsonTree(j))
  {
    match j {
      case Arr(items) => CopyOfList(items);
      case Obj(members) => CopyOfObject(members);
      case _ =>
    }
  }

  lemma {:induction false} CopyOfList(items: seq<Json>)
    ensures JsonTree(ReloadJson(Arr(items))) == Rounded(JsonTree(Arr(items)))
    decreases Arr(items), 0
  {
    hide JsonTree;
    var again := ReloadJson(Arr(items)).items;
    ListTree(items);
    ListTree(again);
    forall i: nat | i < |items| ensures JsonTree(again[i]) == Rounded(JsonTree(items[i])) { CopyOfTree(items[i]); }
    SameTrees(JsonTree(Arr(again)), Rounded(JsonTree(Arr(items))));
  }

  lemma {:induction false} CopyOfObject(members: map<string, Json>)
    ensures JsonTree(ReloadJson(Obj(members))) == Rounded(JsonTree(Obj(members)))
    decreases Obj(members), 0
  {
    hide JsonTree;
    var again := ReloadJson(Obj(members)).members;
    ObjectTree(members);
    ObjectTree(again);
    forall k | k in members ensures JsonTree(again[k]) == Rounded(JsonTree(members[k])) { CopyOfTree(members[k]); }
    SameTrees(JsonTree(Obj(again)), Rounded(JsonTree(Obj(members))));
  }

  /** A tree shows one JSON value only. */
  lemma {:induction false} TreesTellApart(j: Json, k: Json)
    requires JsonTree(j) == JsonTree(k)
    ensures j == k
    decreases j, 1
  {
    match (j, k) {
      case (Arr(items), Arr(others)) => ListsTellApart(items, others);
      case (Obj(members), Obj(others)) => ObjectsTellApart(members, others);
      case _ =>
    }
  }

  lemma {:induction false} ListsTellApart(items: seq<Json>, others: seq<Json>)
    requires JsonTree(Arr(items)) == JsonTree(Arr(others))
    ensures items == others
    decreases Arr(items), 0
  {
    hide JsonTree;
    ListTree(items);
    ListTree(others);
    assert Index(|items|) !in JsonTree(Arr(items)).slots && Index(|others|) !in JsonTree(Arr(others)).slots;
    assert |items| == |others|;
    forall i: nat | i < |items| ensures items[i] == others[i] { TreesTellApart(items[i], others[i]); }
  }

  lemma {:induction false} ObjectsTellApart(members: map<string, Json>, others: map<string, Json>)
    requires JsonTree(Obj(members)) == JsonTree(Obj(others))
    ensures members == others
    decreases Obj(members), 0
  {
    hide JsonTree;
    ObjectTree(members);
    ObjectTree(others);
    forall name ensures name in members <==> name in others {
      assert Field(name) in JsonTree(Obj(members)).slots <==> name in members;
      assert Field(name) in JsonTree(Obj(others)).slots <==> name in others;
    }
    forall name | name in members ensures members[name] == others[name] { TreesTellApart(members[name], others[name]); }
  }

  /** Reloading leaves a value alone exactly when all its numbers are binary64. */
  lemma ReloadIsExactForDoubles(j: Json)
    ensures ReloadJson(j) == j <==> AllDoubles(JsonTree(j))
  {
    hide JsonTree, Rounded, AllDoubles, ReloadJson;
    CopyOfTree(j);
    CopyIsExactForDoubles(JsonTree(j));
    if JsonTree(ReloadJson(j)) == JsonTree(j) { TreesTellApart(ReloadJson(j), j); }
  }

  // ---------------------------------------------------------------- reading a copy

  lemma ReadRounded(n: int)
    ensures ReadInt64(Round(n)) == ReadInt64(n)
  {
    hide Round, IsDouble;
    DoublesAreFixed(n);
    DoublesAreFixed(Round(n));
  }

  lemma ReadIntOfCopy(o: map<string, Json>, name: string)
    ensures ReadInt(ReloadMembers(o), name) == ReadInt(o, name)
  {
    hide ReadInt64, Round;
    if name in o && o[name].Num? { ReadRounded(o[name].n); }
  }

  lemma MembersOfCopy(members: map<string, Json>)
    ensures ReloadJson(Obj(members)) == Obj(ReloadMembers(members))
  {
    assert ReloadJson(Obj(members)).members == ReloadMembers(members);
  }

  lemma FieldIdsOfCopy(o: map<string, Json>, idMember: string)
    ensures ReadFieldIds(ReloadMembers(o), idMember) == ReadFieldIds(o, idMember)
  {
    hide ReadInt, ReloadMembers;
    MembersOnlyRounded(o);
    if "fields" in o && o["fields"].Arr? {
      var fields, again := o["fields"].items, ReloadMembers(o)["fields"].items;
      forall i | 0 <= i < |fields| ensures ReadFieldIds(ReloadMembers(o), idMember).value[i] == ReadFieldIds(o, idMember).value[i] {
        FieldOfCopy(o, i);
        if fields[i].Obj? {
          MembersOfCopy(fields[i].members);
          ReadIntOfCopy(fields[i].members, idMember);
        }
      }
      assert ReadFieldIds(ReloadMembers(o), idMember).value == ReadFieldIds(o, idMember).value;
    }
  }

  lemma FieldOfCopy(o: map<string, Json>, i: nat)
    requires "fields" in o && o["fields"].Arr? && i < |o["fields"].items|
    ensures "fields" in ReloadMembers(o) && ReloadMembers(o)["fields"].Arr? && i < |ReloadMembers(o)["fields"].items|
    ensures ReloadMembers(o)["fields"].items[i] == ReloadJson(o["fields"].items[i])
  {
  }

  lemma RestOfCopy(o: map<string, Json>, names: set<string>)
    ensures ReloadMembers(ReloadMembers(o) - names) == ReloadMembers(o - names)
  {
    hide ReloadJson;
    ReloadMembersTwice(o);
    assert (ReloadMembers(o) - names).Keys == (o - names).Keys;
    assert ReloadMembers(ReloadMembers(o))  == ReloadMembers(o);
    forall k | k in o - names ensures ReloadMembers(ReloadMembers(o) - names)[k] == ReloadMembers(o - names)[k] {
      assert ReloadMembers(ReloadMembers(o))[k] == ReloadMembers(o)[k];
    }
  }

  lemma DocumentsOfCopy(o: map<string, Json>)
    ensures SchemaView(ReloadMembers(o)) == SchemaView(o) && SpecView(ReloadMembers(o)) == SpecView(o)
    ensures SortOrderView(ReloadMembers(o)) == SortOrderView(o) && SnapshotView(ReloadMembers(o)) == SnapshotView(o)
    ensures LogView(ReloadMembers(o)) == LogView(o) && StatView(ReloadMembers(o)) == StatView(o)
    ensures KeyView(ReloadMembers(o)) == KeyView(o)
  {
    hide ReadInt, ReadFieldIds, ReloadMembers, KeyView;
    forall name ensures ReadInt(ReloadMembers(o), name) == ReadInt(o, name) { ReadIntOfCopy(o, name); }
    RestOfCopy(o, {"schema-id"});
    RestOfCopy(o, {"spec-id"});
    RestOfCopy(o, {"order-id"});
    RestOfCopy(o, {"snapshot-id"});
    RestOfCopy(o, {"snapshot-id", "timestamp-ms"});
    RestOfCopy(o, {"snapshot-id", "timestamp-ms", "sequence-number"});
    FieldIdsOfCopy(o, "id");
    FieldIdsOfCopy(o, "field-id");
    KeyOfCopy(o);
  }

  lemma KeyOfCopy(o: map<string, Json>)
    ensures KeyView(ReloadMembers(o)) == KeyView(o)
  {
    hide ReloadMembers;
    RestOfCopy(o, {"key-id"});
    TextOfCopy(o, "key-id");
  }

  lemma TextOfCopy(o: map<string, Json>, name: string)
    ensures name in ReloadMembers(o) <==> name in o
    ensures name in o ==> ReadText(ReloadMembers(o)[name]) == ReadText(o[name])
  {
  }

  lemma ItemsOfCopy<K, D>(j: Json, view: map<string, Json> -> Doc<K, D>)
    requires forall o :: view(ReloadMembers(o)) == view(o)
    ensures ReadItems(ReloadJson(j), view) == ReadItems(j, view)
  {
    if j.Arr? {
      var a, b := ReadItems(ReloadJson(j), view).value, ReadItems(j, view).value;
      forall i | 0 <= i < |a| ensures a[i] == b[i] { ItemOfCopy(j.items[i], view); }
      assert a == b;
    }
  }

  lemma ItemOfCopy<K, D>(j: Json, view: map<string, Json> -> Doc<K, D>)
    requires forall o :: view(ReloadMembers(o)) == view(o)
    ensures ReadItem(ReloadJson(j), view) == ReadItem(j, view)
  {
    hide ReloadMembers;
    ReloadOnlyRounds(j);
    ReloadJsonTwice(j);
    if j.Obj? { MembersOfCopy(j.members); }
  }

  lemma RefMapOfCopy(j: Json)
    ensures ReadRefMap(ReloadJson(j)) == ReadRefMap(j)
  {
    hide ReadRef;
    if j.Obj? {
      MembersOfCopy(j.members);
      forall name | name in j.members ensures ReadRef(ReloadMembers(j.members)[name]) == ReadRef(j.members[name]) {
        RefOfCopy(j.members[name]);
      }
      assert ReadRefMap(ReloadJson(j)).value == ReadRefMap(j).value;
    }
  }

  lemma RefOfCopy(j: Json)
    ensures ReadRef(ReloadJson(j)) == ReadRef(j)
  {
    hide ReadInt, ReloadMembers, ReadText, OnlyRounded;
    if j.Obj? {
      hide ReloadJson;
      MembersOfCopy(j.members);
      TextOfCopy(j.members, "type");
      ReadIntOfCopy(j.members, "snapshot-id");
      ReadIntOfCopy(j.members, "max-ref-age-ms");
      ReadIntOfCopy(j.members, "max-snapshot-age-ms");
      ReadIntOfCopy(j.members, "min-snapshots-to-keep");
    } else {
      ReloadJsonTwice(j);
    }
  }

  lemma ViewOfCopy<T>(o: map<string, Json>, name: string, read: Json -> Option<T>)
    requires forall j :: read(ReloadJson(j)) == read(j)
    ensures View(ReloadMembers(o), name, read) == View(o, name, read)
  {
    if name in o { ReloadJsonTwice(o[name]); }
  }

  lemma ScalarsOfCopy(j: Json)
    ensures ReadText(ReloadJson(j)) == ReadText(j) && ReadNumber(ReloadJson(j)) == ReadNumber(j)
    ensures ReadMap(ReloadJson(j)) == ReadMap(j)
  {
    hide ReadInt64, Round;
    if j.Num? { ReadRounded(j.n); }
    if j.Obj? { MembersOfCopy(j.members); ReloadMembersTwice(j.members); }
  }

  lemma ListsOfCopy(j: Json)
    ensures ReadSchemas(ReloadJson(j)) == ReadSchemas(j) && ReadSpecs(ReloadJson(j)) == ReadSpecs(j)
    ensures ReadOrders(ReloadJson(j)) == ReadOrders(j) && ReadSnapshots(ReloadJson(j)) == ReadSnapshots(j)
    ensures ReadLog(ReloadJson(j)) == ReadLog(j) && ReadStatistics(ReloadJson(j)) == ReadStatistics(j)
    ensures ReadKeys(ReloadJson(j)) == ReadKeys(j)
  {
    hide SchemaView, SpecView, SortOrderView, SnapshotView, LogView, StatView, KeyView, ReadItems, ReloadMembers;
    forall o
      ensures SchemaView(ReloadMembers(o)) == SchemaView(o) && SpecView(ReloadMembers(o)) == SpecView(o)
      ensures SortOrderView(ReloadMembers(o)) == SortOrderView(o) && SnapshotView(ReloadMembers(o)) == SnapshotView(o)
      ensures LogView(ReloadMembers(o)) == LogView(o) && StatView(ReloadMembers(o)) == StatView(o)
      ensures KeyView(ReloadMembers(o)) == KeyView(o)
    {
      DocumentsOfCopy(o);
    }
    ItemsOfCopy(j, SchemaView);
    ItemsOfCopy(j, SpecView);
    ItemsOfCopy(j, SortOrderView);
    ItemsOfCopy(j, SnapshotView);
    ItemsOfCopy(j, LogView);
    ItemsOfCopy(j, StatView);
    ItemsOfCopy(j, KeyView);
  }

  /** In a copy the engine reads exactly what it reads in the original. */
  lemma CopyReadsAlike(o: map<string, Json>)
    ensures MetadataView(ReloadMembers(o)) == MetadataView(o)
  {
    hide View, ReadText, ReadNumber, ReadMap, ReadSchemas, ReadSpecs, ReadOrders, ReadSnapshots, ReadLog, ReadStatistics, ReadKeys,
      ReadRefMap, ReloadMembers, ReloadJson;
    forall j
      ensures ReadText(ReloadJson(j)) == ReadText(j) && ReadNumber(ReloadJson(j)) == ReadNumber(j)
      ensures ReadMap(ReloadJson(j)) == ReadMap(j) && ReadRefMap(ReloadJson(j)) == ReadRefMap(j)
    {
      ScalarsOfCopy(j);
      RefMapOfCopy(j);
    }
    forall j
      ensures ReadSchemas(ReloadJson(j)) == ReadSchemas(j) && ReadSpecs(ReloadJson(j)) == ReadSpecs(j)
      ensures ReadOrders(ReloadJson(j)) == ReadOrders(j) && ReadSnapshots(ReloadJson(j)) == ReadSnapshots(j)
      ensures ReadLog(ReloadJson(j)) == ReadLog(j) && ReadStatistics(ReloadJson(j)) == ReadStatistics(j)
      ensures ReadKeys(ReloadJson(j)) == ReadKeys(j)
    {
      ListsOfCopy(j);
    }
    forall name ensures View(ReloadMembers(o), name, ReadText) == View(o, name, ReadText) { ViewOfCopy(o, name, ReadText); }
    forall name ensures View(ReloadMembers(o), name, ReadNumber) == View(o, name, ReadNumber) { ViewOfCopy(o, name, ReadNumber); }
    forall name ensures View(ReloadMembers(o), name, ReadStatistics) == View(o, name, ReadStatistics) {
      ViewOfCopy(o, name, ReadStatistics);
    }
    ViewOfCopy(o, SCHEMAS, ReadSchemas);
    ViewOfCopy(o, SPECS, ReadSpecs);
    ViewOfCopy(o, ORDERS, ReadOrders);
    ViewOfCopy(o, SNAPSHOTS, ReadSnapshots);
    ViewOfCopy(o, REFS, ReadRefMap);
    ViewOfCopy(o, LOG, ReadLog);
    ViewOfCopy(o, PROPERTIES, ReadMap);
    ViewOfCopy(o, KEYS, ReadKeys);
    RestOfCopy(o, NAMES);
  }

  /** The tree a metadata object is kept as on the heap. */
  function MetadataTree(o: map<string, Json>): Tree {
    JsonTree(Obj(o))
  }

  /** `NewProcessor`, from the caller's heap nodes to what the handlers read: the copy is the tree of
      an object in which the engine reads what `Reload` says. */
  lemma HeapCopyIsReload(m: Metadata)
    requires Presents(m)
    ensures var copy := ReloadMembers(MetadataObject(m));
            Rounded(MetadataTree(MetadataObject(m))) == MetadataTree(copy) && MetadataView(copy) == Reload(m)
  {
    hide Rounded, ReloadMembers, ReloadJson, JsonTree, MetadataView, Presents;
    var o := MetadataObject(m);
    CopyOfTree(Obj(o));
    MembersOfCopy(o);
    CopyReadsAlike(o);
    ReloadIsWriteThenRead(m);
  }

  method CopyMetadata(caller: Node, ghost m: Metadata) returns (copy: Node)
    requires caller.Valid() && Presents(m) && caller.ToTree() == MetadataTree(MetadataObject(m))
    ensures copy.Valid() && fresh(copy.repr)
    ensures copy.ToTree() == MetadataTree(ReloadMembers(MetadataObject(m)))
    ensures MetadataView(ReloadMembers(MetadataObject(m))) == Reload(m)
  {
    hide Rounded, ReloadMembers, JsonTree, MetadataView, Presents, MetadataObject;
    copy := DeepCopy(caller);
    HeapCopyIsReload(m);
  }

  // ---------------------------------------------------------------- writes as they show in JSON

  lemma ObjectSlots(o: map<string, Json>, key: string)
    ensures Field(key) in JsonTree(Obj(o)).slots <==> key in o
  {
    ObjectTree(o);
  }

  lemma SetMemberInJson(o: map<string, Json>, key: string, v: Json)
    ensures Written(JsonTree(Obj(o)), SetMember(key, JsonTree(v))) == JsonTree(Obj(o[key := v]))
  {
    hide JsonTree;
    ObjectTree(o);
    ObjectTree(o[key := v]);
    SameTrees(Written(JsonTree(Obj(o)), SetMember(key, JsonTree(v))), JsonTree(Obj(o[key := v])));
  }

  lemma DropMemberInJson(o: map<string, Json>, key: string)
    ensures Written(JsonTree(Obj(o)), DropMember(key)) == JsonTree(Obj(o - {key}))
  {
    hide JsonTree;
    ObjectTree(o);
    ObjectTree(o - {key});
    SameTrees(Written(JsonTree(Obj(o)), DropMember(key)), JsonTree(Obj(o - {key})));
  }

  /** The map or the list under a name; anything else counts as an empty one. */
  function MapAt(o: map<string, Json>, member: string): map<string, Json> {
    if member in o && o[member].Obj? then o[member].members else map[]
  }

  function ListAt(o: map<string, Json>, member: string): seq<Json> {
    if member in o && o[member].Arr? then o[member].items else []
  }

  lemma HasInJson(o: map<string, Json>, member: string)
    ensures Has(JsonTree(Obj(o)), member, AnObject) <==> member in o && o[member].Obj?
    ensures Has(JsonTree(Obj(o)), member, AList) <==> member in o && o[member].Arr?
  {
    hide JsonTree;
    ObjectTree(o);
    if member in o { ShapeOfTree(o[member]); }
  }

  lemma ShapeOfTree(j: Json)
    ensures JsonTree(j).Branch? <==> j.Obj? || j.Arr?
    ensures j.Obj? ==> JsonTree(j).shape == AnObject
    ensures j.Arr? ==> JsonTree(j).shape == AList
  {
  }

  lemma EmptyTrees()
    ensures JsonTree(Obj(map[])) == Branch(AnObject, map[]) && JsonTree(Arr([])) == Branch(AList, map[])
  {
    assert JsonTree(Obj(map[])).slots == map[];
    assert JsonTree(Arr([])).slots == map[];
  }

  lemma EnsuredInJson(o: map<string, Json>, member: string)
    ensures Ensured(JsonTree(Obj(o)), member, AnObject) == JsonTree(Obj(o[member := Obj(MapAt(o, member))]))
    ensures Ensured(JsonTree(Obj(o)), member, AList) == JsonTree(Obj(o[member := Arr(ListAt(o, member))]))
  {
    hide JsonTree, Has;
    HasInJson(o, member);
    EmptyTrees();
    SetMemberInJson(o, member, Obj(MapAt(o, member)));
    SetMemberInJson(o, member, Arr(ListAt(o, member)));
    ObjectTree(o);
    if member in o { assert o[member := o[member]] == o; }
  }

  /** Setting a member of a nested map, which is made if need be. */
  lemma SetInInJson(o: map<string, Json>, member: string, key: string, v: Json)
    ensures Written(JsonTree(Obj(o)), SetIn(member, key, JsonTree(v)))
         == JsonTree(Obj(o[member := Obj(MapAt(o, member)[key := v])]))
  {
    hide JsonTree, Ensured;
    var inner := MapAt(o, member);
    var p := o[member := Obj(inner)];
    EnsuredInJson(o, member);
    ObjectTree(p);
    SetMemberInJson(inner, key, v);
    SetMemberInJson(p, member, Obj(inner[key := v]));
    assert p[member := Obj(inner[key := v])] == o[member := Obj(inner[key := v])];
  }

  /** Deleting from a nested map, if there is one. */
  lemma DropInInJson(o: map<string, Json>, member: string, key: string)
    ensures Written(JsonTree(Obj(o)), DropIn(member, key))
         == JsonTree(Obj(if member in o && o[member].Obj? then o[member := Obj(MapAt(o, member) - {key})] else o))
  {
    hide JsonTree, Has;
    HasInJson(o, member);
    ObjectTree(o);
    if member in o && o[member].Obj? {
      DropMemberInJson(MapAt(o, member), key);
      SetMemberInJson(o, member, Obj(MapAt(o, member) - {key}));
    }
  }

  /** Appending to a nested list, which is made if need be: the new element comes last. */
  lemma AppendInJson(o: map<string, Json>, member: string, v: Json)
    ensures Written(JsonTree(Obj(o)), Append(member, JsonTree(v)))
         == JsonTree(Obj(o[member := Arr(ListAt(o, member) + [v])]))
  {
    hide JsonTree, Ensured;
    var items := ListAt(o, member);
    var p := o[member := Arr(items)];
    EnsuredInJson(o, member);
    ObjectTree(p);
    LengthOfList(items);
    AppendedTree(items, v);
    SetMemberInJson(p, member, Arr(items + [v]));
    assert p[member := Arr(items + [v])] == o[member := Arr(items + [v])];
  }

  lemma AppendedTree(items: seq<Json>, v: Json)
    ensures JsonTree(Arr(items)).Branch?
    ensures EditedBranch(JsonTree(Arr(items)), Index(|items|), Some(JsonTree(v))) == JsonTree(Arr(items + [v]))
  {
    hide JsonTree;
    ListTree(items);
    ListTree(items + [v]);
    SameTrees(EditedBranch(JsonTree(Arr(items)), Index(|items|), Some(JsonTree(v))), JsonTree(Arr(items + [v])));
  }

  lemma {:induction false} LengthOfList(items: seq<Json>)
    ensures JsonTree(Arr(items)).Branch? && |JsonTree(Arr(items)).slots| == |items|
  {
    hide JsonTree;
    if items == [] {
      EmptyTrees();
    } else {
      var init, last := items[..|items| - 1], items[|items| - 1];
      LengthOfList(init);
      AppendedTree(init, last);
      assert init + [last] == items;
      ListTree(init);
      OneMoreSlot(JsonTree(Arr(init)).slots, Index(|init|), JsonTree(last));
    }
  }

  lemma OneMoreSlot(slots: map<Label, Tree>, l: Label, t: Tree)
    requires l !in slots
    ensures |slots[l := t]| == |slots| + 1
  {
    assert slots[l := t].Keys == slots.Keys + {l};
    assert |slots[l := t].Keys| == |slots.Keys| + 1;
  }

  // ---------------------------------------------------------------- what the tree of metadata shows

  /** The member holds what the slot holds. */
  ghost predicate Holding<T>(o: map<string, Json>, name: string, s: Slot<T>, enc: T -> Json) {
    match s
    case Absent => name !in o
    case Foreign(raw) => name in o && o[name] == raw
    case Is(v) => name in o && o[name] == enc(v)
  }

  lemma PutHolds<T>(o: map<string, Json>, name: string, s: Slot<T>, enc: T -> Json, p: map<string, Json>, names: set<string>)
    requires name !in o && SameBut(Put(o, name, s, enc), p, names) && name !in names
    ensures Holding(p, name, s, enc)
  {
  }

  lemma PutFrame<T>(o: map<string, Json>, name: string, s: Slot<T>, enc: T -> Json)
    ensures SameBut(o, Put(o, name, s, enc), {name})
  {
  }

  lemma SnapshotsHold(o: map<string, Json>, s: Snapshots)
    requires o.Keys !! SNAPSHOT_NAMES
    ensures Holding(PutSnapshots(o, s), REFS, s.refs, WriteRefs)
    ensures Holding(PutSnapshots(o, s), CURRENT_SNAPSHOT, s.current, WriteNumber)
  {
    hide Put, Print, Holding;
    NamesApart();
    var p := PutSnapshots(o, s);
    var o1 := Put(o, SNAPSHOTS, s.list, WriteSnapshots);
    var o2 := Put(o1, CURRENT_SNAPSHOT, s.current, WriteNumber);
    var o3 := Put(o2, REFS, s.refs, WriteRefs);
    var o4 := Put(o3, LOG, s.log, WriteLog);
    PutFrame(o, SNAPSHOTS, s.list, WriteSnapshots);
    PutFrame(o1, CURRENT_SNAPSHOT, s.current, WriteNumber);
    PutFrame(o2, REFS, s.refs, WriteRefs);
    PutFrame(o3, LOG, s.log, WriteLog);
    PutFrame(o4, LAST_SEQUENCE, s.lastSequence, WriteNumber);
    PutHolds(o1, CURRENT_SNAPSHOT, s.current, WriteNumber, p, {REFS, LOG, LAST_SEQUENCE});
    PutHolds(o2, REFS, s.refs, WriteRefs, p, {LOG, LAST_SEQUENCE});
  }

  lemma PropertiesHold(o: map<string, Json>, m: Metadata)
    requires o.Keys !! MAP_NAMES
    ensures Holding(PutMaps(o, m), PROPERTIES, m.properties, WriteMap)
  {
    hide Put, Print, Holding;
    NamesApart();
    PutFrame(o, PROPERTIES, m.properties, WriteMap);
    PutFrame(Put(o, PROPERTIES, m.properties, WriteMap), KEYS, m.encryptionKeys, WriteKeys);
    PutHolds(o, PROPERTIES, m.properties, WriteMap, PutMaps(o, m), {KEYS});
  }

  lemma HoldingStays<T>(o: map<string, Json>, p: map<string, Json>, names: set<string>, name: string, s: Slot<T>, enc: T -> Json)
    requires Holding(o, name, s, enc) && SameBut(o, p, names) && name !in names
    ensures Holding(p, name, s, enc)
  {
  }

  lemma MapTreeOfJson(members: map<string, Json>)
    ensures JsonTree(Obj(members)) == MapTree(members, JsonTree)
  {
    hide JsonTree;
    ObjectTree(members);
    SameTrees(JsonTree(Obj(members)), MapTree(members, JsonTree));
  }

  lemma MapTreeOfRefs(refs: map<string, Ref>)
    ensures JsonTree(WriteRefs(refs)) == MapTree(refs, RefTree)
  {
    hide JsonTree, WriteRef;
    var members := map name | name in refs :: WriteRef(refs[name]);
    ObjectTree(members);
    SameTrees(JsonTree(Obj(members)), MapTree(refs, RefTree));
  }

  /** The tree of a metadata object shows its properties, references and current snapshot as the
      in-place handlers expect them. */
  lemma MetadataShows(m: Metadata)
    requires Presents(m)
    ensures MetadataTree(MetadataObject(m)).Branch?
    ensures Shows(MetadataTree(MetadataObject(m)), PROPERTIES, m.properties, JsonTree)
    ensures ShowsRefs(MetadataTree(MetadataObject(m)), m.snaps)
  {
    var o1, o2, o3, o4, o5, o6, o7 := Stages(m);
    hide SameBut, From, Presents, Holding, PutSnapshots, PutMaps, PutCore, PutSchemas, PutSpecs, PutOrders, PutStatistics;
    ShownParts(m);
    SnapshotsHold(o4, m.snaps);
    PropertiesHold(o6, m);
    HoldingStays(o5, o7, From(5), REFS, m.snaps.refs, WriteRefs);
    HoldingStays(o5, o7, From(5), CURRENT_SNAPSHOT, m.snaps.current, WriteNumber);
    HoldingShows(o7, m);
  }

  lemma ShownParts(m: Metadata)
    requires Presents(m)
    ensures RefsFit(m.snaps.refs) && Fits(m.snaps.current, ReadNumber) && Fits(m.properties, ReadMap)
  {
  }

  lemma HoldingShows(o: map<string, Json>, m: Metadata)
    requires RefsFit(m.snaps.refs) && Fits(m.snaps.current, ReadNumber) && Fits(m.properties, ReadMap)
    requires Holding(o, REFS, m.snaps.refs, WriteRefs) && Holding(o, CURRENT_SNAPSHOT, m.snaps.current, WriteNumber)
    requires Holding(o, PROPERTIES, m.properties, WriteMap)
    ensures MetadataTree(o).Branch?
    ensures Shows(MetadataTree(o), PROPERTIES, m.properties, JsonTree) && ShowsRefs(MetadataTree(o), m.snaps)
  {
    hide JsonTree, WriteRefs, MapTree, RefTree, ReadInt64;
    ObjectTree(o);
    if m.properties.Is? { MapTreeOfJson(m.properties.value); }
    if m.snaps.refs.Is? { MapTreeOfRefs(m.snaps.refs.value); }
    if m.snaps.current.Is? { NumberTree(m.snaps.current.value); }
  }

  lemma NumberTree(n: int)
    ensures JsonTree(Num(n)) == Leaf(JsonHeap.Number(n))
  {
  }
}
