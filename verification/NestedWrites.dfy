/** The handlers that write inside nested maps, as writes to the copy on the heap. */
module NestedWrites {
  import opened Options
  import opened JsonValues
  import opened TableMetadata
  import opened Handlers
  import opened MetadataJson
  import opened JsonHeap

  function JsonTree(j: Json): Tree {
    match j
    case Null => Leaf(Nil)
    case Bool(b) => Leaf(Flag(b))
    case Num(n) => Leaf(Number(n))
    case Str(s) => Leaf(Text(s))
    case Arr(items) => Branch(AList, Indexed(seq(|items|, i requires 0 <= i < |items| => JsonTree(items[i]))))
    case Obj(members) => Branch(AnObject, Named(map k | k in members :: JsonTree(members[k])))
  }

  function Indexed(trees: seq<Tree>): (slots: map<Label, Tree>)
    ensures forall i: nat :: i < |trees| ==> Index(i) in slots && slots[Index(i)] == trees[i]
    ensures forall l :: l in slots ==> l.Index? && l.i < |trees|
  {
    map i: nat | i < |trees| :: Index(i) := trees[i]
  }

  function Named(trees: map<string, Tree>): (slots: map<Label, Tree>)
    ensures forall k :: k in trees ==> Field(k) in slots && slots[Field(k)] == trees[k]
    ensures forall l :: l in slots ==> l.Field? && l.name in trees
  {
    map k | k in trees :: Field(k) := trees[k]
  }

  function MapTree<V>(m: map<string, V>, enc: V -> Tree): (t: Tree)
    ensures t.Branch? && t.shape == AnObject
    ensures forall k :: k in m ==> Field(k) in t.slots && t.slots[Field(k)] == enc(m[k])
    ensures forall l :: l in t.slots ==> l.Field? && l.name in m
  {
    Branch(AnObject, map k | k in m :: Field(k) := enc(m[k]))
  }

  /** The member of the metadata map holds this slot. */
  ghost predicate Shows<V>(t: Tree, member: string, slot: Slot<map<string, V>>, enc: V -> Tree)
    requires t.Branch?
  {
    match slot
    case Absent => Field(member) !in t.slots
    case Foreign(raw) => !raw.Obj? && Field(member) in t.slots && t.slots[Field(member)] == JsonTree(raw)
    case Is(m) => Field(member) in t.slots && t.slots[Field(member)] == MapTree(m, enc)
  }

  ghost predicate SameElsewhere(t: Tree, u: Tree, member: string)
    requires t.Branch? && u.Branch?
  {
    t.shape == u.shape && t.slots - {Field(member)} == u.slots - {Field(member)}
  }

  // ---------------------------------------------------------------- one write

  lemma MapTreePut<V>(m: map<string, V>, enc: V -> Tree, key: string, v: V)
    ensures EditedBranch(MapTree(m, enc), Field(key), Some(enc(v))) == MapTree(m[key := v], enc)
  {
    assert EditedBranch(MapTree(m, enc), Field(key), Some(enc(v))).slots == MapTree(m[key := v], enc).slots;
  }

  lemma MapTreeDrop<V>(m: map<string, V>, enc: V -> Tree, key: string)
    ensures EditedBranch(MapTree(m, enc), Field(key), None) == MapTree(m - {key}, enc)
  {
    assert EditedBranch(MapTree(m, enc), Field(key), None).slots == MapTree(m - {key}, enc).slots;
  }

  /** `ensureMap`: the map that is there, or an empty one. */
  lemma EnsuredShows<V>(t: Tree, member: string, slot: Slot<map<string, V>>, enc: V -> Tree)
    requires t.Branch? && Shows(t, member, slot, enc)
    ensures var e := Ensured(t, member, AnObject);
            e.slots[Field(member)] == MapTree(slot.Or(map[]), enc) && SameElsewhere(t, e, member)
  {
    hide JsonTree, MapTree;
    match slot {
      case Is(_) => assert Has(t, member, AnObject);
      case Foreign(raw) => NotAnObject(raw); NewMap(t, member, enc);
      case Absent => NewMap(t, member, enc);
    }
  }

  lemma NewMap<V>(t: Tree, member: string, enc: V -> Tree)
    requires t.Branch? && !Has(t, member, AnObject)
    ensures var e := Ensured(t, member, AnObject);
            e.slots[Field(member)] == MapTree(map[], enc) && SameElsewhere(t, e, member)
  {
    hide MapTree;
    EmptyMapTree(enc);
    PutElsewhere(t.slots, Field(member), Branch(AnObject, map[]));
  }

  lemma NotAnObject(j: Json)
    requires !j.Obj?
    ensures JsonTree(j).Branch? ==> JsonTree(j).shape == AList
  {
  }

  lemma EmptyMapTree<V>(enc: V -> Tree)
    ensures MapTree(map[], enc) == Branch(AnObject, map[])
  {
    assert MapTree(map[], enc).slots == map[];
  }

  lemma PutElsewhere(slots: map<Label, Tree>, l: Label, t: Tree)
    ensures slots[l := t] - {l} == slots - {l}
  {
  }

  lemma PutOne<V>(t: Tree, member: string, slot: Slot<map<string, V>>, enc: V -> Tree, key: string, v: V)
    requires t.Branch? && Shows(t, member, slot, enc)
    ensures var u := Written(t, SetIn(member, key, enc(v)));
            Shows(u, member, Is(slot.Or(map[])[key := v]), enc) && SameElsewhere(t, u, member)
  {
    hide EditedBranch, MapTree, Ensured;
    EnsuredShows(t, member, slot, enc);
    MapTreePut(slot.Or(map[]), enc, key, v);
    var e, u := Ensured(t, member, AnObject), Written(t, SetIn(member, key, enc(v)));
    assert u.slots - {Field(member)} == e.slots - {Field(member)};
  }

  lemma DropOne<V>(t: Tree, member: string, slot: Slot<map<string, V>>, enc: V -> Tree, key: string)
    requires t.Branch? && Shows(t, member, slot, enc)
    ensures var u := Written(t, DropIn(member, key));
            Shows(u, member, if slot.Is? then Is(slot.value - {key}) else slot, enc) && SameElsewhere(t, u, member)
  {
    if slot.Is? { MapTreeDrop(slot.value, enc, key); }
  }

  lemma SameElsewhereTransitive(t: Tree, u: Tree, v: Tree, member: string)
    requires t.Branch? && u.Branch? && v.Branch? && SameElsewhere(t, u, member) && SameElsewhere(u, v, member)
    ensures SameElsewhere(t, v, member)
  {
  }

  // ---------------------------------------------------------------- properties

  function PropertyWrites(updates: map<string, string>, keys: seq<string>): seq<Write>
    requires forall k :: k in keys ==> k in updates
  {
    if keys == [] then []
    else PropertyWrites(updates, keys[..|keys| - 1])
         + [SetIn(PROPERTIES, keys[|keys| - 1], Leaf(Text(updates[keys[|keys| - 1]])))]
  }

  function Chosen(updates: map<string, string>, keys: seq<string>): map<string, string> {
    map k | k in keys && k in updates :: updates[k]
  }

  /** Setting properties one by one, in whatever order their map is visited, merges them. */
  lemma {:induction false} SetPropertiesInPlace(t: Tree, slot: Slot<map<string, Json>>, updates: map<string, string>, keys: seq<string>)
    requires t.Branch? && Shows(t, PROPERTIES, slot, JsonTree) && forall k :: k in keys ==> k in updates
    ensures var u := WrittenAll(t, PropertyWrites(updates, keys));
            Shows(u, PROPERTIES, MergeProperties(slot, Chosen(updates, keys)), JsonTree) && SameElsewhere(t, u, PROPERTIES)
    decreases |keys|
  {
    hide Written, Shows, SameElsewhere, MergeProperties, JsonTree;
    if keys == [] {
      NothingChosen(slot, updates);
      SameElsewhereReflexive(t, PROPERTIES);
    } else {
      var init, last := keys[..|keys| - 1], keys[|keys| - 1];
      var writes := PropertyWrites(updates, keys);
      SetPropertiesInPlace(t, slot, updates, init);
      var mid := WrittenAll(t, PropertyWrites(updates, init));
      assert writes[..|writes| - 1] == PropertyWrites(updates, init);
      PutOne(mid, PROPERTIES, MergeProperties(slot, Chosen(updates, init)), JsonTree, last, Str(updates[last]));
      StrTree(updates[last]);
      SameElsewhereTransitive(t, mid, WrittenAll(t, writes), PROPERTIES);
      MergeOneMore(slot, updates, init, last);
      assert init + [last] == keys;
    }
  }

  /** All of them, in any order: the request's whole map is merged. */
  lemma SetAllPropertiesInPlace(t: Tree, slot: Slot<map<string, Json>>, updates: map<string, string>, keys: seq<string>)
    requires t.Branch? && Shows(t, PROPERTIES, slot, JsonTree) && forall k :: k in keys <==> k in updates
    ensures var u := WrittenAll(t, PropertyWrites(updates, keys));
            Shows(u, PROPERTIES, MergeProperties(slot, updates), JsonTree) && SameElsewhere(t, u, PROPERTIES)
  {
    hide Shows, SameElsewhere, MergeProperties, JsonTree, WrittenAll;
    SetPropertiesInPlace(t, slot, updates, keys);
    assert Chosen(updates, keys) == updates;
  }

  lemma StrTree(s: string)
    ensures JsonTree(Str(s)) == Leaf(Text(s))
  {
  }

  lemma NothingChosen(slot: Slot<map<string, Json>>, updates: map<string, string>)
    ensures MergeProperties(slot, Chosen(updates, [])) == slot
  {
    assert Chosen(updates, []) == map[];
  }

  lemma SameElsewhereReflexive(t: Tree, member: string)
    requires t.Branch?
    ensures SameElsewhere(t, t, member)
  {
  }

  lemma MergeOneMore(slot: Slot<map<string, Json>>, updates: map<string, string>, keys: seq<string>, key: string)
    requires key in updates
    ensures Is(MergeProperties(slot, Chosen(updates, keys)).Or(map[])[key := Str(updates[key])])
         == MergeProperties(slot, Chosen(updates, keys + [key]))
  {
    var before, after := Chosen(updates, keys), Chosen(updates, keys + [key]);
    assert key in after && after == before[key := updates[key]];
    var merged := slot.Or(map[]) + map k | k in after :: Str(after[k]);
    var grown := MergeProperties(slot, before).Or(map[])[key := Str(updates[key])];
    assert grown.Keys == merged.Keys;
    assert grown == merged;
  }

  function RemovalWrites(removals: seq<string>): seq<Write> {
    seq(|removals|, i requires 0 <= i < |removals| => DropIn(PROPERTIES, removals[i]))
  }

  lemma {:induction false} RemovePropertiesInPlace(t: Tree, slot: Slot<map<string, Json>>, removals: seq<string>)
    requires t.Branch? && Shows(t, PROPERTIES, slot, JsonTree)
    ensures var u := WrittenAll(t, RemovalWrites(removals));
            Shows(u, PROPERTIES, DropProperties(slot, removals), JsonTree) && SameElsewhere(t, u, PROPERTIES)
    decreases |removals|
  {
    hide Written, Shows, SameElsewhere;
    if removals == [] {
      SameElsewhereReflexive(t, PROPERTIES);
    } else {
      var init, last := removals[..|removals| - 1], removals[|removals| - 1];
      var writes := RemovalWrites(removals);
      RemovePropertiesInPlace(t, slot, init);
      var mid := WrittenAll(t, RemovalWrites(init));
      assert writes[..|writes| - 1] == RemovalWrites(init);
      DropOne(mid, PROPERTIES, DropProperties(slot, init), JsonTree, last);
      SameElsewhereTransitive(t, mid, WrittenAll(t, writes), PROPERTIES);
      if slot.Is? {
        assert ToSet(removals) == ToSet(init) + {last};
        assert slot.value - ToSet(init) - {last} == slot.value - ToSet(removals);
        assert init == [] ==> ToSet(init) == {} && slot.value - ToSet(init) == slot.value;
      }
    }
  }

  // ---------------------------------------------------------------- references

  function RefTree(r: Ref): Tree {
    JsonTree(WriteRef(r))
  }

  ghost predicate ShowsNumber(t: Tree, member: string, slot: Slot<int>)
    requires t.Branch?
  {
    match slot
    case Absent => Field(member) !in t.slots
    case Foreign(raw) => !raw.Num? && Field(member) in t.slots && t.slots[Field(member)] == JsonTree(raw)
    case Is(n) => Field(member) in t.slots && t.slots[Field(member)] == Leaf(Number(n))
  }

  /** The metadata map holds these references and this current snapshot. */
  ghost predicate ShowsRefs(t: Tree, s: Snapshots) {
    t.Branch? && Shows(t, REFS, s.refs, RefTree) && ShowsNumber(t, CURRENT_SNAPSHOT, s.current)
  }

  function SetRefWrites(name: string, kind: string, id: int, retention: Retention): seq<Write> {
    [SetIn(REFS, name, RefTree(Ref(Some(kind), Some(id), retention)))]
    + (if name == MAIN && kind == BRANCH then [SetMember(CURRENT_SNAPSHOT, Leaf(Number(id)))] else [])
  }

  lemma CurrentStays(t: Tree, u: Tree, slot: Slot<int>)
    requires t.Branch? && u.Branch? && SameElsewhere(t, u, REFS) && ShowsNumber(t, CURRENT_SNAPSHOT, slot)
    ensures ShowsNumber(u, CURRENT_SNAPSHOT, slot)
  {
    assert CURRENT_SNAPSHOT != REFS by { assert |CURRENT_SNAPSHOT| != |REFS|; }
    assert Field(CURRENT_SNAPSHOT) in t.slots <==> Field(CURRENT_SNAPSHOT) in (t.slots - {Field(REFS)});
    assert Field(CURRENT_SNAPSHOT) in u.slots <==> Field(CURRENT_SNAPSHOT) in (u.slots - {Field(REFS)});
    if Field(CURRENT_SNAPSHOT) in t.slots {
      assert (t.slots - {Field(REFS)})[Field(CURRENT_SNAPSHOT)] == (u.slots - {Field(REFS)})[Field(CURRENT_SNAPSHOT)];
    }
  }

  lemma RefsStay(t: Tree, u: Tree, slot: Slot<map<string, Ref>>)
    requires t.Branch? && u.Branch? && SameElsewhere(t, u, CURRENT_SNAPSHOT) && Shows(t, REFS, slot, RefTree)
    ensures Shows(u, REFS, slot, RefTree)
  {
    assert CURRENT_SNAPSHOT != REFS by { assert |CURRENT_SNAPSHOT| != |REFS|; }
    assert Field(REFS) in t.slots <==> Field(REFS) in (t.slots - {Field(CURRENT_SNAPSHOT)});
    assert Field(REFS) in u.slots <==> Field(REFS) in (u.slots - {Field(CURRENT_SNAPSHOT)});
    if Field(REFS) in t.slots {
      assert (t.slots - {Field(CURRENT_SNAPSHOT)})[Field(REFS)] == (u.slots - {Field(CURRENT_SNAPSHOT)})[Field(REFS)];
    }
  }

  /** Nothing but references and current snapshot differs. */
  ghost predicate SameBesidesRefs(t: Tree, u: Tree)
    requires t.Branch? && u.Branch?
  {
    t.shape == u.shape && t.slots - {Field(REFS), Field(CURRENT_SNAPSHOT)} == u.slots - {Field(REFS), Field(CURRENT_SNAPSHOT)}
  }

  lemma OneOfTheTwo(t: Tree, u: Tree, member: string)
    requires t.Branch? && u.Branch? && SameElsewhere(t, u, member) && (member == REFS || member == CURRENT_SNAPSHOT)
    ensures SameBesidesRefs(t, u)
  {
    var both := {Field(REFS), Field(CURRENT_SNAPSHOT)};
    assert t.slots - {Field(member)} - both == t.slots - both;
    assert u.slots - {Field(member)} - both == u.slots - both;
  }

  lemma SameBesidesRefsTransitive(t: Tree, u: Tree, v: Tree)
    requires t.Branch? && u.Branch? && v.Branch? && SameBesidesRefs(t, u) && SameBesidesRefs(u, v)
    ensures SameBesidesRefs(t, v)
  {
  }

  lemma WriteOne(t: Tree, w: Write)
    requires t.Branch?
    ensures WrittenAll(t, [w]) == Written(t, w)
  {
    assert [w][..0] == [];
  }

  lemma WriteTwo(t: Tree, v: Write, w: Write)
    requires t.Branch?
    ensures WrittenAll(t, [v] + [w]) == Written(Written(t, v), w)
  {
    WriteOne(t, v);
    assert ([v] + [w])[..1] == [v];
  }

  lemma EditCurrent(t: Tree, change: Option<int>)
    requires t.Branch?
    ensures var w := if change.Some? then SetMember(CURRENT_SNAPSHOT, Leaf(Number(change.value))) else DropMember(CURRENT_SNAPSHOT);
            ShowsNumber(Written(t, w), CURRENT_SNAPSHOT, if change.Some? then Is(change.value) else Absent)
            && SameElsewhere(t, Written(t, w), CURRENT_SNAPSHOT)
  {
  }

  /** Setting a reference in place is the handler's effect on references and current snapshot. */
  lemma SetRefInPlace(t: Tree, s: Snapshots, name: string, kind: string, id: int, retention: Retention)
    requires ShowsRefs(t, s) && SetRef(s, name, kind, id, retention).error.None?
    ensures var u := WrittenAll(t, SetRefWrites(name, kind, id, retention));
            ShowsRefs(u, SetRef(s, name, kind, id, retention).state) && SameBesidesRefs(t, u)
  {
    hide Written, Shows, ShowsNumber, SameElsewhere, SameBesidesRefs, RefTree, HasKey;
    var ref := Ref(Some(kind), Some(id), retention);
    var first := SetIn(REFS, name, RefTree(ref));
    var u := Written(t, first);
    PutOne(t, REFS, s.refs, RefTree, name, ref);
    CurrentStays(t, u, s.current);
    OneOfTheTwo(t, u, REFS);
    if name == MAIN && kind == BRANCH {
      EditCurrent(u, Some(id));
      var second := SetMember(CURRENT_SNAPSHOT, Leaf(Number(id)));
      OneOfTheTwo(u, Written(u, second), CURRENT_SNAPSHOT);
      SameBesidesRefsTransitive(t, u, Written(u, second));
      RefsStay(u, Written(u, second), Is(s.refs.Or(map[])[name := ref]));
      WriteTwo(t, first, second);
    } else {
      assert SetRefWrites(name, kind, id, retention) == [first];
      WriteOne(t, first);
    }
  }

  function RemoveRefWrites(s: Snapshots, name: string): seq<Write> {
    (if name == MAIN && s.refs.Is? && name in s.refs.value && IsBranch(s.refs.value[name]) then [DropMember(CURRENT_SNAPSHOT)] else [])
    + [DropIn(REFS, name)]
  }

  lemma RemoveRefInPlace(t: Tree, s: Snapshots, name: string)
    requires ShowsRefs(t, s) && DropRef(s, name).error.None?
    ensures var u := WrittenAll(t, RemoveRefWrites(s, name));
            ShowsRefs(u, DropRef(s, name).state) && SameBesidesRefs(t, u)
  {
    hide Written, Shows, ShowsNumber, SameElsewhere, SameBesidesRefs, RefTree;
    var last := DropIn(REFS, name);
    if name == MAIN && s.refs.Is? && name in s.refs.value && IsBranch(s.refs.value[name]) {
      var first := DropMember(CURRENT_SNAPSHOT);
      var u := Written(t, first);
      EditCurrent(t, None);
      RefsStay(t, u, s.refs);
      DropOne(u, REFS, s.refs, RefTree, name);
      CurrentStays(u, Written(u, last), Absent);
      OneOfTheTwo(t, u, CURRENT_SNAPSHOT);
      OneOfTheTwo(u, Written(u, last), REFS);
      SameBesidesRefsTransitive(t, u, Written(u, last));
      WriteTwo(t, first, last);
    } else {
      DropOne(t, REFS, s.refs, RefTree, name);
      CurrentStays(t, Written(t, last), s.current);
      OneOfTheTwo(t, Written(t, last), REFS);
      assert RemoveRefWrites(s, name) == [last];
      WriteOne(t, last);
    }
  }
}
