/** What each update means to someone who looks things up: when it succeeds, and what is then
    found where. The rest of the metadata is as it was. */
module Effects {
  import opened Options
  import opened JsonValues
  import opened TableMetadata
  import opened Updates
  import opened Handlers
  import opened ItemLemmas
  import opened Failures

  /** Same list, less what was removed, plus what was added: membership, and the order of what stays. */
  ghost predicate Edited<K(!new), D(!new)>(before: seq<Item<K, D>>, after: seq<Item<K, D>>, gone: set<K>,
                                           added: seq<Item<K, D>>)
  {
    && |added| <= |after| && after[|after| - |added|..] == added
    && var kept := after[..|after| - |added|];
       && (forall x :: x in kept <==> x in before && !(x.Key().Some? && x.Key().value in gone))
       && KeepsOrder(before, kept)
  }

  /** The kept elements are found in the old list at increasing positions. */
  ghost predicate KeepsOrder<T(!new)>(before: seq<T>, kept: seq<T>) {
    exists at: seq<nat> :: Places(before, kept, at)
  }

  ghost predicate Places<T(!new)>(before: seq<T>, kept: seq<T>, at: seq<nat>) {
    && |at| == |kept|
    && (forall i :: 0 <= i < |at| ==> at[i] < |before| && before[at[i]] == kept[i])
    && (forall i, j :: 0 <= i < j < |at| ==> at[i] < at[j])
  }

  lemma {:induction false} WithoutPlaces<K(!new), D(!new)>(items: seq<Item<K, D>>, gone: set<K>) returns (at: seq<nat>)
    ensures Places(items, Without(items, gone), at)
  {
    hide Places;
    at := [];
    if items == [] {
      NothingPlaced(items);
    } else {
      var init, last := items[..|items| - 1], items[|items| - 1];
      at := WithoutPlaces(init, gone);
      PlacesGrow(init, Without(init, gone), at, last);
      assert items == init + [last];
      if !(last.Key().Some? && last.Key().value in gone) { at := at + [|init|]; }
    }
  }

  lemma NothingPlaced<T(!new)>(before: seq<T>)
    ensures Places(before, [], [])
  {
  }

  lemma PlacesGrow<T(!new)>(before: seq<T>, kept: seq<T>, at: seq<nat>, x: T)
    requires Places(before, kept, at)
    ensures Places(before + [x], kept, at) && Places(before + [x], kept + [x], at + [|before|])
  {
    forall i | 0 <= i < |at| ensures at[i] < |before| && (before + [x])[at[i]] == kept[i] {
      assert before[at[i]] == kept[i];
    }
  }

  lemma FilteredThenAppended<K(!new), D(!new)>(before: seq<Item<K, D>>, gone: set<K>, added: seq<Item<K, D>>)
    ensures Edited(before, Without(before, gone) + added, gone, added)
  {
    hide Places;
    var after := Without(before, gone) + added;
    assert after[..|after| - |added|] == Without(before, gone);
    var at := WithoutPlaces(before, gone);
    forall x ensures x in Without(before, gone) <==> x in before && !(x.Key().Some? && x.Key().value in gone) {
      WithoutMembers(before, gone, x);
    }
  }

  lemma Appended<K(!new), D(!new)>(before: seq<Item<K, D>>, added: seq<Item<K, D>>)
    ensures Edited(before, before + added, {}, added)
  {
    hide Edited;
    FilteredThenAppended(before, {}, added);
    WithoutNothing(before, {});
  }

  // ---------------------------------------------------------------- core attributes and properties

  lemma UuidAndVersionAndLocation(m: Metadata, uuid: string, version: int, location: string)
    ensures ApplyUpdate(m, AssignUuid(uuid)).error.None? <==>
              uuid != "" && (m.tableUuid.Or("") == "" || m.tableUuid == Is(uuid))
    ensures ApplyUpdate(m, AssignUuid(uuid)).error.None? ==>
              ApplyUpdate(m, AssignUuid(uuid)).state == m.(tableUuid := Is(uuid))
    ensures ApplyUpdate(m, UpgradeFormatVersion(version)).error.None? <==>
              1 <= version <= 3 && m.formatVersion.Or(0) <= version
    ensures ApplyUpdate(m, UpgradeFormatVersion(version)).error.None? ==>
              ApplyUpdate(m, UpgradeFormatVersion(version)).state == m.(formatVersion := Is(version))
    ensures ApplyUpdate(m, SetLocation(location)).error.None? <==> location != ""
    ensures location != "" ==> ApplyUpdate(m, SetLocation(location)).state == m.(location := Is(location))
  {
  }

  /** Setting and removing properties, key by key. */
  lemma PropertyByProperty(m: Metadata, updates: map<string, string>, removals: seq<string>, key: string)
    ensures var after := ApplyUpdate(m, SetProperties(updates)).state.properties.Or(map[]);
            && (key in after <==> key in updates || key in m.properties.Or(map[]))
            && (key in updates ==> after[key] == Str(updates[key]))
            && (key !in updates && key in m.properties.Or(map[]) ==> after[key] == m.properties.Or(map[])[key])
    ensures var after := ApplyUpdate(m, RemoveProperties(removals)).state.properties.Or(map[]);
            && (key in after <==> key in m.properties.Or(map[]) && key !in removals)
            && (key in after ==> after[key] == m.properties.Or(map[])[key])
  {
  }

  // ---------------------------------------------------------------- schemas, specs, sort orders

  /** The mark is the largest of the old mark, the entry's field ids, and the hint. */
  ghost predicate IsLargest(top: int, before: int, fields: FieldIds, hint: Option<int>) {
    && top >= before
    && (fields.Some? ==> forall i :: 0 <= i < |fields.value| && fields.value[i].Some? ==> fields.value[i].value <= top)
    && (hint.Some? ==> hint.value <= top)
    && (top == before || top == 0 || hint == Some(top) || (fields.Some? && Some(top) in fields.value))
  }

  lemma {:induction false} MaxFieldIdIsPresent(ids: seq<Option<int>>)
    ensures MaxFieldId(ids) == 0 || Some(MaxFieldId(ids)) in ids
  {
    if ids != [] {
      MaxFieldIdIsPresent(ids[..|ids| - 1]);
      assert forall x :: x in ids[..|ids| - 1] ==> x in ids;
      assert ids[|ids| - 1] in ids;
    }
  }

  /** Adding an entry succeeds exactly when there is one and its id is new; it goes to the end. */
  lemma EntryAdded(f: Family, doc: Option<FamilyDoc>, hint: Option<int>)
    ensures var s := AddEntry(f, doc, hint);
            && (s.error.None? <==> doc.Some? && !HasKey(f.entries.Or([]), AssignedId(f.entries.Or([]), doc.value)))
            && (s.error.None? ==>
                  && s.state.pointer == f.pointer && s.state.entries.Is?
                  && Edited(f.entries.Or([]), s.state.entries.value, {},
                            [Object(doc.value.(key := Some(AssignedId(f.entries.Or([]), doc.value))))])
                  && IsLargest(s.state.lastFieldId.Or(0), f.lastFieldId.Or(0), doc.value.detail, hint))
            && (s.error.Some? ==> s.state == f)
  {
    hide HasKey, Edited;
    AddIsAtomic(f, doc, hint);
    var items := f.entries.Or([]);
    if AddEntry(f, doc, hint).error.None? {
      Appended(items, [Object(doc.value.(key := Some(AssignedId(items, doc.value))))]);
      LargestOf(f.lastFieldId, doc.value.detail, hint);
    }
  }

  lemma LargestOf(slot: Slot<int>, fields: FieldIds, hint: Option<int>)
    ensures IsLargest(RaiseByHint(RaiseByFields(slot, fields), hint).Or(0), slot.Or(0), fields, hint)
  {
    if fields.Some? {
      MaxFieldIdIsPresent(fields.value);
      forall i | 0 <= i < |fields.value| && fields.value[i].Some? ensures fields.value[i].value <= MaxFieldId(fields.value) {
        MaxFieldIdBounds(fields.value, i);
      }
    }
  }

  /** Selecting succeeds exactly when the target is present, or is -1 and the last entry has an id. */
  lemma EntrySelected(f: Family, target: int)
    ensures var items := f.entries.Or([]);
            var byPosition := items != [] && target == -1 && items[|items| - 1].Key().Some?;
            && (SetPointer(f, target).error.None? <==> byPosition || HasKey(items, target))
            && (SetPointer(f, target).error.None? ==>
                  SetPointer(f, target).state ==
                    f.(pointer := Is(if byPosition then items[|items| - 1].Key().value else target)))
            && (SetPointer(f, target).error.Some? ==> SetPointer(f, target).state == f)
  {
  }

  /** Removing succeeds exactly when there is nothing to do, or the selected entry is not asked for
      and an entry is left. */
  lemma EntriesRemoved(f: Family, ids: seq<int>)
    ensures var items, s := f.entries.Or([]), RemoveEntries(f, ids);
            && (s.error.None? <==>
                  ids == [] || items == []
                  || (f.pointer.Or(0) !in ids && exists x :: x in items && !(x.Key().Some? && x.Key().value in ids)))
            && (s.error.None? && items != [] ==>
                  s.state.(entries := f.entries) == f && s.state.entries.Is?
                  && Edited(items, s.state.entries.value, ToSet(ids), []))
            && (s.error.Some? ==> s.state == f)
  {
    hide Edited;
    var items := f.entries.Or([]);
    FilteredThenAppended(items, ToSet(ids), []);
    assert Without(items, ToSet(ids)) + [] == Without(items, ToSet(ids));
    if ids == [] {
      WithoutNothing(items, ToSet(ids));
    }
    SomethingKept(items, ids);
  }

  lemma SomethingKept(items: seq<FamilyItem>, ids: seq<int>)
    ensures Without(items, ToSet(ids)) != [] <==> exists x :: x in items && !(x.Key().Some? && x.Key().value in ids)
  {
    var kept := Without(items, ToSet(ids));
    if kept != [] {
      WithoutMembers(items, ToSet(ids), kept[0]);
      assert kept[0] in items;
    }
    if x :| x in items && !(x.Key().Some? && x.Key().value in ids) {
      WithoutMembers(items, ToSet(ids), x);
    }
  }

  // ---------------------------------------------------------------- snapshots

  /** Adding a snapshot succeeds exactly when it has a new id and a timestamp; list and log grow by it. */
  lemma SnapshotAdded(s: Snapshots, doc: Option<SnapshotDoc>)
    ensures var r := PutSnapshot(s, doc);
            && (r.error.None? <==>
                  doc.Some? && doc.value.key.Some? && doc.value.detail.timestampMs.Some?
                  && !HasKey(s.list.Or([]), doc.value.key.value))
            && (r.error.None? ==>
                  && r.state.current == s.current && r.state.refs == s.refs
                  && r.state.list == Is(s.list.Or([]) + [Object(doc.value)])
                  && r.state.log == Is(s.log.Or([]) + [Object(Doc(doc.value.key, doc.value.detail.timestampMs, map[]))])
                  && IsLargest(r.state.lastSequence.Or(0), s.lastSequence.Or(0), None, doc.value.detail.sequenceNumber))
            && (r.error.Some? ==> r.state == s)
  {
    hide HasKey;
    PutIsAtomic(s, doc);
  }

  /** Setting a reference succeeds exactly for a named branch or tag whose id is present or negative. */
  lemma ReferenceSet(s: Snapshots, name: string, kind: string, id: int, retention: Retention, other: string)
    ensures var r := SetRef(s, name, kind, id, retention);
            && (r.error.None? <==> name != "" && (kind == "branch" || kind == "tag") && (id < 0 || HasKey(s.list.Or([]), id)))
            && (r.error.None? ==>
                  && r.state.list == s.list && r.state.log == s.log && r.state.lastSequence == s.lastSequence
                  && name in r.state.refs.Or(map[]) && r.state.refs.value[name] == Ref(Some(kind), Some(id), retention)
                  && (other != name ==> (other in r.state.refs.value <==> other in s.refs.Or(map[])))
                  && (other != name && other in s.refs.Or(map[]) ==> r.state.refs.value[other] == s.refs.value[other])
                  && r.state.current == (if name == "main" && kind == "branch" then Is(id) else s.current))
            && (r.error.Some? ==> r.state == s)
  {
    hide HasKey;
  }

  /** Removing snapshots succeeds exactly when there is nothing to do or none of them is referenced
      or current. */
  lemma SnapshotsRemoved(s: Snapshots, ids: seq<int>)
    ensures var r := DropSnapshots(s, ids);
            var asked := ids != [] && s.list.Or([]) != [];
            && (r.error.None? <==> !asked || (!RefersInto(s.refs.Or(map[]), ids) && !(s.current.Is? && s.current.value in ids)))
            && (r.error.None? && asked ==>
                  r.state.(list := s.list) == s && r.state.list.Is?
                  && Edited(s.list.Or([]), r.state.list.value, ToSet(ids), []))
            && (r.error.Some? || !asked ==> r.state == s)
  {
    hide Edited, RefersInto;
    FilteredThenAppended(s.list.Or([]), ToSet(ids), []);
    assert Without(s.list.Or([]), ToSet(ids)) + [] == Without(s.list.Or([]), ToSet(ids));
  }

  lemma ReferenceRemoved(s: Snapshots, name: string, other: string)
    ensures var r := DropRef(s, name);
            && (r.error.None? <==> name != "")
            && (r.error.None? ==>
                  && r.state.list == s.list && r.state.log == s.log && r.state.lastSequence == s.lastSequence
                  && name !in r.state.refs.Or(map[])
                  && (other != name ==> (other in r.state.refs.Or(map[]) <==> other in s.refs.Or(map[])))
                  && (other != name && other in s.refs.Or(map[]) ==> r.state.refs.Or(map[])[other] == s.refs.Or(map[])[other])
                  && r.state.current ==
                       (if name == MAIN && MAIN in s.refs.Or(map[]) && IsBranch(s.refs.value[MAIN]) then Absent else s.current))
            && (r.error.Some? ==> r.state == s)
  {
  }

  // ---------------------------------------------------------------- statistics and encryption keys

  /** Setting statistics succeeds exactly when they come with a snapshot id, their own or the
      deprecated one; they replace those of the same snapshot. */
  lemma StatisticsSet(slot: Slot<seq<StatItem>>, doc: Option<StatDoc>, deprecatedId: Option<int>)
    ensures var r := SetStatistic(slot, doc, deprecatedId);
            && (r.error.None? <==> doc.Some? && (doc.value.key.Some? || deprecatedId.Some?))
            && (r.error.None? ==>
                  var id := if doc.value.key.Some? then doc.value.key.value else deprecatedId.value;
                  r.state.Is? && Edited(slot.Or([]), r.state.value, {id}, [Object(doc.value.(key := Some(id)))]))
            && (r.error.Some? ==> r.state == slot)
  {
    hide Edited;
    if SetStatistic(slot, doc, deprecatedId).error.None? {
      var id := if doc.value.key.Some? then doc.value.key.value else deprecatedId.value;
      FilteredThenAppended(slot.Or([]), {id}, [Object(doc.value.(key := Some(id)))]);
    }
  }

  lemma StatisticsRemoved(slot: Slot<seq<StatItem>>, id: int)
    ensures Edited(slot.Or([]), DropStatistic(slot, id).Or([]), {id}, [])
    ensures !HasKey(DropStatistic(slot, id).Or([]), id)
  {
    hide Edited;
    FilteredThenAppended(slot.Or([]), {id}, []);
    assert Without(slot.Or([]), {id}) + [] == Without(slot.Or([]), {id});
    WithoutKeys(slot.Or([]), {id}, id);
  }

  /** An encryption key is added exactly when it has a new, non-empty id. */
  lemma KeyAddedOrRemoved(slot: Slot<seq<KeyItem>>, doc: Option<KeyDoc>, id: string)
    ensures PutKey(slot, doc).error.None? <==>
              doc.Some? && doc.value.key.Some? && doc.value.key.value != "" && !HasKey(slot.Or([]), doc.value.key.value)
    ensures PutKey(slot, doc).error.None? ==> PutKey(slot, doc).state == Is(slot.Or([]) + [Object(doc.value)])
    ensures DropKey(slot, id).error.None? <==> id != ""
    ensures id != "" ==> Edited(slot.Or([]), DropKey(slot, id).state.Or([]), {id}, [])
  {
    hide Edited, HasKey;
    FilteredThenAppended(slot.Or([]), {id}, []);
    assert Without(slot.Or([]), {id}) + [] == Without(slot.Or([]), {id});
  }
}
