/** Exactly when a request that only removes references and snapshots succeeds, and what it leaves. */
module Cleanup {
  import opened Options
  import opened TableMetadata
  import opened Updates
  import opened Handlers
  import opened StableSort
  import opened Requests
  import opened ItemLemmas
  import opened SnapshotIntegrity
  import opened Selection

  predicate IsCleanup(u: Update) {
    u.RemoveSnapshots? || (u.RemoveSnapshotRef? && u.oldRefName != "")
  }

  /** The reference names a request removes. */
  function NamesOf(us: seq<Update>): set<string> {
    set u | u in us && u.RemoveSnapshotRef? :: u.oldRefName
  }

  /** The snapshot ids a request removes. */
  function IdsOf(us: seq<Update>): set<int> {
    set u, id | u in us && u.RemoveSnapshots? && id in u.snapshotIds :: id
  }

  /** The state after the references are gone; "main" takes the current snapshot with it if a branch. */
  function AfterRefs(s: Snapshots, names: set<string>): Snapshots {
    if !s.refs.Is? then s
    else
      s.(refs := Is(s.refs.value - names),
         current := if MAIN in names && MAIN in s.refs.value && IsBranch(s.refs.value[MAIN]) then Absent else s.current)
  }

  /** Some reference or the current snapshot lies in the set. */
  predicate InUse(s: Snapshots, ids: set<int>) {
    var refs := s.refs.Or(map[]);
    || (exists name :: name in refs && refs[name].Ref? && refs[name].snapshotId.Some? && refs[name].snapshotId.value in ids)
    || (s.current.Is? && s.current.value in ids)
  }

  /** References and the current snapshot have non-negative ids and resolve. */
  ghost predicate Resolved(s: Snapshots) {
    var refs := s.refs.Or(map[]);
    && (forall name :: name in refs && refs[name].Ref? && refs[name].snapshotId.Some? ==>
          HasKey(s.list.Or([]), refs[name].snapshotId.value))
    && (s.current.Is? ==> HasKey(s.list.Or([]), s.current.value))
  }

  // ---------------------------------------------------------------- references first

  lemma {:induction false} DropAllRefs(m: Metadata, us: seq<Update>)
    requires forall u :: u in us ==> u.RemoveSnapshotRef? && u.oldRefName != ""
    ensures Run(m, us) == Outcome(m.(snaps := AfterRefs(m.snaps, NamesOf(us))), None)
    decreases |us|
  {
    if us == [] {
      assert NamesOf(us) == {};
      assert m.snaps.refs.Is? ==> m.snaps.refs.value - {} == m.snaps.refs.value;
    } else {
      var u, rest := us[0], us[1..];
      assert us == [u] + rest;
      assert NamesOf(us) == {u.oldRefName} + NamesOf(rest);
      var n := ApplyUpdate(m, u).state;
      DropAllRefs(n, rest);
      if m.snaps.refs.Is? {
        assert m.snaps.refs.value - {u.oldRefName} - NamesOf(rest) == m.snaps.refs.value - NamesOf(us);
      }
    }
  }

  // ---------------------------------------------------------------- then snapshots

  lemma ReferencedIsInUse(s: Snapshots, ids: seq<int>)
    ensures InUse(s, ToSet(ids)) <==>
              RefersInto(s.refs.Or(map[]), ids) || (s.current.Is? && s.current.value in ids)
  {
    var refs := s.refs.Or(map[]);
    if RefersInto(refs, ids) {
      var name :| name in refs && refs[name].Ref? && refs[name].snapshotId.Some? && refs[name].snapshotId.value in ids;
      assert refs[name].snapshotId.value in ToSet(ids);
    }
  }

  lemma InUseUnion(s: Snapshots, a: set<int>, b: set<int>)
    ensures InUse(s, a + b) <==> InUse(s, a) || InUse(s, b)
  {
    var refs := s.refs.Or(map[]);
    if InUse(s, a + b) && !(s.current.Is? && s.current.value in a + b) {
      var name :| name in refs && refs[name].Ref? && refs[name].snapshotId.Some? && refs[name].snapshotId.value in a + b;
      assert refs[name].snapshotId.value in a || refs[name].snapshotId.value in b;
    }
  }

  /** One removal succeeds exactly when nothing in it is in use, and keeps everything resolved. */
  lemma DropOnce(s: Snapshots, ids: seq<int>)
    requires Resolved(s)
    ensures var t := DropSnapshots(s, ids);
            && (t.error.None? <==> !InUse(s, ToSet(ids)))
            && (t.error.None? ==>
                  && Resolved(t.state)
                  && t.state.list.Or([]) == Without(s.list.Or([]), ToSet(ids))
                  && t.state == s.(list := t.state.list))
  {
    var list := s.list.Or([]);
    ReferencedIsInUse(s, ids);
    if ids == [] {
      WithoutNothing(list, ToSet(ids));
    } else if list != [] && !InUse(s, ToSet(ids)) {
      forall key | HasKey(list, key) && key !in ids ensures HasKey(Without(list, ToSet(ids)), key) {
        WithoutKeys(list, ToSet(ids), key);
      }
    }
  }

  lemma IdsOfCons(u: Update, rest: seq<Update>)
    requires u.RemoveSnapshots?
    ensures IdsOf([u] + rest) == ToSet(u.snapshotIds) + IdsOf(rest)
  {
    forall id ensures id in IdsOf([u] + rest) <==> id in ToSet(u.snapshotIds) + IdsOf(rest) {
      if id in u.snapshotIds { assert u in [u] + rest; }
      if id in IdsOf(rest) {
        var v :| v in rest && v.RemoveSnapshots? && id in v.snapshotIds;
        assert v in [u] + rest;
      }
    }
  }

  lemma {:induction false} DropAll(m: Metadata, us: seq<Update>)
    requires Resolved(m.snaps) && forall u :: u in us ==> u.RemoveSnapshots?
    ensures Run(m, us).failure.None? <==> !InUse(m.snaps, IdsOf(us))
    ensures Run(m, us).failure.None? ==>
              var after := Run(m, us).meta;
              && after.snaps.list.Or([]) == Without(m.snaps.list.Or([]), IdsOf(us))
              && after == m.(snaps := m.snaps.(list := after.snaps.list))
    decreases |us|
  {
    if us == [] {
      assert IdsOf(us) == {};
      WithoutNothing(m.snaps.list.Or([]), {});
    } else {
      var u, rest := us[0], us[1..];
      IdsOfCons(u, rest);
      assert us == [u] + rest;
      DropOnce(m.snaps, u.snapshotIds);
      InUseUnion(m.snaps, ToSet(u.snapshotIds), IdsOf(rest));
      var s := ApplyUpdate(m, u);
      if s.error.None? {
        DropAll(s.state, rest);
        WithoutTwice(m.snaps.list.Or([]), ToSet(u.snapshotIds), IdsOf(rest));
        assert InUse(s.state.snaps, IdsOf(rest)) == InUse(m.snaps, IdsOf(rest));
      }
    }
  }

  // ---------------------------------------------------------------- the whole request

  lemma AfterRefsResolved(s: Snapshots, names: set<string>)
    requires Resolved(s)
    ensures Resolved(AfterRefs(s, names))
  {
    var t := AfterRefs(s, names);
    forall name | name in t.refs.Or(map[]) && t.refs.value[name].Ref? && t.refs.value[name].snapshotId.Some?
      ensures HasKey(t.list.Or([]), t.refs.value[name].snapshotId.value)
    {
      assert name in s.refs.Or(map[]);
    }
  }

  lemma SomeMember(us: seq<Update>)
    requires us != []
    ensures exists u :: u in us
  {
    assert us[0] in us;
  }

  lemma NoMembers(us: seq<Update>)
    requires forall u :: u !in us
    ensures us == []
  {
    if us != [] { SomeMember(us); }
  }

  lemma CleanupRank(u: Update)
    ensures u.RemoveSnapshotRef? <==> Rank(u) == 17
    ensures u.RemoveSnapshots? <==> Rank(u) == 18
  {
  }

  /** The reordered cleanup request: references, then snapshots. */
  lemma CleanupSplits(us: seq<Update>)
    requires forall u :: u in us ==> IsCleanup(u)
    ensures Sorted(us) == OfRank(us, 17) + OfRank(us, 18)
    ensures forall u :: u in OfRank(us, 17) <==> u in us && u.RemoveSnapshotRef?
    ensures forall u :: u in OfRank(us, 18) <==> u in us && u.RemoveSnapshots?
  {
    hide Rank, OfRank, BelowRank, Sorted;
    forall u: Update ensures (u.RemoveSnapshotRef? <==> Rank(u) == 17) && (u.RemoveSnapshots? <==> Rank(u) == 18) {
      CleanupRank(u);
    }
    OfRankMembers(us, 17);
    OfRankMembers(us, 18);
    SortedSplits(us, 17);
    BelowRankMembers(us, 17);
    var below, above := BelowRank(us, 17), FromRank(us, 19);
    NoMembers(below);
    FromRankMembers(us, 19);
    NoMembers(above);
    assert FromRank(us, 17) == OfRank(us, 17) + (OfRank(us, 18) + above);
  }

  /** A cleanup request, in whatever order it is written, succeeds exactly when, once its references
      are gone, nothing it removes is in use; then the snapshots left are the old ones in order. */
  lemma CleanupSucceedsExactlyWhenUnused(m: Metadata, us: seq<Update>)
    requires Resolved(m.snaps) && forall u :: u in us ==> IsCleanup(u)
    ensures Run(m, Sorted(us)).failure.None? <==> !InUse(AfterRefs(m.snaps, NamesOf(us)), IdsOf(us))
    ensures Run(m, Sorted(us)).failure.None? ==>
              var after := Run(m, Sorted(us)).meta;
              && after.snaps.list.Or([]) == Without(m.snaps.list.Or([]), IdsOf(us))
              && after == m.(snaps := AfterRefs(m.snaps, NamesOf(us)).(list := after.snaps.list))
  {
    hide Run, Rank, Sorted, OfRank, InUse, Resolved;
    var a, b := OfRank(us, 17), OfRank(us, 18);
    CleanupSplits(us);
    assert NamesOf(a) == NamesOf(us) && IdsOf(b) == IdsOf(us);
    RunConcat(m, a, b);
    DropAllRefs(m, a);
    AfterRefsResolved(m.snaps, NamesOf(us));
    DropAll(m.(snaps := AfterRefs(m.snaps, NamesOf(us))), b);
  }

  /** Integral metadata without negative reference ids is resolved. */
  lemma IntegralIsResolved(s: Snapshots)
    requires Integral(s)
    requires s.current.Is? ==> s.current.value >= 0
    requires forall name :: name in s.refs.Or(map[]) && s.refs.value[name].Ref? && s.refs.value[name].snapshotId.Some?
               ==> s.refs.value[name].snapshotId.value >= 0
    ensures Resolved(s)
  {
  }
}
