/** What -1 selects, and where processing order and request order part ways. */
module Selection {
  import opened Options
  import opened Binary64
  import opened TableMetadata
  import opened Updates
  import opened Handlers
  import opened StableSort
  import opened Requests
  import opened ItemLemmas
  import opened Reordering
  import opened Families

  // ---------------------------------------------------------------- splitting the reordered request

  /** The updates ranked below r, rank by rank. */
  function BelowRank(us: seq<Update>, r: nat): seq<Update>
    requires r <= RANKS
  {
    if r == 0 then [] else BelowRank(us, r - 1) + OfRank(us, r - 1)
  }

  lemma {:induction false} SortedSplits(us: seq<Update>, r: nat)
    requires r <= RANKS
    ensures Sorted(us) == BelowRank(us, r) + FromRank(us, r)
  {
    hide OfRank;
    if r > 0 { SortedSplits(us, r - 1); }
  }

  lemma {:induction false} BelowRankMembers(us: seq<Update>, r: nat)
    requires r <= RANKS
    ensures forall u :: u in BelowRank(us, r) <==> u in us && Rank(u) < r
  {
    hide Rank;
    if r > 0 {
      BelowRankMembers(us, r - 1);
      OfRankMembers(us, r - 1);
    }
  }

  lemma {:induction false} NothingOfRank(us: seq<Update>, r: nat)
    requires forall u :: u in us ==> Rank(u) != r
    ensures OfRank(us, r) == []
  {
    if us != [] {
      assert us[0] in us;
      NothingOfRank(us[1..], r);
    }
  }

  /** The last update of a rank is the last of its subsequence. */
  lemma {:induction false} LastOfRank(us: seq<Update>, i: nat)
    requires i < |us| && forall k :: i < k < |us| ==> Rank(us[k]) != Rank(us[i])
    ensures var part := OfRank(us, Rank(us[i])); part != [] && part[|part| - 1] == us[i]
  {
    hide Rank;
    if i == 0 {
      forall u | u in us[1..] ensures Rank(u) != Rank(us[0]) {
        var k :| 0 <= k < |us[1..]| && us[1..][k] == u;
        assert us[k + 1] == u;
      }
      NothingOfRank(us[1..], Rank(us[0]));
    } else {
      assert forall k :: 0 <= k < |us| - 1 ==> us[1..][k] == us[k + 1];
      LastOfRank(us[1..], i - 1);
    }
  }

  lemma RankTellsOp(u: Update, kind: Kind)
    ensures OpOf(u, kind).AddOp? <==> Rank(u) == AdditionRank(kind)
    ensures OpOf(u, kind).PointOp? <==> Rank(u) == AdditionRank(kind) + 1
  {
  }

  // ---------------------------------------------------------------- -1 selects the last entry added

  /** The entry list ends with this document, under some id. */
  ghost predicate EndsWith(items: seq<FamilyItem>, doc: FamilyDoc) {
    && items != []
    && items[|items| - 1].Key().Some?
    && items[|items| - 1] == Object(doc.(key := items[|items| - 1].Key()))
    && (doc.key.Some? ==> items[|items| - 1].Key() == doc.key)
  }

  /** This document's entry is the selected one, and it is present. */
  ghost predicate Selected(f: Family, doc: FamilyDoc) {
    && f.pointer.Is?
    && Object(doc.(key := Some(f.pointer.value))) in f.entries.Or([])
    && (doc.key.Some? ==> doc.key == Some(f.pointer.value))
  }

  lemma AddsEndWithLast(m: Metadata, us: seq<Update>, kind: Kind)
    requires us != [] && Run(m, us).failure.None?
    requires OpOf(us[|us| - 1], kind).AddOp?
    ensures OpOf(us[|us| - 1], kind).doc.Some?
    ensures EndsWith(FamilyOf(Run(m, us).meta, kind).entries.Or([]), OpOf(us[|us| - 1], kind).doc.value)
  {
    hide ApplyUpdate, OpOf;
    var init, last := us[..|us| - 1], us[|us| - 1];
    assert us == init + [last];
    RunConcat(m, init, [last]);
    UpdateOnFamily(Run(m, init).meta, last, kind);
  }

  /** A run of selections keeps the list; the last one decides the pointer. */
  lemma {:induction false} PointsFollowLast(m: Metadata, us: seq<Update>, kind: Kind)
    requires Run(m, us).failure.None?
    requires forall u :: u in us ==> OpOf(u, kind).PointOp?
    ensures FamilyOf(Run(m, us).meta, kind).entries == FamilyOf(m, kind).entries
    ensures us != [] ==>
              var items := FamilyOf(m, kind).entries.Or([]);
              items != [] &&
              FamilyOf(Run(m, us).meta, kind).pointer == Is(TargetId(items, OpOf(us[|us| - 1], kind).target))
    decreases |us|
  {
    hide ApplyUpdate, OpOf;
    if us != [] {
      var init, last := us[..|us| - 1], us[|us| - 1];
      assert us == init + [last];
      RunConcat(m, init, [last]);
      PointsFollowLast(m, init, kind);
      UpdateOnFamily(Run(m, init).meta, last, kind);
    }
  }

  /** The selected entry stays, and stays selected, under everything else. */
  lemma {:induction false} PointedEntryStays(m: Metadata, us: seq<Update>, kind: Kind, x: FamilyItem)
    requires forall u :: u in us ==> !OpOf(u, kind).AddOp? && !OpOf(u, kind).PointOp?
    requires x in FamilyOf(m, kind).entries.Or([]) && x.Key().Some? && FamilyOf(m, kind).pointer == Is(x.Key().value)
    ensures x in FamilyOf(Run(m, us).meta, kind).entries.Or([])
    ensures FamilyOf(Run(m, us).meta, kind).pointer == Is(x.Key().value)
    decreases |us|
  {
    hide ApplyUpdate, OpOf;
    if us != [] {
      assert us[0] in us;
      UpdateOnFamily(m, us[0], kind);
      if OpOf(us[0], kind).RemoveOp? {
        WithoutMembers(FamilyOf(m, kind).entries.Or([]), ToSet(OpOf(us[0], kind).ids), x);
      }
      var s := ApplyUpdate(m, us[0]);
      if s.error.None? { PointedEntryStays(s.state, us[1..], kind, x); }
    }
  }

  /** When the last selection of a kind in the request is -1, it selects the last entry of that kind
      the request adds, wherever the two stand in the request; the entry is in the result. */
  lemma MinusOneSelectsLastAdded(m: Metadata, us: seq<Update>, kind: Kind, i: nat, j: nat)
    requires i < |us| && OpOf(us[i], kind).AddOp? && forall k :: i < k < |us| ==> !OpOf(us[k], kind).AddOp?
    requires j < |us| && OpOf(us[j], kind) == PointOp(-1) && forall k :: j < k < |us| ==> !OpOf(us[k], kind).PointOp?
    requires Run(m, Sorted(us)).failure.None?
    ensures OpOf(us[i], kind).doc.Some?
    ensures Selected(FamilyOf(Run(m, Sorted(us)).meta, kind), OpOf(us[i], kind).doc.value)
  {
    hide Run, OpOf, Rank, FromRank, OfRank, AdditionRank, Sorted;
    var r := AdditionRank(kind);
    LastOfKind(us, kind, i, j);
    var m1, m2, m3 := Stages(m, us, r);
    PartOps(us, kind);
    AfterStages(m1, m2, m3, OfRank(us, r), OfRank(us, r + 1), FromRank(us, r + 2), kind, us[i], us[j]);
  }

  /** Additions, then selections ending with -1, then neither. */
  lemma AfterStages(m1: Metadata, m2: Metadata, m3: Metadata, adds: seq<Update>, points: seq<Update>,
                    rest: seq<Update>, kind: Kind, lastAdd: Update, lastPoint: Update)
    requires Run(m1, adds) == Outcome(m2, None) && Run(m2, points) == Outcome(m3, None)
    requires adds != [] && adds[|adds| - 1] == lastAdd && OpOf(lastAdd, kind).AddOp?
    requires points != [] && points[|points| - 1] == lastPoint && OpOf(lastPoint, kind) == PointOp(-1)
    requires forall u :: u in points ==> OpOf(u, kind).PointOp?
    requires forall u :: u in rest ==> !OpOf(u, kind).AddOp? && !OpOf(u, kind).PointOp?
    ensures OpOf(lastAdd, kind).doc.Some?
    ensures Selected(FamilyOf(Run(m3, rest).meta, kind), OpOf(lastAdd, kind).doc.value)
  {
    hide Run, OpOf, FamilyOf, EndsWith, Selected, TargetId;
    AddsEndWithLast(m1, adds, kind);
    PointsFollowLast(m2, points, kind);
    var doc := OpOf(lastAdd, kind).doc.value;
    var x := LastIsTarget(FamilyOf(m2, kind).entries.Or([]), doc);
    PointedEntryStays(m3, rest, kind, x);
    TargetIsSelected(FamilyOf(Run(m3, rest).meta, kind), x, doc);
  }

  lemma LastIsTarget(items: seq<FamilyItem>, doc: FamilyDoc) returns (x: FamilyItem)
    requires EndsWith(items, doc)
    ensures items != [] && x in items && x.Key() == Some(TargetId(items, -1))
    ensures x == Object(doc.(key := x.Key())) && (doc.key.Some? ==> x.Key() == doc.key)
  {
    x := items[|items| - 1];
  }

  lemma TargetIsSelected(f: Family, x: FamilyItem, doc: FamilyDoc)
    requires x == Object(doc.(key := x.Key())) && (doc.key.Some? ==> x.Key() == doc.key)
    requires x in f.entries.Or([]) && x.Key().Some? && f.pointer == Is(x.Key().value)
    ensures Selected(f, doc)
  {
  }

  lemma LastOfKind(us: seq<Update>, kind: Kind, i: nat, j: nat)
    requires i < |us| && OpOf(us[i], kind).AddOp? && forall k :: i < k < |us| ==> !OpOf(us[k], kind).AddOp?
    requires j < |us| && OpOf(us[j], kind).PointOp? && forall k :: j < k < |us| ==> !OpOf(us[k], kind).PointOp?
    ensures var adds := OfRank(us, AdditionRank(kind)); adds != [] && adds[|adds| - 1] == us[i]
    ensures var points := OfRank(us, AdditionRank(kind) + 1); points != [] && points[|points| - 1] == us[j]
  {
    hide OpOf, Rank, OfRank, AdditionRank;
    RankTellsOp(us[i], kind);
    RankTellsOp(us[j], kind);
    forall k | i < k < |us| ensures Rank(us[k]) != Rank(us[i]) { RankTellsOp(us[k], kind); }
    forall k | j < k < |us| ensures Rank(us[k]) != Rank(us[j]) { RankTellsOp(us[k], kind); }
    LastOfRank(us, i);
    LastOfRank(us, j);
  }

  lemma PartOps(us: seq<Update>, kind: Kind)
    ensures forall u :: u in OfRank(us, AdditionRank(kind) + 1) ==> OpOf(u, kind).PointOp?
    ensures forall u :: u in FromRank(us, AdditionRank(kind) + 2) ==> !OpOf(u, kind).AddOp? && !OpOf(u, kind).PointOp?
  {
    hide OpOf, Rank, FromRank, OfRank, AdditionRank;
    var r := AdditionRank(kind);
    OfRankMembers(us, r + 1);
    FromRankMembers(us, r + 2);
    forall u | u in OfRank(us, r + 1) ensures OpOf(u, kind).PointOp? { RankTellsOp(u, kind); }
    forall u | u in FromRank(us, r + 2) ensures !OpOf(u, kind).AddOp? && !OpOf(u, kind).PointOp? { RankTellsOp(u, kind); }
  }

  /** The states before a rank, after it, and after the next one. */
  lemma Stages(m: Metadata, us: seq<Update>, r: nat) returns (m1: Metadata, m2: Metadata, m3: Metadata)
    requires r + 2 <= RANKS && Run(m, Sorted(us)).failure.None?
    ensures Run(m1, OfRank(us, r)) == Outcome(m2, None)
    ensures Run(m2, OfRank(us, r + 1)) == Outcome(m3, None)
    ensures Run(m3, FromRank(us, r + 2)) == Run(m, Sorted(us))
  {
    hide Run, Sorted, OfRank, BelowRank;
    var before, now, next, rest := BelowRank(us, r), OfRank(us, r), OfRank(us, r + 1), FromRank(us, r + 2);
    SortedSplits(us, r);
    assert Sorted(us) == before + (now + (next + rest));
    RunConcat(m, before, now + (next + rest));
    m1 := Run(m, before).meta;
    RunConcat(m1, now, next + rest);
    m2 := Run(m1, now).meta;
    RunConcat(m2, next, rest);
    m3 := Run(m2, next).meta;
  }

  // ---------------------------------------------------------------- ids assigned by a whole request

  /** The ids of a kind the request removes. */
  function RemovedIds(us: seq<Update>, kind: Kind): set<int> {
    set u, id | u in us && OpOf(u, kind).RemoveOp? && id in OpOf(u, kind).ids :: id
  }

  /** A run without additions of a kind filters the kind's list by what it removes. */
  lemma {:induction false} RemovalsFilter(m: Metadata, us: seq<Update>, kind: Kind)
    requires Run(m, us).failure.None? && forall u :: u in us ==> !OpOf(u, kind).AddOp?
    ensures FamilyOf(Run(m, us).meta, kind).entries.Or([])
         == Without(FamilyOf(m, kind).entries.Or([]), RemovedIds(us, kind))
    decreases |us|
  {
    hide ApplyUpdate, OpOf;
    var items := FamilyOf(m, kind).entries.Or([]);
    if us == [] {
      assert RemovedIds(us, kind) == {};
      WithoutNothing(items, {});
    } else {
      var u, rest := us[0], us[1..];
      assert u in us;
      RemovedIdsSplit(us, kind);
      UpdateOnFamily(m, u, kind);
      RemovalsFilter(ApplyUpdate(m, u).state, rest, kind);
      if OpOf(u, kind).RemoveOp? {
        var ids := OpOf(u, kind).ids;
        RemovedEntries(FamilyOf(m, kind), ids);
        WithoutTwice(items, ToSet(ids), RemovedIds(rest, kind));
      } else {
        assert RemovedIds(us, kind) == RemovedIds(rest, kind);
      }
    }
  }

  lemma RemovedIdsSplit(us: seq<Update>, kind: Kind)
    requires us != []
    ensures RemovedIds(us, kind)
         == (if OpOf(us[0], kind).RemoveOp? then ToSet(OpOf(us[0], kind).ids) else {}) + RemovedIds(us[1..], kind)
  {
    hide OpOf;
    assert us == [us[0]] + us[1..];
    var first := if OpOf(us[0], kind).RemoveOp? then ToSet(OpOf(us[0], kind).ids) else {};
    forall id ensures id in RemovedIds(us, kind) <==> id in first + RemovedIds(us[1..], kind) {
    }
  }

  lemma RemovedEntries(f: Family, ids: seq<int>)
    requires RemoveEntries(f, ids).error.None?
    ensures RemoveEntries(f, ids).state.entries.Or([]) == Without(f.entries.Or([]), ToSet(ids))
  {
    if ids == [] { WithoutNothing(f.entries.Or([]), ToSet(ids)); }
  }

  /** In any request whose additions of a kind all come without ids, wherever they stand among the
      other updates, they get the consecutive ids after the largest one present; what the request
      removes is removed afterwards. */
  lemma AssignedIdsAreConsecutive(m: Metadata, us: seq<Update>, kind: Kind)
    requires Run(m, Sorted(us)).failure.None?
    requires forall u :: u in us && OpOf(u, kind).AddOp? ==> LacksId(OpOf(u, kind))
    requires MaxKey(FamilyOf(m, kind).entries.Or([])) + Lacking(us, kind) < TWO63
    ensures forall u :: u in OfRank(us, AdditionRank(kind)) ==> LacksId(OpOf(u, kind))
    ensures var items := FamilyOf(m, kind).entries.Or([]);
            FamilyOf(Run(m, Sorted(us)).meta, kind).entries.Or([])
            == Without(items + Numbered(OfRank(us, AdditionRank(kind)), kind, MaxKey(items) + 1), RemovedIds(us, kind))
  {
    hide Run, OpOf, Rank, FromRank, OfRank, BelowRank, AdditionRank, Sorted, RemovedIds, LacksId;
    var r := AdditionRank(kind);
    var items := FamilyOf(m, kind).entries.Or([]);
    var adds, rest := OfRank(us, r), FromRank(us, r + 1);
    var m1, m2 := AroundRank(m, us, r);
    BeforeAdditions(us, kind);
    AdditionsLackIds(us, kind);
    RemovalsFilter(m, BelowRank(us, r), kind);
    WithoutNothing(items, {});
    ConsecutiveIds(m1, adds, kind);
    RemovalsFilter(m2, rest, kind);
  }

  lemma AroundRank(m: Metadata, us: seq<Update>, r: nat) returns (m1: Metadata, m2: Metadata)
    requires r < RANKS && Run(m, Sorted(us)).failure.None?
    ensures Run(m, BelowRank(us, r)) == Outcome(m1, None)
    ensures Run(m1, OfRank(us, r)) == Outcome(m2, None)
    ensures Run(m2, FromRank(us, r + 1)) == Run(m, Sorted(us))
  {
    hide Run, Sorted, OfRank, BelowRank;
    var before, now, rest := BelowRank(us, r), OfRank(us, r), FromRank(us, r + 1);
    SortedSplits(us, r);
    assert Sorted(us) == before + (now + rest);
    RunConcat(m, before, now + rest);
    m1 := Run(m, before).meta;
    RunConcat(m1, now, rest);
    m2 := Run(m1, now).meta;
  }

  /** Nothing of a kind is processed before its additions, and no addition after them. */
  lemma BeforeAdditions(us: seq<Update>, kind: Kind)
    ensures forall u :: u in BelowRank(us, AdditionRank(kind)) ==> !OpOf(u, kind).AddOp? && !OpOf(u, kind).RemoveOp?
    ensures RemovedIds(BelowRank(us, AdditionRank(kind)), kind) == {}
    ensures forall u :: u in FromRank(us, AdditionRank(kind) + 1) ==> !OpOf(u, kind).AddOp?
    ensures RemovedIds(FromRank(us, AdditionRank(kind) + 1), kind) == RemovedIds(us, kind)
  {
    hide OpOf, Rank, FromRank, BelowRank, AdditionRank;
    var r := AdditionRank(kind);
    var below, above := BelowRank(us, r), FromRank(us, r + 1);
    BelowRankMembers(us, r);
    FromRankMembers(us, r + 1);
    forall u ensures OpOf(u, kind).AddOp? ==> Rank(u) == r { RankTellsOp(u, kind); }
    forall u ensures OpOf(u, kind).RemoveOp? ==> Rank(u) > r { RemovalsComeLater(u, kind); }
    assert RemovedIds(above, kind) == RemovedIds(us, kind);
  }

  lemma RemovalsComeLater(u: Update, kind: Kind)
    ensures OpOf(u, kind).RemoveOp? ==> Rank(u) > AdditionRank(kind)
  {
  }

  lemma AdditionsLackIds(us: seq<Update>, kind: Kind)
    requires forall u :: u in us && OpOf(u, kind).AddOp? ==> LacksId(OpOf(u, kind))
    ensures forall u :: u in OfRank(us, AdditionRank(kind)) ==> LacksId(OpOf(u, kind))
    ensures Lacking(us, kind) == |OfRank(us, AdditionRank(kind))|
  {
    hide OpOf, Rank, OfRank, AdditionRank, LacksId;
    var adds := OfRank(us, AdditionRank(kind));
    OfRankMembers(us, AdditionRank(kind));
    forall u | u in adds ensures LacksId(OpOf(u, kind)) { RankTellsOp(u, kind); }
    LackingOfRank(us, kind);
    AllLack(adds, kind);
  }

  lemma {:induction false} AllLack(us: seq<Update>, kind: Kind)
    requires forall u :: u in us ==> LacksId(OpOf(u, kind))
    ensures Lacking(us, kind) == |us|
  {
    if us != [] {
      assert us[0] in us;
      AllLack(us[1..], kind);
    }
  }

  /** And when the request removes none of the kind, the ids it assigns merge at the next load
      exactly when they do not survive there. */
  lemma RequestMergesExactly(m: Metadata, us: seq<Update>, kind: Kind)
    requires Run(m, Sorted(us)).failure.None?
    requires Distinct(FamilyOf(m, kind)) && KeysExact(FamilyOf(m, kind).entries.Or([]))
    requires forall u :: u in us && OpOf(u, kind).AddOp? ==> LacksId(OpOf(u, kind))
    requires RemovedIds(us, kind) == {} && MaxKey(FamilyOf(m, kind).entries.Or([])) + Lacking(us, kind) < TWO63
    ensures Distinct(ReloadFamily(FamilyOf(Run(m, Sorted(us)).meta, kind)))
       <==> AssignedSurvive(MaxKey(FamilyOf(m, kind).entries.Or([])), Lacking(us, kind))
  {
    hide Run, OpOf, OfRank, AdditionRank, Sorted, RemovedIds, LacksId, Lacking, Distinct, KeysExact, AssignedSurvive,
      Numbered, Without, MaxKey, HasKey, ReloadFamily;
    var f, g := FamilyOf(m, kind), FamilyOf(Run(m, Sorted(us)).meta, kind);
    var items := f.entries.Or([]);
    AssignedIdsAreConsecutive(m, us, kind);
    AdditionsLackIds(us, kind);
    var added := Numbered(OfRank(us, AdditionRank(kind)), kind, MaxKey(items) + 1);
    WithoutNothing(items + added, {});
    MergeOfList(f, g, added);
  }

  /** Only the list counts, also when there is none. */
  lemma MergeOfList(f: Family, g: Family, added: seq<FamilyItem>)
    requires Distinct(f) && KeysExact(f.entries.Or([])) && g.entries.Or([]) == f.entries.Or([]) + added
    requires MaxKey(f.entries.Or([])) + |added| < TWO63
    requires forall i :: 0 <= i < |added| ==> added[i].Key() == Some(MaxKey(f.entries.Or([])) + 1 + i)
    ensures Distinct(ReloadFamily(g)) <==> AssignedSurvive(MaxKey(f.entries.Or([])), |added|)
  {
    hide ReadInt64, KeysExact, MaxKey;
    if g.entries.Is? {
      AssignedIdsMergeExactly(f, g, added);
    } else {
      assert |f.entries.Or([]) + added| == 0;
      assert ReloadFamily(g).entries.Or([]) == [];
    }
  }

  // ---------------------------------------------------------------- where the two orders differ

  lemma SortThree(a: Update, b: Update, c: Update)
    requires Rank(a) == Rank(c) < Rank(b)
    ensures Sorted([a, b, c]) == [a, c, b]
  {
    hide Rank, Sorted;
    SortedPair(b, c);
    SortedByInsertion(a, [b, c]);
    assert [a] + [b, c] == [a, b, c];
    assert Insert(a, [c, b]) == [a] + [c, b];
  }

  lemma RunThree(m: Metadata, a: Update, b: Update, c: Update)
    requires BothSucceed(m, a, b) && ApplyUpdate(After(m, a, b), c).error.None?
    ensures Run(m, [a, b, c]) == Outcome(ApplyUpdate(After(m, a, b), c).state, None)
  {
    assert [a, b, c] == [a, b] + [c];
    RunTwo(m, a, b, [c]);
    RunHead(After(m, a, b), c, []);
    assert [c] + [] == [c];
  }

  /** "Add A, select -1, add B": request order selects A, processing order selects B. */
  lemma MinusOneDependsOnOrder(m: Metadata, a: FamilyDoc, b: FamilyDoc, x: int, y: int)
    requires a.key == Some(x) && b.key == Some(y) && x != y
    requires !HasKey(m.schemas.entries.Or([]), x) && !HasKey(m.schemas.entries.Or([]), y)
    ensures var us := [AddSchema(Some(a), None), SetCurrentSchema(-1), AddSchema(Some(b), None)];
            && Run(m, us).failure.None? && Run(m, us).meta.schemas.pointer == Is(x)
            && Run(m, Sorted(us)).failure.None? && Run(m, Sorted(us)).meta.schemas.pointer == Is(y)
  {
    var p, q, r := AddSchema(Some(a), None), SetCurrentSchema(-1), AddSchema(Some(b), None);
    var items := m.schemas.entries.Or([]);
    HasKeyGrows(items, Object(a), x);
    HasKeyGrows(items, Object(a), y);
    HasKeyGrows(items + [Object(a)], Object(b), y);
    RunThree(m, p, q, r);
    RunThree(m, p, r, q);
    SortThree(p, q, r);
  }

  /** "Remove schema x, add schema x": request order replaces it, processing order refuses. */
  lemma ReplacingAnEntryFails(m: Metadata, doc: FamilyDoc, x: int)
    requires doc.key == Some(x) && m.schemas.entries.Is? && HasKey(m.schemas.entries.value, x)
    requires x != m.schemas.pointer.Or(0) && Without(m.schemas.entries.value, {x}) != []
    ensures var us := [RemoveSchemas([x]), AddSchema(Some(doc), None)];
            && Run(m, us).failure.None?
            && Run(m, Sorted(us)).failure == Some(Rejected(AddSchemaAction, DuplicateId))
  {
    hide ApplyUpdate, HasKey, Sorted;
    var p, q := RemoveSchemas([x]), AddSchema(Some(doc), None);
    SortedPair(p, q);
    ReplacingByHand(m, doc, x);
    RunPair(m, p, q);
    RunSingle(ApplyUpdate(m, p).state, q);
    RunPair(m, q, p);
  }

  lemma ReplacingByHand(m: Metadata, doc: FamilyDoc, x: int)
    requires doc.key == Some(x) && m.schemas.entries.Is? && HasKey(m.schemas.entries.value, x)
    requires x != m.schemas.pointer.Or(0) && Without(m.schemas.entries.value, {x}) != []
    ensures BothSucceed(m, RemoveSchemas([x]), AddSchema(Some(doc), None))
    ensures ApplyUpdate(m, AddSchema(Some(doc), None)).error == Some(DuplicateId)
  {
    hide HasKey;
    assert ToSet([x]) == {x};
    WithoutKeys(m.schemas.entries.value, {x}, x);
  }

  /** Conversely, "select x, add x" fails in request order and succeeds in processing order. */
  lemma SelectingAheadSucceeds(m: Metadata, doc: FamilyDoc, x: int)
    requires doc.key == Some(x) && x != -1 && !HasKey(m.schemas.entries.Or([]), x)
    ensures var us := [SetCurrentSchema(x), AddSchema(Some(doc), None)];
            && Run(m, us).failure.Some?
            && Run(m, Sorted(us)).failure.None? && Run(m, Sorted(us)).meta.schemas.pointer == Is(x)
  {
    var p, q := SetCurrentSchema(x), AddSchema(Some(doc), None);
    HasKeyGrows(m.schemas.entries.Or([]), Object(doc), x);
    assert [p, q][0] == p;
    SortedPair(p, q);
    RunTwo(m, q, p, []);
    assert [q, p] + [] == [q, p];
  }
}
