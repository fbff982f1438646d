/** The reordering of a request: per action in processing order, and within an action as requested. */
module StableSort {
  import opened Updates

  /** The updates of one rank, in request order. */
  function OfRank(us: seq<Update>, r: nat): seq<Update> {
    if us == [] then []
    else Keep(us[0], r) + OfRank(us[1..], r)
  }

  function Keep(u: Update, r: nat): seq<Update> {
    if Rank(u) == r then [u] else []
  }

  /** The updates of rank r and above, rank by rank. */
  function FromRank(us: seq<Update>, r: nat): seq<Update>
    requires r <= RANKS
    decreases RANKS - r
  {
    if r == RANKS then [] else OfRank(us, r) + FromRank(us, r + 1)
  }

  function Sorted(us: seq<Update>): seq<Update> {
    FromRank(us, 0)
  }

  ghost predicate InRankOrder(us: seq<Update>) {
    forall i, j :: 0 <= i < j < |us| ==> Rank(us[i]) <= Rank(us[j])
  }

  /** Two requests with the same subsequence for every action. */
  ghost predicate SamePerAction(us: seq<Update>, vs: seq<Update>) {
    forall r: nat :: OfRank(us, r) == OfRank(vs, r)
  }

  lemma {:induction false} OfRankMembers(us: seq<Update>, r: nat)
    ensures forall u :: u in OfRank(us, r) <==> u in us && Rank(u) == r
  {
    hide Rank;
    if us != [] { OfRankMembers(us[1..], r); }
  }

  lemma {:induction false} OfRankConcat(us: seq<Update>, vs: seq<Update>, r: nat)
    ensures OfRank(us + vs, r) == OfRank(us, r) + OfRank(vs, r)
  {
    hide Keep;
    if us == [] {
      assert us + vs == vs;
    } else {
      assert (us + vs)[0] == us[0] && (us + vs)[1..] == us[1..] + vs;
      OfRankConcat(us[1..], vs, r);
      assert Keep(us[0], r) + (OfRank(us[1..], r) + OfRank(vs, r)) == OfRank(us, r) + OfRank(vs, r);
    }
  }

  /** Selecting a rank twice. */
  lemma {:induction false} OfRankOfRank(us: seq<Update>, r: nat, s: nat)
    ensures OfRank(OfRank(us, r), s) == if r == s then OfRank(us, r) else []
  {
    hide Rank;
    if us != [] {
      OfRankConcat(Keep(us[0], r), OfRank(us[1..], r), s);
      OfRankOfRank(us[1..], r, s);
    }
  }

  lemma {:induction false} FromRankSpec(us: seq<Update>, r: nat)
    requires r <= RANKS
    ensures InRankOrder(FromRank(us, r))
    ensures forall u :: u in FromRank(us, r) <==> u in us && Rank(u) >= r
    ensures forall s: nat :: OfRank(FromRank(us, r), s) == if s >= r then OfRank(us, s) else []
    decreases RANKS - r
  {
    hide Rank;
    if r == RANKS {
      forall s: nat | s >= r ensures OfRank(us, s) == [] {
        OfRankMembers(us, s);
        if OfRank(us, s) != [] { assert OfRank(us, s)[0] in OfRank(us, s); }
      }
    } else {
      FromRankSpec(us, r + 1);
      OfRankMembers(us, r);
      forall s: nat ensures OfRank(FromRank(us, r), s) == if s >= r then OfRank(us, s) else [] {
        OfRankConcat(OfRank(us, r), FromRank(us, r + 1), s);
        OfRankOfRank(us, r, s);
      }
    }
  }

  /** The reordering is a stable sort: in rank order, with every action's subsequence unchanged. */
  lemma SortedIsStableSort(us: seq<Update>)
    ensures InRankOrder(Sorted(us))
    ensures SamePerAction(Sorted(us), us)
    ensures forall u :: u in Sorted(us) <==> u in us
  {
    hide FromRank, OfRank, Rank;
    FromRankSpec(us, 0);
  }

  lemma FromRankMembers(us: seq<Update>, r: nat)
    requires r <= RANKS
    ensures forall u :: u in FromRank(us, r) <==> u in us && Rank(u) >= r
  {
    FromRankSpec(us, r);
  }

  lemma SortedEmpty()
    ensures Sorted([]) == []
  {
    SortedIsStableSort([]);
    NothingPerAction(Sorted([]));
  }

  /** Nothing is lost, duplicated or invented by having the same per-action subsequences. */
  lemma {:induction false} PerActionCounts(us: seq<Update>, u: Update)
    ensures multiset(us)[u] == multiset(OfRank(us, Rank(u)))[u]
  {
    hide Rank;
    if us != [] {
      PerActionCounts(us[1..], u);
      assert us == [us[0]] + us[1..];
    }
  }

  lemma SortedIsPermutation(us: seq<Update>)
    ensures multiset(Sorted(us)) == multiset(us)
  {
    hide Rank;
    SortedIsStableSort(us);
    forall u: Update ensures multiset(Sorted(us))[u] == multiset(us)[u] {
      PerActionCounts(us, u);
      PerActionCounts(Sorted(us), u);
    }
  }

  /** The head of a list in rank order heads the subsequence of its own rank. */
  lemma HeadOfRank(us: seq<Update>)
    requires us != []
    ensures OfRank(us, Rank(us[0])) != [] && OfRank(us, Rank(us[0]))[0] == us[0]
  {
  }

  lemma NothingPerAction(us: seq<Update>)
    requires SamePerAction(us, [])
    ensures us == []
  {
    if us != [] { HeadOfRank(us); }
  }

  /** A stable sort is unique. */
  lemma {:induction false} StableSortIsUnique(us: seq<Update>, vs: seq<Update>)
    requires InRankOrder(us) && InRankOrder(vs) && SamePerAction(us, vs)
    ensures us == vs
  {
    hide Rank;
    if us == [] {
      NothingPerAction(vs);
    } else if vs == [] {
      NothingPerAction(us);
    } else {
      HeadOfRank(us);
      HeadOfRank(vs);
      OfRankMembers(us, Rank(vs[0]));
      OfRankMembers(vs, Rank(us[0]));
      assert OfRank(us, Rank(us[0])) == OfRank(vs, Rank(us[0]));
      assert OfRank(us, Rank(vs[0])) == OfRank(vs, Rank(vs[0]));
      assert us[0] in vs && vs[0] in us;
      assert us[0] == vs[0];
      forall r: nat ensures OfRank(us[1..], r) == OfRank(vs[1..], r) {
        var head := Keep(us[0], r);
        assert OfRank(us, r) == head + OfRank(us[1..], r);
        assert OfRank(vs, r) == head + OfRank(vs[1..], r);
        assert OfRank(us[1..], r) == OfRank(us, r)[|head|..];
        assert OfRank(vs[1..], r) == OfRank(vs, r)[|head|..];
      }
      StableSortIsUnique(us[1..], vs[1..]);
    }
  }

  /** Requests with the same per-action subsequences are reordered to the same list. */
  lemma SamePerActionSameOrder(us: seq<Update>, vs: seq<Update>)
    requires SamePerAction(us, vs)
    ensures Sorted(us) == Sorted(vs)
  {
    SortedIsStableSort(us);
    SortedIsStableSort(vs);
    StableSortIsUnique(Sorted(us), Sorted(vs));
  }

  // ---------------------------------------------------------------- sorting by insertion

  /** Put an update in front of the first one that does not rank below it. */
  function Insert(u: Update, us: seq<Update>): seq<Update> {
    if us == [] || Rank(u) <= Rank(us[0]) then [u] + us
    else [us[0]] + Insert(u, us[1..])
  }

  lemma PutBefore(u: Update, us: seq<Update>)
    requires InRankOrder(us) && forall v :: v in us ==> Rank(u) <= Rank(v)
    ensures InRankOrder([u] + us)
  {
    hide Rank;
  }

  lemma {:induction false} InsertMembers(u: Update, us: seq<Update>)
    ensures forall v :: v in Insert(u, us) <==> v == u || v in us
  {
    hide Rank;
    if us != [] {
      assert us == [us[0]] + us[1..];
      InsertMembers(u, us[1..]);
    }
  }

  lemma {:induction false} InsertPerAction(u: Update, us: seq<Update>, r: nat)
    ensures OfRank(Insert(u, us), r) == OfRank([u], r) + OfRank(us, r)
  {
    hide Rank;
    if us == [] || Rank(u) <= Rank(us[0]) {
      OfRankConcat([u], us, r);
    } else {
      assert us == [us[0]] + us[1..];
      OfRankConcat([us[0]], us[1..], r);
      OfRankConcat([us[0]], Insert(u, us[1..]), r);
      InsertPerAction(u, us[1..], r);
      assert OfRank([u], r) == Keep(u, r) && OfRank([us[0]], r) == Keep(us[0], r);
    }
  }

  lemma {:induction false} InsertSpec(u: Update, us: seq<Update>)
    requires InRankOrder(us)
    ensures InRankOrder(Insert(u, us))
    ensures forall v :: v in Insert(u, us) <==> v == u || v in us
  {
    hide Rank;
    InsertMembers(u, us);
    if us != [] && Rank(u) > Rank(us[0]) {
      var rest := Insert(u, us[1..]);
      InsertSpec(u, us[1..]);
      forall v | v in rest ensures Rank(us[0]) <= Rank(v) {
        if v in us[1..] {
          var k :| 0 <= k < |us[1..]| && us[1..][k] == v;
          assert us[k + 1] == v;
        }
      }
      PutBefore(us[0], rest);
    }
  }

  /** The stable sort can be built by inserting the updates from the last to the first. */
  lemma SortedByInsertion(u: Update, us: seq<Update>)
    ensures Sorted([u] + us) == Insert(u, Sorted(us))
  {
    hide Rank, Sorted, Insert;
    SortedIsStableSort(us);
    SortedIsStableSort([u] + us);
    InsertSpec(u, Sorted(us));
    forall r: nat ensures OfRank(Sorted([u] + us), r) == OfRank(Insert(u, Sorted(us)), r) {
      InsertPerAction(u, Sorted(us), r);
      OfRankConcat([u], us, r);
    }
    StableSortIsUnique(Sorted([u] + us), Insert(u, Sorted(us)));
  }

  /** Two updates change places exactly when they are out of order. */
  lemma SortedPair(a: Update, b: Update)
    ensures Sorted([a, b]) == if Rank(a) <= Rank(b) then [a, b] else [b, a]
  {
    hide Rank, Sorted;
    SortedEmpty();
    SortedByInsertion(b, []);
    SortedByInsertion(a, [b]);
    assert [b] + [] == [b] && [a] + [b] == [a, b];
    assert Insert(b, []) == [b];
    assert Rank(a) > Rank(b) ==> Insert(a, [b]) == [b] + Insert(a, [b][1..]);
  }
}
