/** What concurrent clients can rely on: of those racing to move one branch, one wins, and a
    transaction over several tables reports rows that were all committed at one moment. */
module Concurrency {
  import opened Options
  import opened JsonValues
  import opened Binary64
  import opened TableMetadata
  import opened Updates
  import opened Handlers
  import opened StableSort
  import opened Requests
  import opened ItemLemmas
  import opened SnapshotIntegrity
  import opened Commits
  import opened CommitIntegrity
  import opened Protocol
  import opened History

  // ---------------------------------------------------------------- racing for branch main

  /** A request that expects branch main at one snapshot and moves it to a snapshot it adds. */
  ghost predicate MovesMain(request: Request, expected: Option<int>) {
    && AssertRefSnapshotId(MAIN, expected) in request.requirements
    && ParseAll(request.updates).AllParsed?
    && exists id: int :: id >= 0 && MovesMainTo(ParseAll(request.updates).us, id)
  }

  ghost predicate MovesMainTo(us: seq<Update>, id: int) {
    && (exists i :: 0 <= i < |us| && Adds(us[i], id))
    && LastMain(us) == Some(id)
    && RemoveSnapshotRef(MAIN) !in us
  }

  predicate SetsMain(u: Update) {
    u.SetSnapshotRef? && u.refName == MAIN
  }

  /** Where the last set-snapshot-ref of main points. */
  function LastMain(us: seq<Update>): Option<int> {
    if us == [] then None
    else if SetsMain(us[|us| - 1]) then Some(us[|us| - 1].snapshotId)
    else LastMain(us[..|us| - 1])
  }

  predicate Adds(u: Update, id: int) {
    u.AddSnapshot? && u.snapshot.Some? && u.snapshot.value.key == Some(id)
  }

  lemma KeepsPresent(m: Metadata, u: Update, id: int)
    requires HasKey(m.snaps.list.Or([]), id) && !u.RemoveSnapshots?
    ensures HasKey(ApplyUpdate(m, u).state.snaps.list.Or([]), id)
  {
    match u {
      case AddSnapshot(doc) =>
        if PutSnapshot(m.snaps, doc).error.None? { HasKeyGrows(m.snaps.list.Or([]), Object(doc.value), id); }
      case _ =>
    }
  }

  /** A snapshot a run adds before removing any was not there at the start. */
  lemma {:induction false} AddedIsNew(m: Metadata, us: seq<Update>, i: nat, id: int)
    requires i < |us| && Adds(us[i], id) && Run(m, us).failure.None?
    requires forall k :: 0 <= k < i ==> !us[k].RemoveSnapshots?
    ensures !HasKey(m.snaps.list.Or([]), id)
    decreases i
  {
    hide HasKey;
    if i > 0 {
      hide ApplyUpdate;
      AddedIsNew(ApplyUpdate(m, us[0]).state, us[1..], i - 1, id);
      if HasKey(m.snaps.list.Or([]), id) { KeepsPresent(m, us[0], id); }
    }
  }

  ghost predicate MainAt(m: Metadata, id: int) {
    RefTarget(m, MAIN) == Some(id)
  }

  lemma StepOnMain(m: Metadata, u: Update, id: int)
    requires u != RemoveSnapshotRef(MAIN) && ApplyUpdate(m, u).error.None?
    ensures SetsMain(u) ==> MainAt(ApplyUpdate(m, u).state, u.snapshotId)
    ensures !SetsMain(u) && MainAt(m, id) ==> MainAt(ApplyUpdate(m, u).state, id)
  {
  }

  lemma {:induction false} MainEndsAt(m: Metadata, us: seq<Update>, id: int)
    requires Run(m, us).failure.None? && RemoveSnapshotRef(MAIN) !in us && LastMain(us) == Some(id)
    ensures MainAt(Run(m, us).meta, id)
    decreases |us|
  {
    hide ApplyUpdate, MainAt, Run, SetsMain;
    var init, last := us[..|us| - 1], us[|us| - 1];
    assert us == init + [last] && last in us && forall u :: u in init ==> u in us;
    RunConcat(m, init, [last]);
    RunSingle(Run(m, init).meta, last);
    if !SetsMain(last) { MainEndsAt(m, init, id); }
    StepOnMain(Run(m, init).meta, last, id);
  }

  /** Only the set-snapshot-ref updates matter, and their order is kept by the reordering. */
  lemma {:induction false} LastMainOfRank(us: seq<Update>)
    ensures LastMain(us) == LastMain(OfRank(us, Position(SetSnapshotRefAction)))
    decreases |us|
  {
    var r := Position(SetSnapshotRefAction);
    if us != [] {
      hide OfRank;
      var init, last := us[..|us| - 1], us[|us| - 1];
      assert us == init + [last];
      LastMainOfRank(init);
      OfRankConcat(init, [last], r);
      OfRankOne(last, r);
      var part := OfRank(init, r);
      assert (part + [last])[..|part + [last]| - 1] == part;
      assert part + [] == part;
      SetsMainHasRank(last);
    }
  }

  lemma OfRankOne(u: Update, r: nat)
    ensures OfRank([u], r) == if Rank(u) == r then [u] else []
  {
    assert [u][1..] == [];
  }

  lemma SetsMainHasRank(u: Update)
    ensures SetsMain(u) ==> Rank(u) == Position(SetSnapshotRefAction)
    ensures Rank(u) == Position(SetSnapshotRefAction) ==> u.SetSnapshotRef?
  {
  }

  lemma SortedMovesMain(us: seq<Update>, id: int) returns (i: nat)
    requires MovesMainTo(us, id)
    ensures i < |Sorted(us)| && Adds(Sorted(us)[i], id)
    ensures forall k :: 0 <= k < i ==> !Sorted(us)[k].RemoveSnapshots?
    ensures MovesMainTo(Sorted(us), id)
  {
    hide Sorted, Rank, OfRank, LastMain;
    SortedIsStableSort(us);
    var j :| 0 <= j < |us| && Adds(us[j], id);
    assert us[j] in Sorted(us);
    i :| 0 <= i < |Sorted(us)| && Sorted(us)[i] == us[j];
    forall k | 0 <= k < i ensures !Sorted(us)[k].RemoveSnapshots? {
      assert Rank(Sorted(us)[k]) <= Rank(Sorted(us)[i]);
      AddsBeforeRemovals(us[j], Sorted(us)[k]);
    }
    LastMainOfRank(us);
    LastMainOfRank(Sorted(us));
  }

  lemma AddsBeforeRemovals(add: Update, other: Update)
    requires add.AddSnapshot? && Rank(other) <= Rank(add)
    ensures !other.RemoveSnapshots?
  {
  }

  /** A successful request that moves main ends with main at a snapshot that is new. */
  lemma MainMovesToNewSnapshot(m: Metadata, us: seq<Update>, id: int)
    requires MovesMainTo(us, id) && Run(m, Sorted(us)).failure.None?
    ensures !HasKey(m.snaps.list.Or([]), id)
    ensures MainAt(Run(m, Sorted(us)).meta, id)
  {
    hide Run, Sorted, HasKey, MainAt;
    var i := SortedMovesMain(us, id);
    AddedIsNew(m, Sorted(us), i, id);
    MainEndsAt(m, Sorted(us), id);
  }

  /** A reference that resolves is not at a snapshot that is absent. */
  lemma MainWasElsewhere(m: Metadata, id: int)
    requires Integral(m.snaps) && id >= 0 && !HasKey(m.snaps.list.Or([]), id)
    ensures RefTarget(m, MAIN) != Some(id)
  {
  }

  lemma MainIsReadBack(m: Metadata, id: int)
    requires Integral(m.snaps) && id >= 0 && MainAt(m, id)
    ensures MainAt(Reload(m), id)
  {
    hide Exact;
    var list := m.snaps.list.Or([]);
    assert HasKey(list, id);
    var i :| 0 <= i < |list| && list[i].Key() == Some(id);
    assert Exact(id);
    ExactReadsBack(id);
  }

  lemma ExactReadsBack(id: int)
    requires Exact(id)
    ensures ReloadOption(Some(id)) == Some(id)
  {
  }

  /** Once main has moved, the same expectation fails. */
  lemma MoveDefeatsExpectation(row: Row, request: Request, now: int, expected: Option<int>)
    requires Sound(Load(row)) && MovesMain(request, expected) && Decide(row, request, now).Write?
    ensures RefTarget(Load(row), MAIN) == expected
    ensures RefTarget(Load(Decide(row, request, now).row), MAIN) != expected
  {
    var m, o := Load(row), ApplyRequest(Load(row), request.updates);
    hide Run, Integral, HasKey, MovesMainTo, Reload;
    WriteComesFromRequest(row, request, now);
    var i :| 0 <= i < |request.requirements| && request.requirements[i] == AssertRefSnapshotId(MAIN, expected);
    assert Holds(m, request.requirements[i]);
    var us := ParseAll(request.updates).us;
    var id: int :| id >= 0 && MovesMainTo(us, id);
    MainMovesToNewSnapshot(m, us, id);
    MainWasElsewhere(m, id);
    RequestKeepsIntegral(m, request.updates);
    MainIsReadBack(Decide(row, request, now).row.metadata, id);
  }

  /** When every client of a table expects main at the same snapshot and moves it to a snapshot it
      adds, the table is written at most once, in every interleaving. */
  lemma OneMoveWins(rows: map<Table, Row>, jobs: Jobs, events: seq<Event>, states: seq<System>, n: nat,
                    t: Table, expected: Option<int>)
    requires IsRun(rows, jobs, events, states) && n < |states| && t in rows && Sound(Load(rows[t]))
    requires forall c :: c in jobs && jobs[c].CommitTable? && jobs[c].table == t ==> MovesMain(jobs[c].request, expected)
    ensures t in states[n].history && |states[n].history[t]| <= 1
  {
    hide IsRun, Sound, Load, Decide, RefTarget, MovesMain;
    RunKeepsInv(rows, jobs, events, states, n);
    var links := states[n].history[t];
    if |links| >= 2 {
      assert Justified(jobs, t, links[0]) && Justified(jobs, t, links[1]);
      assert Reached(rows[t], links, 1) == links[0].result;
      EveryLinkIsSound(jobs, t, rows[t], links, states[n].rows[t], 1);
      var a, b := links[0], links[1];
      MoveDefeatsExpectation(a.base, jobs[a.owner].request, a.now, expected);
      MoveDefeatsExpectation(b.base, jobs[b.owner].request, b.now, expected);
    }
  }

  /** So at most one of them is told it succeeded. */
  lemma OneClientWins(rows: map<Table, Row>, jobs: Jobs, events: seq<Event>, states: seq<System>, n: nat,
                      t: Table, expected: Option<int>, c: Client, d: Client)
    requires IsRun(rows, jobs, events, states) && n < |states| && t in rows && Sound(Load(rows[t]))
    requires forall e :: e in jobs && jobs[e].CommitTable? && jobs[e].table == t ==> MovesMain(jobs[e].request, expected)
    requires c in jobs && jobs[c].CommitTable? && jobs[c].table == t
    requires d in jobs && jobs[d].CommitTable? && jobs[d].table == t
    requires c in states[n].phases && states[n].phases[c].Done? && states[n].phases[c].reply.Ok?
    requires d in states[n].phases && states[n].phases[d].Done? && states[n].phases[d].reply.Ok?
    ensures c == d
  {
    hide IsRun, Sound, Load, MovesMain, Owned;
    OneMoveWins(rows, jobs, events, states, n, t, expected);
    RepliesTellOwnership(rows, jobs, events, states, n, c);
    RepliesTellOwnership(rows, jobs, events, states, n, d);
  }

  // ---------------------------------------------------------------- which snapshot ids can be moved to

  /** The request writers send: add snapshot n, and move main to n. */
  function PublishRequest(n: int, timestampMs: int): seq<RawUpdate> {
    [RawUpdate(AddSnapshotAction, map["snapshot" := Obj(map["snapshot-id" := Num(n), "timestamp-ms" := Num(timestampMs)])]),
     RawUpdate(SetSnapshotRefAction, map["ref-name" := Str(MAIN), "type" := Str(BRANCH), "snapshot-id" := Num(n)])]
  }

  function PublishedDoc(n: int, timestampMs: int): SnapshotDoc {
    Doc(Some(ReadInt64(n)), SnapshotDetail(Some(ReadInt64(timestampMs)), None), map[])
  }

  lemma PublishParses(n: int, timestampMs: int)
    requires 0 <= n < TWO63
    ensures ParseAll(PublishRequest(n, timestampMs))
         == AllParsed([AddSnapshot(Some(PublishedDoc(n, timestampMs))),
                       SetSnapshotRef(MAIN, BRANCH, n, Retention(None, None, None))])
  {
    hide ParseUpdate, PublishedDoc;
    var raws := PublishRequest(n, timestampMs);
    AdditionParses(raws[0], n, timestampMs);
    MoveParses(raws[1], n);
    ParseAllTwo(raws[0], raws[1]);
  }

  lemma AdditionParses(raw: RawUpdate, n: int, timestampMs: int)
    requires raw == PublishRequest(n, timestampMs)[0]
    ensures ParseUpdate(raw) == Parsed(AddSnapshot(Some(PublishedDoc(n, timestampMs))))
  {
    hide ReadInt64;
    var snapshot := map["snapshot-id" := Num(n), "timestamp-ms" := Num(timestampMs)];
    assert raw.body["snapshot"] == Obj(snapshot);
    assert snapshot - {"snapshot-id", "timestamp-ms", "sequence-number"} == map[];
    assert SnapshotView(snapshot) == PublishedDoc(n, timestampMs);
  }

  lemma MoveParses(raw: RawUpdate, n: int)
    requires 0 <= n < TWO63 && raw == PublishRequest(n, 0)[1]
    ensures ParseUpdate(raw) == Parsed(SetSnapshotRef(MAIN, BRANCH, n, Retention(None, None, None)))
  {
    var o := raw.body;
    assert Member(o, "ref-name") == Str(MAIN) && Member(o, "type") == Str(BRANCH) && Member(o, "snapshot-id") == Num(n);
  }

  lemma ParseAllTwo(a: RawUpdate, b: RawUpdate)
    requires ParseUpdate(a).Parsed? && ParseUpdate(b).Parsed?
    ensures ParseAll([a, b]) == AllParsed([ParseUpdate(a).update, ParseUpdate(b).update])
  {
    hide ParseUpdate;
    assert [a, b][..1] == [a];
    ParseAllOne(a);
  }

  lemma ParseAllOne(a: RawUpdate)
    requires ParseUpdate(a).Parsed?
    ensures ParseAll([a]) == AllParsed([ParseUpdate(a).update])
  {
    hide ParseUpdate;
    assert [a][..0] == [];
  }

  /** A new snapshot can be published in one request exactly when its id survives as a JSON number:
      the snapshot is stored under the number read, the reference asks for the id written. */
  lemma PublishingNeedsExactId(m: Metadata, n: int, timestampMs: int)
    requires 0 <= n < TWO63
    requires !HasKey(m.snaps.list.Or([]), n) && !HasKey(m.snaps.list.Or([]), ReadInt64(n))
    ensures ApplyRequest(m, PublishRequest(n, timestampMs)).failure.None? <==> Exact(n)
    ensures !Exact(n) ==>
              ApplyRequest(m, PublishRequest(n, timestampMs)).failure == Some(Rejected(SetSnapshotRefAction, NoSuchSnapshot))
    ensures n <= TWO53 ==> Exact(n)
  {
    hide ReadInt64, HasKey, Run, Sorted, ParseAll, ApplyUpdate;
    if n <= TWO53 { SmallIsExact(n); }
    PublishParses(n, timestampMs);
    var doc := PublishedDoc(n, timestampMs);
    var add, move := AddSnapshot(Some(doc)), SetSnapshotRef(MAIN, BRANCH, n, Retention(None, None, None));
    SortedPair(add, move);
    HasKeyGrows(m.snaps.list.Or([]), Object(doc), n);
    var added := AddedDoc(m, doc);
    MovedTo(added, n);
    RunPair(m, add, move);
    RunSingle(added, move);
  }

  lemma AddedDoc(m: Metadata, doc: SnapshotDoc) returns (n: Metadata)
    requires doc.key.Some? && doc.detail.timestampMs.Some? && !HasKey(m.snaps.list.Or([]), doc.key.value)
    ensures ApplyUpdate(m, AddSnapshot(Some(doc))) == Step(n, None)
    ensures n.snaps.list == Is(m.snaps.list.Or([]) + [Object(doc)])
  {
    hide HasKey;
    n := ApplyUpdate(m, AddSnapshot(Some(doc))).state;
  }

  lemma MovedTo(m: Metadata, n: int)
    requires n >= 0
    ensures ApplyUpdate(m, SetSnapshotRef(MAIN, BRANCH, n, Retention(None, None, None))).error
         == if HasKey(m.snaps.list.Or([]), n) then None else Some(NoSuchSnapshot)
  {
    hide HasKey;
  }

  // ---------------------------------------------------------------- consistent multi-table reads

  /** All these rows were committed, and all requirements held, at one moment. */
  ghost predicate HeldTogether(job: Job, s: System, rows: seq<Row>) {
    && AllChecked(job, rows)
    && forall i :: 0 <= i < |rows| ==> CommittedAs(s, job.Tables()[i], rows[i])
  }

  ghost predicate CommittedAs(s: System, t: Table, row: Row) {
    t in s.rows && s.rows[t] == row
  }

  lemma ClosingIsConsistent(rows: map<Table, Row>, jobs: Jobs, s: System, c: Client)
    requires Inv(rows, jobs, s) && c in jobs && s.phases[c].Closing? && s.phases[c].outcome.Reports?
    ensures HeldTogether(jobs[c], s, s.phases[c].seen)
  {
    hide HistoryOk, OwnershipOk, ReadingOk, AttemptOk, RequirementsHold;
    assert OutcomeOk(jobs, c, s.phases[c]);
    var seen := s.phases[c].Seen();
    assert HoldsWhatItRead(jobs, s.rows, s.locks, c, seen);
    forall i | 0 <= i < |seen| ensures CommittedAs(s, jobs[c].Tables()[i], seen[i]) {
      assert LockedAs(s.rows, s.locks, c, jobs[c].Tables()[i], seen[i]);
    }
  }

  lemma OnlyCommitReports(jobs: Jobs, s: System, e: Event, c: Client)
    requires Enabled(jobs, s, e) && c in s.phases && c in Fire(jobs, s, e).phases
    requires Fire(jobs, s, e).phases[c].Done? && Fire(jobs, s, e).phases[c].reply.OkMany?
    ensures Fire(jobs, s, e).phases[c] == s.phases[c]
         || (s.phases[c].Closing? && (s.phases[c].outcome.Reports? || s.phases[c].outcome.Refuses?)
             && ReplyOf(s.phases[c]) == Fire(jobs, s, e).phases[c].reply)
  {
    hide Decide, RequirementsHold;
  }

  /** The rows a multi-table transaction reports were all committed at one moment of the run, and
      every listed requirement held at that moment. */
  lemma {:induction false} ConsistentCut(rows: map<Table, Row>, jobs: Jobs, events: seq<Event>, states: seq<System>,
                                         n: nat, c: Client)
      returns (k: nat)
    requires IsRun(rows, jobs, events, states) && n < |states|
    requires c in jobs && c in states[n].phases && states[n].phases[c].Done? && states[n].phases[c].reply.OkMany?
    ensures k < n && HeldTogether(jobs[c], states[k], states[n].phases[c].reply.rows)
    decreases n
  {
    hide Inv, Fire, Enabled, HeldTogether, OutcomeOk;
    k := 0;
    if n == 0 {
      StartsWaiting(rows, jobs, c);
    } else {
      var before := states[n - 1];
      RunKeepsInv(rows, jobs, events, states, n - 1);
      PhasesKnown(rows, jobs, before, c);
      OnlyCommitReports(jobs, before, events[n - 1], c);
      if before.phases[c] == states[n].phases[c] {
        k := ConsistentCut(rows, jobs, events, states, n - 1, c);
      } else {
        k := n - 1;
        NotRefused(rows, jobs, before, c);
        ClosingIsConsistent(rows, jobs, before, c);
      }
    }
  }

  lemma StartsWaiting(rows: map<Table, Row>, jobs: Jobs, c: Client)
    requires c in jobs
    ensures Initial(rows, jobs).phases[c] == Waiting(0)
  {
  }

  lemma PhasesKnown(rows: map<Table, Row>, jobs: Jobs, s: System, c: Client)
    requires Inv(rows, jobs, s) && c in jobs
    ensures c in s.phases && OutcomeOk(jobs, c, s.phases[c])
  {
    hide HistoryOk, LocksOk, OwnershipOk, ReadingOk, AttemptOk, OutcomeOk;
  }

  /** A refusal never reports rows. */
  lemma NotRefused(rows: map<Table, Row>, jobs: Jobs, s: System, c: Client)
    requires Inv(rows, jobs, s) && c in jobs && s.phases[c].Closing? && ReplyOf(s.phases[c]).OkMany?
    ensures s.phases[c].outcome.Reports?
  {
    hide HistoryOk, LocksOk, OwnershipOk, ReadingOk, AttemptOk;
    assert OutcomeOk(jobs, c, s.phases[c]);
  }
}
