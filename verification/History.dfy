/** What the interleaving of commits guarantees: one chain per table, each link justified by its
    predecessor, no lost update, and consistent multi-table reads. */
module History {
  import opened Options
  import opened Binary64
  import opened TableMetadata
  import opened Updates
  import opened Requests
  import opened SnapshotIntegrity
  import opened Families
  import opened Attributes
  import opened Commits
  import opened CommitIntegrity
  import opened Protocol

  // ---------------------------------------------------------------- linear history

  /** What a link's request did to exactly the row before it. */
  ghost predicate FollowsFrom(jobs: Jobs, t: Table, link: Link) {
    && link.owner in jobs && jobs[link.owner].CommitTable? && jobs[link.owner].table == t
    && var request := jobs[link.owner].request;
       var outcome := ApplyRequest(Load(link.base), request.updates);
       && RequirementsHold(Load(link.base), request.requirements)
       && outcome.failure.None?
       && link.result.metadata == outcome.meta.(lastUpdatedMs := Is(link.now))
       && link.result.previous == Some(link.base.location)
       && link.result.location.Generated? && outcome.meta.location == Is(link.result.location.base) && link.result.location.millis == link.now
       && |link.result.location.uuidPrefix| == 8 && link.result.location.uuidPrefix <= outcome.meta.tableUuid.Or("")
  }

  lemma JustifiedFollows(jobs: Jobs, t: Table, link: Link)
    requires Justified(jobs, t, link)
    ensures FollowsFrom(jobs, t, link)
  {
    hide ApplyRequest, Load, RequirementsHold, Decide;
    WriteComesFromRequest(link.base, jobs[link.owner].request, link.now);
  }

  /** At every moment of every run, the committed values of a row form one chain from its first
      value: each link is its predecessor's result under a request whose requirements held there. */
  lemma LinearHistory(rows: map<Table, Row>, jobs: Jobs, events: seq<Event>, states: seq<System>, n: nat, t: Table)
    requires IsRun(rows, jobs, events, states) && n < |states| && t in rows
    ensures t in states[n].history && t in states[n].rows
    ensures Chain(rows[t], states[n].history[t], states[n].rows[t])
    ensures forall i :: 0 <= i < |states[n].history[t]| ==> FollowsFrom(jobs, t, states[n].history[t][i])
  {
    hide IsRun, Chain, Justified, FollowsFrom;
    RunKeepsInv(rows, jobs, events, states, n);
    forall i | 0 <= i < |states[n].history[t]| ensures FollowsFrom(jobs, t, states[n].history[t][i]) {
      JustifiedFollows(jobs, t, states[n].history[t][i]);
    }
  }

  /** Who owns how many links, by the reply it got. */
  lemma RepliesTellOwnership(rows: map<Table, Row>, jobs: Jobs, events: seq<Event>, states: seq<System>, n: nat, c: Client)
    requires IsRun(rows, jobs, events, states) && n < |states|
    requires c in jobs && jobs[c].CommitTable? && jobs[c].table in rows
    ensures c in states[n].phases && jobs[c].table in states[n].history
    ensures var links, p := states[n].history[jobs[c].table], states[n].phases[c];
            && (p.Done? && p.reply.Ok? ==> Owned(links, c) == 1 && OwnsResult(links, c, p.reply.row))
            && (p.Done? && (p.reply.BadRequest? || p.reply.NotFound? || p.reply.Conflict?) ==> Owned(links, c) == 0)
            && (p.Done? && p.reply.ServerError? ==> Owned(links, c) <= 1)
            && (!p.Done? ==> Owned(links, c) == 0)
  {
    hide IsRun, HistoryOk, LocksOk, OutcomeOk, ReadingOk, AttemptOk, OwnsResult, Owned;
    RunKeepsInv(rows, jobs, events, states, n);
    assert HistoryOk(rows, jobs, states[n]);
    assert OwnershipOk(jobs, states[n], c);
    HistoryTables(rows, jobs, states[n]);
  }

  lemma HistoryTables(rows: map<Table, Row>, jobs: Jobs, s: System)
    requires HistoryOk(rows, jobs, s)
    ensures s.history.Keys == rows.Keys
  {
  }

  /** History is append-only. */
  lemma {:induction false} HistoryOnlyGrows(rows: map<Table, Row>, jobs: Jobs, events: seq<Event>, states: seq<System>,
                                            i: nat, j: nat, t: Table)
    requires IsRun(rows, jobs, events, states) && i <= j < |states| && t in rows
    ensures t in states[i].history && t in states[j].history
    ensures IsPrefix(states[i].history[t], states[j].history[t])
    decreases j
  {
    hide Inv, IsPrefix, Fire, Enabled;
    LinearHistory(rows, jobs, events, states, i, t);
    LinearHistory(rows, jobs, events, states, j, t);
    if i < j {
      HistoryOnlyGrows(rows, jobs, events, states, i, j - 1, t);
      FireGrowsHistory(jobs, states[j - 1], events[j - 1], t);
      PrefixTransitive(states[i].history[t], states[j - 1].history[t], states[j].history[t]);
    } else {
      PrefixReflexive(states[i].history[t]);
    }
  }

  lemma PrefixReflexive<T(!new)>(a: seq<T>)
    ensures IsPrefix(a, a)
  {
  }

  lemma PrefixTransitive<T(!new)>(a: seq<T>, b: seq<T>, c: seq<T>)
    requires IsPrefix(a, b) && IsPrefix(b, c)
    ensures IsPrefix(a, c)
  {
    assert c[..|a|] == c[..|b|][..|a|];
  }

  lemma FireGrowsHistory(jobs: Jobs, s: System, e: Event, t: Table)
    requires Enabled(jobs, s, e) && t in s.history
    ensures t in Fire(jobs, s, e).history && IsPrefix(s.history[t], Fire(jobs, s, e).history[t])
  {
    hide Decide, RequirementsHold;
  }

  // ---------------------------------------------------------------- soundness of every committed row

  /** From tables that are sound, only sound rows are ever committed. */
  lemma {:induction false} EveryLinkIsSound(jobs: Jobs, t: Table, first: Row, links: seq<Link>, last: Row, i: nat)
    requires Chain(first, links, last) && Sound(Load(first)) && i <= |links|
    requires forall k :: 0 <= k < |links| ==> Justified(jobs, t, links[k])
    ensures Sound(Load(Reached(first, links, i)))
  {
    hide Sound, Load, Justified;
    if i > 0 {
      EveryLinkIsSound(jobs, t, first, links, last, i - 1);
      var link := links[i - 1];
      LinkKeepsSound(jobs, t, link);
    }
  }

  lemma LinkKeepsSound(jobs: Jobs, t: Table, link: Link)
    requires Justified(jobs, t, link) && Sound(Load(link.base))
    ensures Sound(Load(link.result))
  {
    hide Sound, Load, Decide;
    CommitKeepsSound(link.base, jobs[link.owner].request, link.now);
  }

  /** In every run that starts from newly created tables, every row ever committed has unique
      snapshot ids, references and a current snapshot that resolve, a log that covers all snapshots,
      and a sequence number that bounds them all. */
  lemma CommittedRowsAreSound(rows: map<Table, Row>, jobs: Jobs, events: seq<Event>, states: seq<System>, n: nat, t: Table)
    requires IsRun(rows, jobs, events, states) && n < |states| && t in rows
    requires Inserted(rows[t])
    ensures t in states[n].rows && Sound(Load(states[n].rows[t]))
  {
    hide IsRun, Sound, Load, Inserted, Justified;
    RunKeepsInv(rows, jobs, events, states, n);
    InsertedIsSound(rows[t]);
    var links := states[n].history[t];
    EveryLinkIsSound(jobs, t, rows[t], links, states[n].rows[t], |links|);
  }

  /** From an earlier row to a later one: the snapshot log is a prefix, nothing monotone goes back. */
  ghost predicate Progresses(m: Metadata, n: Metadata) {
    KeepsDirection(m, n) && IsPrefix(m.snaps.log.Or([]), n.snaps.log.Or([]))
  }

  lemma ProgressesTransitive(a: Metadata, b: Metadata, c: Metadata)
    requires Progresses(a, b) && Progresses(b, c)
    ensures Progresses(a, c)
  {
    hide IsPrefix;
    PrefixTransitive(a.snaps.log.Or([]), b.snaps.log.Or([]), c.snaps.log.Or([]));
  }

  lemma {:induction false} ChainProgresses(jobs: Jobs, t: Table, first: Row, links: seq<Link>, last: Row, i: nat, j: nat)
    requires Chain(first, links, last) && Sound(Load(first)) && i <= j <= |links|
    requires forall k :: 0 <= k < |links| ==> Justified(jobs, t, links[k])
    ensures Progresses(Load(Reached(first, links, i)), Load(Reached(first, links, j)))
    decreases j
  {
    hide Sound, Load, Justified, Progresses;
    if i == j {
      ProgressesReflexive(Load(Reached(first, links, i)));
    } else {
      ChainProgresses(jobs, t, first, links, last, i, j - 1);
      EveryLinkIsSound(jobs, t, first, links, last, j - 1);
      LinkProgresses(jobs, t, links[j - 1]);
      ProgressesTransitive(Load(Reached(first, links, i)), Load(Reached(first, links, j - 1)), Load(links[j - 1].result));
    }
  }

  lemma LinkProgresses(jobs: Jobs, t: Table, link: Link)
    requires Justified(jobs, t, link) && Sound(Load(link.base))
    ensures Progresses(Load(link.base), Load(link.result))
  {
    hide Sound, Load, Decide, Progresses;
    CommitProgresses(link.base, jobs[link.owner].request, link.now);
  }

  lemma ProgressesReflexive(m: Metadata)
    ensures Progresses(m, m)
  {
  }

  lemma CommitProgresses(row: Row, request: Request, now: int)
    requires Sound(Load(row)) && Decide(row, request, now).Write?
    ensures Progresses(Load(row), Load(Decide(row, request, now).row))
  {
    hide Sound, Load, Decide, KeepsDirection, IsPrefix, ParseAll;
    CommitKeepsDirection(row, request, now);
    CommitExtendsLog(row, request, now);
  }

  /** Between any two moments of a run from created tables, a row only progresses. */
  lemma RowsProgress(rows: map<Table, Row>, jobs: Jobs, events: seq<Event>, states: seq<System>, i: nat, j: nat, t: Table)
    requires IsRun(rows, jobs, events, states) && i <= j < |states| && t in rows && Inserted(rows[t])
    ensures t in states[i].rows && t in states[j].rows
    ensures Progresses(Load(states[i].rows[t]), Load(states[j].rows[t]))
  {
    hide IsRun, Sound, Load, Inserted, Justified, Progresses, KeepsDirection;
    RunKeepsInv(rows, jobs, events, states, i);
    RunKeepsInv(rows, jobs, events, states, j);
    InsertedIsSound(rows[t]);
    HistoryOnlyGrows(rows, jobs, events, states, i, j, t);
    var early, late := states[i].history[t], states[j].history[t];
    assert Reached(rows[t], early, |early|) == Reached(rows[t], late, |early|);
    ChainProgresses(jobs, t, rows[t], late, states[j].rows[t], |early|, |late|);
  }

  // ---------------------------------------------------------------- what commits keep, runs keep

  /** A property of loaded metadata that every link of a stretch of history keeps holds at its end. */
  lemma {:induction false} ChainKeeps(p: Metadata -> bool, first: Row, links: seq<Link>, last: Row, i: nat, j: nat)
    requires Chain(first, links, last) && i <= j <= |links| && p(Load(Reached(first, links, i)))
    requires forall k :: i <= k < j && p(Load(links[k].base)) ==> p(Load(links[k].result))
    ensures p(Load(Reached(first, links, j)))
    decreases j
  {
    hide Load;
    if i < j { ChainKeeps(p, first, links, last, i, j - 1); }
  }

  /** What happened to table t between two moments of a run. */
  ghost function Between(states: seq<System>, i: nat, j: nat, t: Table): seq<Link>
    requires i < |states| && j < |states| && t in states[i].history && t in states[j].history
  {
    if |states[i].history[t]| <= |states[j].history[t]| then states[j].history[t][|states[i].history[t]|..] else []
  }

  lemma RunKeeps(p: Metadata -> bool, rows: map<Table, Row>, jobs: Jobs, events: seq<Event>, states: seq<System>,
                 i: nat, j: nat, t: Table)
    requires IsRun(rows, jobs, events, states) && i <= j < |states| && t in rows
    requires t in states[i].rows && t in states[i].history && t in states[j].history
    requires p(Load(states[i].rows[t]))
    requires forall link :: link in Between(states, i, j, t) && Justified(jobs, t, link) && p(Load(link.base)) ==> p(Load(link.result))
    ensures t in states[j].rows && p(Load(states[j].rows[t]))
  {
    hide IsRun, Load, Justified;
    RunKeepsInv(rows, jobs, events, states, i);
    RunKeepsInv(rows, jobs, events, states, j);
    HistoryOnlyGrows(rows, jobs, events, states, i, j, t);
    var early, late := states[i].history[t], states[j].history[t];
    assert Reached(rows[t], early, |early|) == Reached(rows[t], late, |early|);
    forall k | |early| <= k < |late| && p(Load(late[k].base)) ensures p(Load(late[k].result)) {
      assert late[|early|..][k - |early|] == late[k];
      assert Justified(jobs, t, late[k]);
    }
    ChainKeeps(p, rows[t], late, states[j].rows[t], |early|, |late|);
  }

  /** Histories begin empty, and every table has one. */
  lemma StartOfHistory(rows: map<Table, Row>, jobs: Jobs, events: seq<Event>, states: seq<System>, n: nat, t: Table)
    requires IsRun(rows, jobs, events, states) && n < |states| && t in rows
    ensures t in states[n].history && t in states[n].rows
    ensures t in states[0].history && states[0].history[t] == [] && t in states[0].rows && states[0].rows[t] == rows[t]
    ensures Between(states, 0, n, t) == states[n].history[t]
  {
    hide Inv, Fire, Enabled;
    LinearHistory(rows, jobs, events, states, n, t);
  }

  /** The parsed updates of the request behind a link; none of a justified link's is malformed. */
  ghost function UpdatesOf(jobs: Jobs, link: Link): seq<Update> {
    if link.owner in jobs && jobs[link.owner].CommitTable? && ParseAll(jobs[link.owner].request.updates).AllParsed?
    then ParseAll(jobs[link.owner].request.updates).us else []
  }

  // ---------------------------------------------------------------- column marks

  ghost predicate MarkKept(link: Link, kind: Kind) {
    FamilyOf(Load(link.base), kind).lastFieldId.Or(0) <= FamilyOf(Load(link.result), kind).lastFieldId.Or(0)
  }

  /** All hints of the link's request are readable, or there was nothing to fall below. */
  ghost predicate HintsReadable(jobs: Jobs, link: Link) {
    Load(link.base).schemas.lastFieldId == Is(MIN_INT64) || HintsFit(UpdatesOf(jobs, link), SchemaKind)
  }

  lemma LinkOnMark(jobs: Jobs, t: Table, link: Link)
    requires Justified(jobs, t, link)
    ensures MarkKept(link, SchemaKind) <==> HintsReadable(jobs, link)
    ensures forall kind :: kind != SchemaKind ==> MarkKept(link, kind)
  {
    hide Load, Decide, HintsFit, ParseAll;
    var request := jobs[link.owner].request;
    CommitOnMark(link.base, request, link.now, SchemaKind);
    forall kind | kind != SchemaKind ensures MarkKept(link, kind) {
      CommitRaisesOtherMarks(link.base, request, link.now, kind);
    }
  }

  /** Between two moments of a run, last-column-id as loaded does not fall while hints are readable;
      last-partition-id never does. */
  lemma RowsRaiseMarks(rows: map<Table, Row>, jobs: Jobs, events: seq<Event>, states: seq<System>, i: nat, j: nat,
                       t: Table, kind: Kind)
    requires IsRun(rows, jobs, events, states) && i <= j < |states| && t in rows
    requires t in states[i].history && t in states[j].history && t in states[i].rows && t in states[j].rows
    requires kind == SchemaKind ==> forall link :: link in Between(states, i, j, t) ==> HintsReadable(jobs, link)
    ensures FamilyOf(Load(states[i].rows[t]), kind).lastFieldId.Or(0)
         <= FamilyOf(Load(states[j].rows[t]), kind).lastFieldId.Or(0)
  {
    hide IsRun, Load, Justified, HintsReadable, FamilyOf;
    var mark := FamilyOf(Load(states[i].rows[t]), kind).lastFieldId.Or(0);
    forall link | link in Between(states, i, j, t) && Justified(jobs, t, link) ensures MarkKept(link, kind) {
      LinkOnMark(jobs, t, link);
    }
    RunKeeps((m: Metadata) => mark <= FamilyOf(m, kind).lastFieldId.Or(0), rows, jobs, events, states, i, j, t);
  }

  /** No commit of a run ever lowers last-column-id exactly when every commit's hints are readable. */
  lemma MarkNeverFallsExactly(rows: map<Table, Row>, jobs: Jobs, events: seq<Event>, states: seq<System>, n: nat, t: Table)
    requires IsRun(rows, jobs, events, states) && n < |states| && t in rows
    ensures t in states[n].history
    ensures (forall link :: link in states[n].history[t] ==> MarkKept(link, SchemaKind))
       <==> (forall link :: link in states[n].history[t] ==> HintsReadable(jobs, link))
  {
    hide IsRun, Justified, HintsReadable, MarkKept;
    RunKeepsInv(rows, jobs, events, states, n);
    forall link | link in states[n].history[t] ensures MarkKept(link, SchemaKind) <==> HintsReadable(jobs, link) {
      var k :| 0 <= k < |states[n].history[t]| && states[n].history[t][k] == link;
      assert Justified(jobs, t, states[n].history[t][k]);
      LinkOnMark(jobs, t, link);
    }
  }

  // ---------------------------------------------------------------- columns, ids, selections, statistics

  /** From its insertion on, while column hints are readable, every committed last-column-id bounds every
      top-level field id of every schema. */
  lemma CommittedColumnsAreBounded(rows: map<Table, Row>, jobs: Jobs, events: seq<Event>, states: seq<System>, n: nat, t: Table)
    requires IsRun(rows, jobs, events, states) && n < |states| && t in rows && Inserted(rows[t])
    requires forall link :: t in states[n].history && link in states[n].history[t] ==> HintsFit(UpdatesOf(jobs, link), SchemaKind)
    ensures t in states[n].rows && ColumnsBounded(Load(states[n].rows[t]).schemas)
  {
    hide IsRun, Load, Inserted, Justified, HintsFit, ColumnsBounded, Between;
    InsertedIsTidy(rows[t]);
    StartOfHistory(rows, jobs, events, states, n, t);
    forall link | link in Between(states, 0, n, t) && Justified(jobs, t, link) && ColumnsBounded(Load(link.base).schemas)
      ensures ColumnsBounded(Load(link.result).schemas)
    {
      LinkKeepsColumns(jobs, t, link);
    }
    RunKeeps((m: Metadata) => ColumnsBounded(m.schemas), rows, jobs, events, states, 0, n, t);
  }

  lemma LinkKeepsColumns(jobs: Jobs, t: Table, link: Link)
    requires Justified(jobs, t, link) && ColumnsBounded(Load(link.base).schemas) && HintsFit(UpdatesOf(jobs, link), SchemaKind)
    ensures ColumnsBounded(Load(link.result).schemas)
  {
    hide Load, Decide, HintsFit, ParseAll, ColumnsBounded;
    CommitOnColumns(link.base, jobs[link.owner].request, link.now);
  }

  /** While one family's assigned ids have room, that family's committed ids are distinct. */
  lemma CommittedIdsAreDistinct(rows: map<Table, Row>, jobs: Jobs, events: seq<Event>, states: seq<System>, n: nat,
                                t: Table, kind: Kind)
    requires IsRun(rows, jobs, events, states) && n < |states| && t in rows && Inserted(rows[t])
    requires forall link :: t in states[n].history && link in states[n].history[t] ==>
               Room(FamilyOf(Load(link.base), kind).entries.Or([]), UpdatesOf(jobs, link), kind)
    ensures t in states[n].rows && IdsTidy(FamilyOf(Load(states[n].rows[t]), kind))
  {
    hide IsRun, Load, Inserted, Justified, Room, IdsTidy, FamilyOf, Between;
    InsertedIsTidy(rows[t]);
    StartOfHistory(rows, jobs, events, states, n, t);
    forall link | link in Between(states, 0, n, t) && Justified(jobs, t, link) && IdsTidy(FamilyOf(Load(link.base), kind))
      ensures IdsTidy(FamilyOf(Load(link.result), kind))
    {
      LinkKeepsIds(jobs, t, link, kind);
    }
    RunKeeps((m: Metadata) => IdsTidy(FamilyOf(m, kind)), rows, jobs, events, states, 0, n, t);
  }

  lemma LinkKeepsIds(jobs: Jobs, t: Table, link: Link, kind: Kind)
    requires Justified(jobs, t, link) && IdsTidy(FamilyOf(Load(link.base), kind))
    requires Room(FamilyOf(Load(link.base), kind).entries.Or([]), UpdatesOf(jobs, link), kind)
    ensures IdsTidy(FamilyOf(Load(link.result), kind))
  {
    hide Load, Decide, Room, ParseAll, IdsTidy;
    CommitOnMark(link.base, jobs[link.owner].request, link.now, kind);
    CommitKeepsIds(link.base, jobs[link.owner].request, link.now, kind);
  }

  /** A selection that is valid at some moment is valid at every later one, without any premise. */
  lemma SelectionsStayValid(rows: map<Table, Row>, jobs: Jobs, events: seq<Event>, states: seq<System>, i: nat, j: nat,
                            t: Table, kind: Kind)
    requires IsRun(rows, jobs, events, states) && i <= j < |states| && t in rows
    requires t in states[i].rows && PointsInto(FamilyOf(Load(states[i].rows[t]), kind))
    ensures t in states[j].rows && PointsInto(FamilyOf(Load(states[j].rows[t]), kind))
  {
    hide IsRun, Load, Justified, PointsInto, FamilyOf, Between;
    StartOfHistory(rows, jobs, events, states, i, t);
    StartOfHistory(rows, jobs, events, states, j, t);
    forall link | link in Between(states, i, j, t) && Justified(jobs, t, link) && PointsInto(FamilyOf(Load(link.base), kind))
      ensures PointsInto(FamilyOf(Load(link.result), kind))
    {
      LinkKeepsSelection(jobs, t, link, kind);
    }
    RunKeeps((m: Metadata) => PointsInto(FamilyOf(m, kind)), rows, jobs, events, states, i, j, t);
  }

  lemma LinkKeepsSelection(jobs: Jobs, t: Table, link: Link, kind: Kind)
    requires Justified(jobs, t, link) && PointsInto(FamilyOf(Load(link.base), kind))
    ensures PointsInto(FamilyOf(Load(link.result), kind))
  {
    hide Load, Decide, PointsInto;
    CommitKeepsSelection(link.base, jobs[link.owner].request, link.now, kind);
  }

  /** While deprecated statistics ids survive, committed statistics are unique per snapshot. */
  lemma CommittedStatisticsAreUnique(rows: map<Table, Row>, jobs: Jobs, events: seq<Event>, states: seq<System>, n: nat, t: Table)
    requires IsRun(rows, jobs, events, states) && n < |states| && t in rows && Inserted(rows[t])
    requires forall link, u :: t in states[n].history && link in states[n].history[t] && u in UpdatesOf(jobs, link) ==> StatIdFits(u)
    ensures t in states[n].rows && StatisticsTidy(Load(states[n].rows[t]))
  {
    hide IsRun, Load, Inserted, Justified, StatIdFits, StatisticsTidy, Between;
    InsertedIsTidy(rows[t]);
    StartOfHistory(rows, jobs, events, states, n, t);
    forall link | link in Between(states, 0, n, t) && Justified(jobs, t, link) && StatisticsTidy(Load(link.base))
      ensures StatisticsTidy(Load(link.result))
    {
      LinkKeepsStatistics(jobs, t, link);
    }
    RunKeeps((m: Metadata) => StatisticsTidy(m), rows, jobs, events, states, 0, n, t);
  }

  lemma LinkKeepsStatistics(jobs: Jobs, t: Table, link: Link)
    requires Justified(jobs, t, link) && StatisticsTidy(Load(link.base))
    requires forall u :: u in UpdatesOf(jobs, link) ==> StatIdFits(u)
    ensures StatisticsTidy(Load(link.result))
  {
    hide Load, Decide, ParseAll, StatIdFits, StatisticsTidy;
    CommitOnMark(link.base, jobs[link.owner].request, link.now, SchemaKind);
    CommitKeepsStatistics(link.base, jobs[link.owner].request, link.now);
  }
}
