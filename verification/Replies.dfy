/** Who holds which lock, why a commit can always go on, and why a client is told what it is told. */
module Replies {
  import opened TableMetadata
  import opened Requests
  import opened Commits
  import opened Verdicts
  import opened Protocol

  // ---------------------------------------------------------------- who holds which lock

  /** The client is in a transaction that has read the table. */
  ghost predicate HasRead(jobs: Jobs, s: System, c: Client, t: Table) {
    && c in jobs && c in s.phases
    && exists i :: 0 <= i < |s.phases[c].Seen()| && i < |jobs[c].Tables()| && jobs[c].Tables()[i] == t
  }

  ghost predicate HoldersHaveRead(jobs: Jobs, s: System) {
    forall t :: t in s.locks ==> HasRead(jobs, s, s.locks[t], t)
  }

  lemma StillRead(jobs: Jobs, s: System, s': System, c: Client, t: Table)
    requires HasRead(jobs, s, c, t) && c in s'.phases
    requires s.phases[c].Seen() <= s'.phases[c].Seen()
    ensures HasRead(jobs, s', c, t)
  {
  }

  lemma LockKeepsHolders(jobs: Jobs, s: System, c: Client)
    requires HoldersHaveRead(jobs, s) && Enabled(jobs, s, Lock(c))
    ensures HoldersHaveRead(jobs, Fire(jobs, s, Lock(c)))
  {
    hide HasRead, Fire, Enabled, NextTable;
    LockShape(jobs, s, c);
    var after, next := Fire(jobs, s, Lock(c)), NextTable(jobs, s, c).value;
    forall t | t in after.locks ensures HasRead(jobs, after, after.locks[t], t) {
      if t == next {
        JustRead(jobs, s, c);
      } else {
        ReadersKnown(jobs, s, s.locks[t], t);
        StillRead(jobs, s, after, s.locks[t], t);
      }
    }
  }

  lemma LockShape(jobs: Jobs, s: System, c: Client)
    requires Enabled(jobs, s, Lock(c))
    ensures c in s.phases && c in jobs && NextTable(jobs, s, c).Some?
    ensures var after := Fire(jobs, s, Lock(c));
            && after.locks == s.locks[NextTable(jobs, s, c).value := c]
            && forall d :: d in s.phases ==> d in after.phases && s.phases[d].Seen() <= after.phases[d].Seen()
  {
    hide RequirementsHold;
  }

  lemma JustRead(jobs: Jobs, s: System, c: Client)
    requires Enabled(jobs, s, Lock(c))
    ensures HasRead(jobs, Fire(jobs, s, Lock(c)), c, NextTable(jobs, s, c).value)
  {
    hide RequirementsHold;
    assert jobs[c].Tables()[|s.phases[c].Seen()|] == NextTable(jobs, s, c).value;
  }

  /** Whoever leaves releases, and nobody else's reading changes. */
  lemma LeaveKeepsHolders(jobs: Jobs, s: System, s': System, c: Client, phase: Phase)
    requires HoldersHaveRead(jobs, s) && s'.locks == s.locks && s'.phases == s.phases
    ensures HoldersHaveRead(jobs, Leave(s', c, phase))
  {
    hide HasRead;
    var after := Leave(s', c, phase);
    forall t | t in after.locks ensures HasRead(jobs, after, after.locks[t], t) {
      StillThere(jobs, s, after, s.locks[t], t, c);
    }
  }

  lemma StillThere(jobs: Jobs, s: System, s': System, d: Client, t: Table, c: Client)
    requires HasRead(jobs, s, d, t) && d != c && s'.phases == s.phases[c := if c in s'.phases then s'.phases[c] else Waiting(0)]
    ensures HasRead(jobs, s', d, t)
  {
  }

  lemma FireKeepsHolders(jobs: Jobs, s: System, e: Event)
    requires HoldersHaveRead(jobs, s) && Enabled(jobs, s, e)
    ensures HoldersHaveRead(jobs, Fire(jobs, s, e))
  {
    hide HasRead, HoldersHaveRead, Decide, RequirementsHold;
    var c, after := e.client, Fire(jobs, s, e);
    match e {
      case Lock(_) => LockKeepsHolders(jobs, s, c);
      case TimeOut(_) => LeaveKeepsHolders(jobs, s, s, c, after.phases[c]);
      case Abort(_) => LeaveKeepsHolders(jobs, s, s, c, after.phases[c]);
      case Commit(_) => LeaveKeepsHolders(jobs, s, Effect(jobs, s, c), c, after.phases[c]);
      case CommitFails(_, lost) =>
        LeaveKeepsHolders(jobs, s, if lost then s else Effect(jobs, s, c), c, after.phases[c]);
      case _ => SameReads(jobs, s, after);
    }
  }

  lemma SameReads(jobs: Jobs, s: System, s': System)
    requires HoldersHaveRead(jobs, s) && s'.locks == s.locks
    requires forall c :: c in s.phases ==> c in s'.phases && s.phases[c].Seen() <= s'.phases[c].Seen()
    ensures HoldersHaveRead(jobs, s')
  {
    hide HasRead;
    forall t | t in s'.locks ensures HasRead(jobs, s', s'.locks[t], t) {
      ReadersKnown(jobs, s, s.locks[t], t);
      StillRead(jobs, s, s', s.locks[t], t);
    }
  }

  lemma ReadersKnown(jobs: Jobs, s: System, c: Client, t: Table)
    requires HasRead(jobs, s, c, t)
    ensures c in jobs && c in s.phases && s.phases[c].Seen() != []
  {
  }

  lemma {:induction false} RunKeepsHolders(rows: map<Table, Row>, jobs: Jobs, events: seq<Event>, states: seq<System>, n: nat)
    requires IsRun(rows, jobs, events, states) && n < |states|
    ensures HoldersHaveRead(jobs, states[n])
  {
    hide HasRead, HoldersHaveRead, Fire, Enabled;
    if n == 0 {
      NoLocksAtFirst(rows, jobs);
    } else {
      RunKeepsHolders(rows, jobs, events, states, n - 1);
      FireKeepsHolders(jobs, states[n - 1], events[n - 1]);
    }
  }

  lemma NoLocksAtFirst(rows: map<Table, Row>, jobs: Jobs)
    ensures HoldersHaveRead(jobs, Initial(rows, jobs))
  {
  }

  /** In every run a client holds the lock of a table exactly while it is in a transaction that has
      read that table; in particular nobody who waits or is done holds one. */
  lemma LockedExactlyWhileRead(rows: map<Table, Row>, jobs: Jobs, events: seq<Event>, states: seq<System>, n: nat,
                               c: Client, t: Table)
    requires IsRun(rows, jobs, events, states) && n < |states| && c in jobs
    ensures c in states[n].phases
    ensures t in states[n].locks && states[n].locks[t] == c <==> HasRead(jobs, states[n], c, t)
    ensures states[n].phases[c].Waiting? || states[n].phases[c].Done? ==> c !in states[n].locks.Values
  {
    hide IsRun, HistoryOk, OutcomeOk, ReadingOk, AttemptOk, OwnershipOk;
    RunKeepsInv(rows, jobs, events, states, n);
    RunKeepsHolders(rows, jobs, events, states, n);
    var s := states[n];
    assert HoldsWhatItRead(jobs, s.rows, s.locks, c, s.phases[c].Seen());
    if HasRead(jobs, s, c, t) {
      var i :| 0 <= i < |s.phases[c].Seen()| && i < |jobs[c].Tables()| && jobs[c].Tables()[i] == t;
      assert LockedAs(s.rows, s.locks, c, jobs[c].Tables()[i], s.phases[c].Seen()[i]);
    }
  }

  // ---------------------------------------------------------------- a commit can always go on

  /** Everything but an error, a timeout or a cancellation. */
  predicate GoesOn(e: Event) {
    e.Lock? || e.Missing? || e.Close? || e.GiveUp? || e.Commit?
  }

  /** A client in a single-table transaction that has read its row can close or commit. */
  lemma ReaderGoesOn(jobs: Jobs, s: System, c: Client) returns (e: Event)
    requires c in jobs && c in s.phases && jobs[c].CommitTable? && s.phases[c].Seen() != []
    ensures GoesOn(e) && Enabled(jobs, s, e)
  {
    e := if s.phases[c].Closing? then Commit(c) else Close(c, 0);
  }

  /** Commits to single tables never block one another for good: while one of them is not answered,
      something other than a timeout, an error or a cancellation can happen. */
  lemma CommitsNeverDeadlock(rows: map<Table, Row>, jobs: Jobs, events: seq<Event>, states: seq<System>, n: nat, c: Client)
      returns (e: Event)
    requires IsRun(rows, jobs, events, states) && n < |states|
    requires forall d :: d in jobs ==> jobs[d].CommitTable?
    requires c in jobs && c in states[n].phases && !states[n].phases[c].Done?
    ensures GoesOn(e) && Enabled(jobs, states[n], e)
  {
    hide IsRun, HasRead, Fire;
    RunKeepsHolders(rows, jobs, events, states, n);
    var s := states[n];
    var p, t := s.phases[c], jobs[c].table;
    if p.Seen() != [] {
      e := ReaderGoesOn(jobs, s, c);
    } else if p.Closing? {
      e := Commit(c);
    } else if t in s.locks && s.locks[t] != c {
      ReadersKnown(jobs, s, s.locks[t], t);
      e := ReaderGoesOn(jobs, s, s.locks[t]);
    } else {
      assert jobs[c].Tables()[0] == t;
      e := if p.Waiting? && p.attempt > jobs[c].Retries() then GiveUp(c) else if t in s.rows then Lock(c) else Missing(c);
    }
  }

  lemma LocksWithoutRequirements(jobs: Jobs, s: System, c: Client, t: Table)
    requires c in jobs && c in s.phases && s.phases[c] == Waiting(0) && t in s.rows && t !in s.locks
    requires jobs[c].CommitTransaction? && jobs[c].maxRetries == 0 && |jobs[c].changes| > 0
    requires jobs[c].changes[0] == Change(t, [])
    ensures Enabled(jobs, s, Lock(c))
    ensures Fire(jobs, s, Lock(c)) == s.(locks := s.locks[t := c], phases := s.phases[c := Reading(0, [s.rows[t]])])
  {
    hide Load, Holds;
    assert jobs[c].Tables()[0] == t;
    assert [] + [s.rows[t]] == [s.rows[t]];
  }

  /** Transactions over several tables can: each of these two waits for the row the other one has
      locked, until a statement times out. */
  lemma TransactionsCanDeadlock(row: Row) returns (rows: map<Table, Row>, jobs: Jobs, states: seq<System>)
    ensures IsRun(rows, jobs, [Lock(0), Lock(1)], states)
    ensures forall c :: c in {0, 1} ==> c in states[2].phases && states[2].phases[c].Reading?
    ensures forall e :: GoesOn(e) ==> !Enabled(jobs, states[2], e)
  {
    hide RequirementsHold, Fire, Load;
    var a, b := Change("a", []), Change("b", []);
    assert a.table[0] != b.table[0];
    rows := map["a" := row, "b" := row];
    jobs := map[0 := CommitTransaction([a, b], 0), 1 := CommitTransaction([b, a], 0)];
    var first := Initial(rows, jobs);
    LocksWithoutRequirements(jobs, first, 0, "a");
    var second := Fire(jobs, first, Lock(0));
    LocksWithoutRequirements(jobs, second, 1, "b");
    states := [first, second, Fire(jobs, second, Lock(1))];
    assert jobs[0].Tables()[1] == "b" && jobs[1].Tables()[1] == "a";
  }

  /** Whatever the state: an unanswered client can meet an error, one whose closure has returned can
      learn that COMMIT failed with its effect kept or lost, and one that has attempts left, or is
      reading, can time out. */
  lemma FaultsCanHappen(jobs: Jobs, s: System, c: Client, lost: bool)
    requires c in jobs && c in s.phases && !s.phases[c].Done?
    ensures Enabled(jobs, s, Abort(c))
    ensures s.phases[c].Closing? ==> Enabled(jobs, s, CommitFails(c, lost))
    ensures s.phases[c].Reading? || (s.phases[c].Waiting? && s.phases[c].attempt <= jobs[c].Retries()) ==> Enabled(jobs, s, TimeOut(c))
  {
  }

  // ---------------------------------------------------------------- why a client is told what it is told

  function RequirementsOf(job: Job, i: nat): seq<Requirement>
    requires i < |job.Tables()|
  {
    match job
    case CommitTable(_, request, _) => request.requirements
    case CommitTransaction(changes, _) => changes[i].requirements
  }

  /** The client has the i-th row of its job locked, and its requirements hold on it. */
  ghost predicate Passed(job: Job, s: System, c: Client, i: nat)
    requires i < |job.Tables()|
  {
    LockedBy(s, c, job.Tables()[i]) && AllHold(Load(s.rows[job.Tables()[i]]), RequirementsOf(job, i))
  }

  ghost predicate LockedBy(s: System, c: Client, t: Table) {
    t in s.rows && t in s.locks && s.locks[t] == c
  }

  /** The job got as far as its i-th table: that one is missing, or locked and short of a requirement. */
  ghost predicate StoppedAt(job: Job, s: System, c: Client, i: nat, missing: bool) {
    && i < |job.Tables()| && (forall j :: 0 <= j < i ==> Passed(job, s, c, j))
    && if missing then job.Tables()[i] !in s.rows
       else LockedBy(s, c, job.Tables()[i]) && !AllHold(Load(s.rows[job.Tables()[i]]), RequirementsOf(job, i))
  }

  /** What makes a job that ran to its end be answered so, as the rows are at that moment. */
  ghost predicate Deserves(job: Job, s: System, c: Client, reply: Reply) {
    match reply
    case NotFound => exists i :: StoppedAt(job, s, c, i, true)
    case Conflict => exists i :: StoppedAt(job, s, c, i, false)
    case OkMany(rows) =>
      job.CommitTransaction? && |rows| == |job.changes|
      && forall i :: 0 <= i < |rows| ==> Passed(job, s, c, i) && rows[i] == s.rows[job.Tables()[i]]
    case _ => job.CommitTable? && Passed(job, s, c, 0) && RunDeserves(s.rows[job.table], job.request, reply)
  }

  /** What becomes of a request whose requirements hold. */
  ghost predicate RunDeserves(row: Row, request: Request, reply: Reply) {
    var o := ApplyRequest(Load(row), request.updates);
    && (o.failure.Some? <==> reply.BadRequest?)
    && (reply.ServerError? ==> !Addressable(o.meta))
    && (reply.Ok? ==> Addressable(o.meta) && reply.row.metadata.(lastUpdatedMs := o.meta.lastUpdatedMs) == o.meta)
  }

  /** The same of a phase, by the rows its client read. */
  ghost predicate ClosingOk(job: Job, tables: set<Table>, p: Phase) {
    p.Closing? ==>
      && |p.seen| <= |job.Tables()|
      && match p.outcome
         case Writes(now, row) => job.CommitTable? && |p.seen| == 1 && Decide(p.seen[0], job.request, now) == Write(row)
         case Reports => AllChecked(job, p.seen)
         case Refuses(reply) =>
           match reply
           case NotFound => SeenPass(job, p.seen, |p.seen|) && |p.seen| < |job.Tables()| && job.Tables()[|p.seen|] !in tables
           case Conflict =>
             && |p.seen| > 0 && SeenPass(job, p.seen, |p.seen| - 1)
             && !RequirementsHold(Load(p.seen[|p.seen| - 1]), RequirementsOf(job, |p.seen| - 1))
           case BadRequest => job.CommitTable? && |p.seen| == 1 && exists now :: Decide(p.seen[0], job.request, now).UpdateFailed?
           case ServerError => job.CommitTable? && |p.seen| == 1 && exists now :: Decide(p.seen[0], job.request, now).Broken?
           case _ => false
  }

  ghost predicate SeenPass(job: Job, seen: seq<Row>, n: nat)
    requires n <= |seen| <= |job.Tables()|
  {
    forall i :: 0 <= i < n ==> RequirementsHold(Load(seen[i]), RequirementsOf(job, i))
  }

  lemma CloseMakesClosingOk(job: Job, tables: set<Table>, p: Phase, now: int)
    requires job.CommitTable? && p.Reading? && |p.seen| == 1
    ensures ClosingOk(job, tables, Closing(p.attempt, p.seen, ClosureOutcome(Decide(p.seen[0], job.request, now), now)))
  {
    hide RequirementsHold, Load, Addressable, AllHold, ApplyRequest;
    var verdict := Decide(p.seen[0], job.request, now);
    if verdict.RequirementFailed? {
      DecidesExactly(p.seen[0], job.request, now);
      HeldByMember(Load(p.seen[0]), job.request.requirements);
    }
  }

  lemma HeldByMember(m: Metadata, requirements: seq<Requirement>)
    ensures RequirementsHold(m, requirements) <==> AllHold(m, requirements)
  {
    hide Holds;
  }

  lemma FireMakesClosingOk(jobs: Jobs, s: System, e: Event)
    requires Enabled(jobs, s, e) && PhaseOk(jobs, e.client, s.phases[e.client])
    ensures ClosingOk(jobs[e.client], s.rows.Keys, Fire(jobs, s, e).phases[e.client])
  {
    hide Decide, RequirementsHold, Load, ClosingOk, OutcomeOk;
    var c := e.client;
    var job, p, tables, after := jobs[c], s.phases[c], s.rows.Keys, Fire(jobs, s, e).phases[c];
    match e {
      case Lock(_) => LockMakesClosingOk(jobs, s, c);
      case Missing(_) => MissingMakesClosingOk(jobs, s, c);
      case Close(_, now) =>
        if job.CommitTable? { CloseMakesClosingOk(job, tables, p, now); } else { ReportMakesClosingOk(job, tables, p); }
      case _ => NotClosing(job, tables, after);
    }
  }

  lemma NotClosing(job: Job, tables: set<Table>, p: Phase)
    requires !p.Closing?
    ensures ClosingOk(job, tables, p)
  {
  }

  lemma ReportMakesClosingOk(job: Job, tables: set<Table>, p: Phase)
    requires job.CommitTransaction? && p.Reading? && ReadingOk(job, p) && |p.seen| == |job.Tables()|
    ensures ClosingOk(job, tables, Closing(p.attempt, p.seen, Reports))
  {
    hide RequirementsHold, Load;
  }

  lemma LockMakesClosingOk(jobs: Jobs, s: System, c: Client)
    requires Enabled(jobs, s, Lock(c)) && ReadingOk(jobs[c], s.phases[c])
    ensures ClosingOk(jobs[c], s.rows.Keys, Fire(jobs, s, Lock(c)).phases[c])
  {
    hide RequirementsHold, Load;
  }

  lemma MissingMakesClosingOk(jobs: Jobs, s: System, c: Client)
    requires Enabled(jobs, s, Missing(c)) && ReadingOk(jobs[c], s.phases[c])
    ensures ClosingOk(jobs[c], s.rows.Keys, Fire(jobs, s, Missing(c)).phases[c])
  {
    hide RequirementsHold, Load;
  }

  lemma {:induction false} RunKeepsClosing(rows: map<Table, Row>, jobs: Jobs, events: seq<Event>, states: seq<System>,
                                           n: nat, c: Client)
    requires IsRun(rows, jobs, events, states) && n < |states| && c in jobs
    ensures c in states[n].phases && ClosingOk(jobs[c], rows.Keys, states[n].phases[c])
  {
    hide ClosingOk, Fire, Enabled, HistoryOk, LocksOk, OwnershipOk, PhaseOk;
    RunKeepsInv(rows, jobs, events, states, n);
    if n == 0 {
      NotClosing(jobs[c], rows.Keys, states[0].phases[c]);
    } else {
      RunKeepsClosing(rows, jobs, events, states, n - 1, c);
      RunKeepsInv(rows, jobs, events, states, n - 1);
      StepKeepsClosing(rows, jobs, states[n - 1], events[n - 1], c);
    }
  }

  lemma StepKeepsClosing(rows: map<Table, Row>, jobs: Jobs, s: System, e: Event, c: Client)
    requires Inv(rows, jobs, s) && Enabled(jobs, s, e) && c in jobs && ClosingOk(jobs[c], rows.Keys, s.phases[c])
    ensures c in Fire(jobs, s, e).phases && ClosingOk(jobs[c], rows.Keys, Fire(jobs, s, e).phases[c])
  {
    hide ClosingOk, LocksOk, OwnershipOk, OutcomeOk, ReadingOk, AttemptOk, Chain, Justified;
    if c == e.client {
      assert PhaseOk(jobs, c, s.phases[c]);
      FireMakesClosingOk(jobs, s, e);
    } else {
      OthersStand(jobs, s, e, c);
    }
    FireKeepsInv(rows, jobs, s, e);
  }

  lemma OthersStand(jobs: Jobs, s: System, e: Event, c: Client)
    requires Enabled(jobs, s, e) && c != e.client && c in s.phases
    ensures c in Fire(jobs, s, e).phases && Fire(jobs, s, e).phases[c] == s.phases[c]
  {
    hide Decide, RequirementsHold;
  }

  lemma RunDecides(row: Row, request: Request, p: Phase)
    requires p.Closing? && (p.outcome.Writes? || p.outcome == Refuses(BadRequest) || p.outcome == Refuses(ServerError))
    requires p.outcome.Writes? ==> Decide(row, request, p.outcome.now) == Write(p.outcome.row)
    requires p.outcome == Refuses(BadRequest) ==> exists now :: Decide(row, request, now).UpdateFailed?
    requires p.outcome == Refuses(ServerError) ==> exists now :: Decide(row, request, now).Broken?
    ensures AllHold(Load(row), request.requirements) && RunDeserves(row, request, ReplyOf(p))
  {
    hide Decide, AllHold, Load, ApplyRequest, Addressable;
    if p.outcome.Writes? {
      DecidesExactly(row, request, p.outcome.now);
      WrittenRow(row, request, p.outcome.now);
    } else {
      var now :| if p.outcome == Refuses(BadRequest) then Decide(row, request, now).UpdateFailed? else Decide(row, request, now).Broken?;
      DecidesExactly(row, request, now);
    }
  }

  /** While its transaction is open, what a client read is what is committed. */
  lemma ClosingDeserves(rows: map<Table, Row>, jobs: Jobs, s: System, c: Client)
    requires Inv(rows, jobs, s) && c in jobs && s.phases[c].Closing? && ClosingOk(jobs[c], rows.Keys, s.phases[c])
    ensures Deserves(jobs[c], s, c, ReplyOf(s.phases[c]))
  {
    hide OutcomeOk, ReadingOk, AttemptOk, OwnershipOk, Chain, Justified, RequirementsHold, AllHold, Load, Decide, ApplyRequest,
      Addressable;
    var job, seen := jobs[c], s.phases[c].seen;
    assert HoldsWhatItRead(jobs, s.rows, s.locks, c, s.phases[c].Seen());
    forall i | 0 <= i < |seen| ensures LockedBy(s, c, job.Tables()[i]) && s.rows[job.Tables()[i]] == seen[i]
    {
      assert LockedAs(s.rows, s.locks, c, job.Tables()[i], seen[i]);
    }
    forall i | 0 <= i < |seen| ensures RequirementsHold(Load(seen[i]), RequirementsOf(job, i)) <==> Passed(job, s, c, i) {
      HeldByMember(Load(seen[i]), RequirementsOf(job, i));
    }
    var outcome := s.phases[c].outcome;
    if outcome.Refuses? && outcome.reply.NotFound? {
      assert StoppedAt(job, s, c, |seen|, true);
    } else if outcome.Refuses? && outcome.reply.Conflict? {
      HeldByMember(Load(seen[|seen| - 1]), RequirementsOf(job, |seen| - 1));
      assert StoppedAt(job, s, c, |seen| - 1, false);
    } else if !outcome.Reports? {
      HeldByMember(Load(seen[0]), job.request.requirements);
      RunDecides(seen[0], job.request, s.phases[c]);
    }
  }

  /** How many attempts of the client ended in a lock timeout. */
  function Timeouts(events: seq<Event>, c: Client): nat {
    if events == [] then 0
    else Timeouts(events[..|events| - 1], c) + (if events[|events| - 1] == TimeOut(c) then 1 else 0)
  }

  lemma {:induction false} AttemptsAreTimeouts(rows: map<Table, Row>, jobs: Jobs, events: seq<Event>, states: seq<System>,
                                               n: nat, c: Client)
    requires IsRun(rows, jobs, events, states) && n < |states| && c in jobs
    ensures c in states[n].phases
    ensures !states[n].phases[c].Done? ==> AttemptOf(states[n].phases[c]) == Timeouts(events[..n], c)
  {
    hide Inv, Fire, Enabled;
    RunKeepsInv(rows, jobs, events, states, n);
    InvPhases(rows, jobs, states[n]);
    if n > 0 {
      AttemptsAreTimeouts(rows, jobs, events, states, n - 1, c);
      assert events[..n][..n - 1] == events[..n - 1] && events[..n][n - 1] == events[n - 1];
      AttemptGrows(jobs, states[n - 1], events[n - 1], c);
    }
  }

  lemma InvPhases(rows: map<Table, Row>, jobs: Jobs, s: System)
    requires Inv(rows, jobs, s)
    ensures s.phases.Keys == jobs.Keys
  {
  }

  lemma EffectKeepsPhases(jobs: Jobs, s: System, c: Client)
    requires c in jobs && c in s.phases
    ensures Effect(jobs, s, c).phases == s.phases
  {
  }

  lemma AttemptGrows(jobs: Jobs, s: System, e: Event, c: Client)
    requires Enabled(jobs, s, e) && c in s.phases && c in Fire(jobs, s, e).phases
    ensures !Fire(jobs, s, e).phases[c].Done? ==>
              !s.phases[c].Done?
              && AttemptOf(Fire(jobs, s, e).phases[c]) == AttemptOf(s.phases[c]) + (if e == TimeOut(c) then 1 else 0)
  {
    hide Decide, RequirementsHold, Effect;
    EffectKeepsPhases(jobs, s, e.client);
  }

  /** How a client came to be done: its transaction committed and it is told what that deserves; every
      attempt timed out on a lock; or an error, a cancellation or, for several tables, a lock timeout
      ended it. */
  ghost predicate AnsweredBy(job: Job, events: seq<Event>, states: seq<System>, k: nat, c: Client, reply: Reply)
    requires k < |events| && k < |states|
  {
    match events[k]
    case Commit(_) => Deserves(job, states[k], c, reply)
    case GiveUp(_) => reply == Conflict && Timeouts(events[..k], c) == (if job.Retries() >= 0 then job.Retries() + 1 else 0)
    case CommitFails(_, _) => reply == ServerError
    case Abort(_) => reply == ServerError
    case TimeOut(_) => reply == ServerError && job.CommitTransaction?
    case _ => false
  }

  /** Whoever has an answer got it in one event of the run, of its own, for a reason that held then. */
  lemma {:induction false} AnswersHaveReasons(rows: map<Table, Row>, jobs: Jobs, events: seq<Event>, states: seq<System>,
                                              n: nat, c: Client)
      returns (k: nat)
    requires IsRun(rows, jobs, events, states) && n < |states|
    requires c in jobs && c in states[n].phases && states[n].phases[c].Done?
    ensures k < n && events[k].client == c && AnsweredBy(jobs[c], events, states, k, c, states[n].phases[c].reply)
  {
    hide Inv, Fire, Enabled, AnsweredBy;
    k := 0;
    if n > 0 {
      RunKeepsInv(rows, jobs, events, states, n - 1);
      InvPhases(rows, jobs, states[n - 1]);
      if states[n - 1].phases[c].Done? {
        StaysDone(jobs, states[n - 1], events[n - 1], c);
        k := AnswersHaveReasons(rows, jobs, events, states, n - 1, c);
      } else {
        k := n - 1;
        RunKeepsClosing(rows, jobs, events, states, n - 1, c);
        AttemptsAreTimeouts(rows, jobs, events, states, n - 1, c);
        AnswerGiven(rows, jobs, events, states, n - 1, c);
      }
    }
  }

  lemma StaysDone(jobs: Jobs, s: System, e: Event, c: Client)
    requires Enabled(jobs, s, e) && c in s.phases && s.phases[c].Done?
    ensures e.client != c && c in Fire(jobs, s, e).phases && Fire(jobs, s, e).phases[c] == s.phases[c]
  {
    hide Decide, RequirementsHold, Effect;
    EffectKeepsPhases(jobs, s, e.client);
  }

  lemma AnswerGiven(rows: map<Table, Row>, jobs: Jobs, events: seq<Event>, states: seq<System>, k: nat, c: Client)
    requires k < |events| && k + 1 < |states| && Enabled(jobs, states[k], events[k])
    requires states[k + 1] == Fire(jobs, states[k], events[k]) && Inv(rows, jobs, states[k])
    requires c in jobs && c in states[k].phases && !states[k].phases[c].Done? && ClosingOk(jobs[c], rows.Keys, states[k].phases[c])
    requires AttemptOf(states[k].phases[c]) == Timeouts(events[..k], c)
    requires c in states[k + 1].phases && states[k + 1].phases[c].Done?
    ensures events[k].client == c && AnsweredBy(jobs[c], events, states, k, c, states[k + 1].phases[c].reply)
  {
    hide Decide, RequirementsHold, Effect, Deserves, ClosingOk, HistoryOk, LocksOk, OwnershipOk, OutcomeOk, ReadingOk;
    EffectKeepsPhases(jobs, states[k], events[k].client);
    if events[k].Commit? && events[k].client == c { ClosingDeserves(rows, jobs, states[k], c); }
    assert AttemptOk(jobs[c], states[k].phases[c]);
  }
}
