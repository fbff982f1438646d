/** Any number of clients committing to any number of tables, interleaved in any way.

    The database is rows, row locks taken before the latest committed value is read, lock timeouts,
    and transactions that commit or roll back as a whole, releasing their locks. */
module Protocol {
  import opened Options
  import opened Commits

  type Client = nat
  type Table = string

  datatype Change = Change(table: Table, requirements: seq<Requirement>)

  /** What a client was asked to do: commit to one table, or check several tables in one transaction. */
  datatype Job =
    | CommitTable(table: Table, request: Request, maxRetries: int)
    | CommitTransaction(changes: seq<Change>, maxRetries: int)
  {
    /** The tables it locks, in order. */
    function Tables(): seq<Table> {
      match this
      case CommitTable(t, _, _) => [t]
      case CommitTransaction(changes, _) => seq(|changes|, i requires 0 <= i < |changes| => changes[i].table)
    }

    function Retries(): int {
      match this
      case CommitTable(_, _, n) => n
      case CommitTransaction(_, n) => n
    }
  }

  datatype Reply =
    | Ok(row: Row)               // 200: the row written
    | OkMany(rows: seq<Row>)     // 200: the rows of a multi-table transaction
    | BadRequest                 // 400
    | NotFound                   // 404
    | Conflict                   // 409: a requirement failed, or the lock was not to be had
    | ServerError                // 500

  /** What the closure returned: a row to write, rows to report, or a refusal. */
  datatype ClosureResult = Writes(now: int, row: Row) | Reports | Refuses(reply: Reply)

  datatype Phase =
    | Waiting(attempt: nat)
    | Reading(attempt: nat, seen: seq<Row>)
    | Closing(attempt: nat, seen: seq<Row>, outcome: ClosureResult)
    | Done(reply: Reply)
  {
    /** The rows read, under locks that are still held. */
    function Seen(): seq<Row> {
      if Reading? || Closing? then seen else []
    }
  }

  /** A committed change of one row: who made it, from what, when, to what. */
  datatype Link = Link(owner: Client, base: Row, now: int, result: Row)

  datatype System = System(rows: map<Table, Row>, locks: map<Table, Client>, phases: map<Client, Phase>,
                           history: map<Table, seq<Link>>)

  type Jobs = map<Client, Job>

  datatype Event =
    | Lock(client: Client)                    // the next row: take its lock, read it, check a transaction's requirements
    | Missing(client: Client)                 // the next row does not exist
    | TimeOut(client: Client)                 // a statement of the closure times out on a lock
    | Close(client: Client, now: int)         // the closure returns
    | GiveUp(client: Client)                  // no attempts are left
    | Commit(client: Client)
    | CommitFails(client: Client, lost: bool) // COMMIT reports an error, with its effect lost or not
    | Abort(client: Client)                   // any other error, or the caller's context is cancelled

  function Initial(rows: map<Table, Row>, jobs: Jobs): System {
    System(rows, map[], map c | c in jobs :: Waiting(0), map t | t in rows :: [])
  }

  function Release(locks: map<Table, Client>, c: Client): map<Table, Client> {
    map t | t in locks && locks[t] != c :: locks[t]
  }

  /** End of a transaction without effect. */
  function Leave(s: System, c: Client, phase: Phase): System {
    s.(locks := Release(s.locks, c), phases := s.phases[c := phase])
  }

  /** The table a client has to lock next. */
  function NextTable(jobs: Jobs, s: System, c: Client): Option<Table>
    requires c in jobs && c in s.phases
  {
    var n := |s.phases[c].Seen()|;
    if (s.phases[c].Waiting? || s.phases[c].Reading?) && n < |jobs[c].Tables()| then Some(jobs[c].Tables()[n]) else None
  }

  function AttemptOf(p: Phase): nat
    requires !p.Done?
  {
    p.attempt
  }

  predicate Enabled(jobs: Jobs, s: System, e: Event) {
    var c := e.client;
    && c in jobs && c in s.phases
    && var p := s.phases[c];
       match e
       case Lock(_) =>
         && (p.Waiting? ==> p.attempt <= jobs[c].Retries())
         && NextTable(jobs, s, c).Some?
         && var t := NextTable(jobs, s, c).value;
            t in s.rows && (t in s.locks ==> s.locks[t] == c)
       case Missing(_) =>
         && (p.Waiting? ==> p.attempt <= jobs[c].Retries())
         && NextTable(jobs, s, c).Some? && NextTable(jobs, s, c).value !in s.rows
       case TimeOut(_) => (p.Waiting? && p.attempt <= jobs[c].Retries()) || p.Reading?
       case Close(_, _) => p.Reading? && NextTable(jobs, s, c).None?
       case GiveUp(_) => p.Waiting? && p.attempt > jobs[c].Retries()
       case Commit(_) => p.Closing?
       case CommitFails(_, _) => p.Closing?
       case Abort(_) => !p.Done?
  }

  /** The verdict on a single table, as the closure reports it. */
  function ClosureOutcome(verdict: Verdict, now: int): ClosureResult {
    match verdict
    case RequirementFailed => Refuses(Conflict)
    case UpdateFailed(_) => Refuses(BadRequest)
    case Broken => Refuses(ServerError)
    case Write(row) => Writes(now, row)
  }

  /** A committed transaction's effect on the rows and the history. */
  function Effect(jobs: Jobs, s: System, c: Client): System
    requires c in jobs && c in s.phases
  {
    var p := s.phases[c];
    if p.Closing? && p.outcome.Writes? && jobs[c].CommitTable? && p.seen != [] && jobs[c].table in s.history then
      var t := jobs[c].table;
      s.(rows := s.rows[t := p.outcome.row],
         history := s.history[t := s.history[t] + [Link(c, p.seen[0], p.outcome.now, p.outcome.row)]])
    else s
  }

  function ReplyOf(p: Phase): Reply
    requires p.Closing?
  {
    match p.outcome
    case Writes(_, row) => Ok(row)
    case Reports => OkMany(p.seen)
    case Refuses(r) => r
  }

  function Fire(jobs: Jobs, s: System, e: Event): System
    requires Enabled(jobs, s, e)
  {
    var c := e.client;
    var p := s.phases[c];
    match e
    case Lock(_) =>
      var t := NextTable(jobs, s, c).value;
      var seen := p.Seen() + [s.rows[t]];
      var held := s.(locks := s.locks[t := c]);
      if jobs[c].CommitTransaction? && !RequirementsHold(Load(s.rows[t]), jobs[c].changes[|p.Seen()|].requirements)
      then held.(phases := s.phases[c := Closing(AttemptOf(p), seen, Refuses(Conflict))])
      else held.(phases := s.phases[c := Reading(AttemptOf(p), seen)])
    case Missing(_) => s.(phases := s.phases[c := Closing(AttemptOf(p), p.Seen(), Refuses(NotFound))])
    case TimeOut(_) =>
      // a transaction over several tables reports its lock timeout as a server error and is not retried
      Leave(s, c, if jobs[c].CommitTable? then Waiting(AttemptOf(p) + 1) else Done(ServerError))
    case Close(_, now) =>
      var outcome := if jobs[c].CommitTable? && p.seen != [] then ClosureOutcome(Decide(p.seen[0], jobs[c].request, now), now)
                     else Reports;
      s.(phases := s.phases[c := Closing(p.attempt, p.seen, outcome)])
    case GiveUp(_) => s.(phases := s.phases[c := Done(Conflict)])
    case Commit(_) => Leave(Effect(jobs, s, c), c, Done(ReplyOf(p)))
    case CommitFails(_, lost) => Leave(if lost then s else Effect(jobs, s, c), c, Done(ServerError))
    case Abort(_) => Leave(s, c, Done(ServerError))
  }

  /** A run: every state follows from the one before by an enabled event. */
  ghost predicate IsRun(rows: map<Table, Row>, jobs: Jobs, events: seq<Event>, states: seq<System>) {
    && |states| == |events| + 1
    && states[0] == Initial(rows, jobs)
    && forall i :: 0 <= i < |events| ==> Enabled(jobs, states[i], events[i]) && states[i + 1] == Fire(jobs, states[i], events[i])
  }

  // ---------------------------------------------------------------- the invariant

  /** Links from a first row to a last one, each from its predecessor's result. */
  ghost predicate Chain(first: Row, links: seq<Link>, last: Row) {
    && (forall i :: 0 <= i < |links| ==> links[i].base == Reached(first, links, i))
    && last == Reached(first, links, |links|)
  }

  /** The row after the first n links. */
  function Reached(first: Row, links: seq<Link>, n: nat): Row
    requires n <= |links|
  {
    if n == 0 then first else links[n - 1].result
  }

  /** A link is a commit to this table that its owner's request asked for. */
  ghost predicate Justified(jobs: Jobs, t: Table, link: Link) {
    && link.owner in jobs && jobs[link.owner].CommitTable? && jobs[link.owner].table == t
    && Decide(link.base, jobs[link.owner].request, link.now) == Write(link.result)
  }

  function Owned(links: seq<Link>, c: Client): nat {
    if links == [] then 0
    else Owned(links[..|links| - 1], c) + (if links[|links| - 1].owner == c then 1 else 0)
  }

  ghost predicate HistoryOk(rows: map<Table, Row>, jobs: Jobs, s: System) {
    && s.rows.Keys == rows.Keys && s.history.Keys == rows.Keys
    && (forall t :: t in rows ==> Chain(rows[t], s.history[t], s.rows[t]))
    && (forall t, i :: t in rows && 0 <= i < |s.history[t]| ==> Justified(jobs, t, s.history[t][i]))
  }

  /** What a client has read is locked by it, and still the committed value. */
  ghost predicate HoldsWhatItRead(jobs: Jobs, rows: map<Table, Row>, locks: map<Table, Client>, c: Client, seen: seq<Row>) {
    && c in jobs && |seen| <= |jobs[c].Tables()|
    && forall i :: 0 <= i < |seen| ==> LockedAs(rows, locks, c, jobs[c].Tables()[i], seen[i])
  }

  ghost predicate LockedAs(rows: map<Table, Row>, locks: map<Table, Client>, c: Client, t: Table, row: Row) {
    t in locks && locks[t] == c && t in rows && rows[t] == row
  }

  ghost predicate LocksOk(jobs: Jobs, s: System) {
    forall c :: c in s.phases ==> HoldsWhatItRead(jobs, s.rows, s.locks, c, s.phases[c].Seen())
  }

  /** What a closing transaction is about to report follows from what it read. */
  ghost predicate OutcomeOk(jobs: Jobs, c: Client, p: Phase) {
    p.Closing? ==>
      && c in jobs
      && match p.outcome
         case Writes(now, row) =>
           && jobs[c].CommitTable? && |p.seen| == 1
           && Decide(p.seen[0], jobs[c].request, now) == Write(row)
         case Reports => AllChecked(jobs[c], p.seen)
         case Refuses(r) => !r.Ok? && !r.OkMany?
  }

  /** Every table of a transaction was read and satisfied its requirements. */
  ghost predicate AllChecked(job: Job, seen: seq<Row>) {
    && job.CommitTransaction? && |seen| == |job.changes|
    && forall i :: 0 <= i < |seen| ==> RequirementsHold(Load(seen[i]), job.changes[i].requirements)
  }

  ghost predicate ReadingOk(job: Job, p: Phase) {
    p.Reading? ==>
      && 0 < |p.seen| <= |job.Tables()|
      && (job.CommitTransaction? ==>
            forall i :: 0 <= i < |p.seen| ==> RequirementsHold(Load(p.seen[i]), job.changes[i].requirements))
  }

  ghost predicate AttemptOk(job: Job, p: Phase) {
    match p
    case Waiting(n) => n == 0 || n <= job.Retries() + 1
    case Reading(n, _) => n <= job.Retries()
    case Closing(n, _, _) => n <= job.Retries()
    case Done(_) => true
  }

  ghost predicate OwnsResult(links: seq<Link>, c: Client, row: Row) {
    exists i :: 0 <= i < |links| && links[i].owner == c && links[i].result == row
  }

  /** How many links a client owns, by its reply: one for 200, none for a refusal, at most one after
      a failed COMMIT whose effect is unknown to the client. */
  ghost predicate OwnershipOk(jobs: Jobs, s: System, c: Client)
    requires c in jobs && c in s.phases
  {
    var p := s.phases[c];
    match jobs[c]
    case CommitTable(t, _, _) =>
      var links := if t in s.history then s.history[t] else [];
      if p.Done? && p.reply.Ok? then
        Owned(links, c) == 1 && OwnsResult(links, c, p.reply.row)
      else if p == Done(ServerError) then Owned(links, c) <= 1
      else Owned(links, c) == 0 && (p.Done? ==> !p.reply.OkMany?)
    case CommitTransaction(_, _) => p.Done? ==> !p.reply.Ok?
  }

  ghost predicate Inv(rows: map<Table, Row>, jobs: Jobs, s: System) {
    && s.phases.Keys == jobs.Keys
    && HistoryOk(rows, jobs, s)
    && LocksOk(jobs, s)
    && (forall c :: c in jobs ==> OutcomeOk(jobs, c, s.phases[c]) && ReadingOk(jobs[c], s.phases[c]) && AttemptOk(jobs[c], s.phases[c]))
    && (forall c :: c in jobs ==> OwnershipOk(jobs, s, c))
  }

  // ---------------------------------------------------------------- the invariant is kept

  lemma InitialInv(rows: map<Table, Row>, jobs: Jobs)
    ensures Inv(rows, jobs, Initial(rows, jobs))
  {
    hide Justified;
    var s := Initial(rows, jobs);
    assert s.phases.Keys == jobs.Keys;
    assert s.history.Keys == rows.Keys;
    forall c | c in jobs ensures OwnershipOk(jobs, s, c) {
      assert s.phases[c] == Waiting(0);
    }
  }

  lemma {:induction false} OwnedGrows(links: seq<Link>, link: Link, c: Client)
    ensures Owned(links + [link], c) == Owned(links, c) + (if link.owner == c then 1 else 0)
  {
    assert (links + [link])[..|links|] == links;
  }

  lemma ChainGrows(first: Row, links: seq<Link>, last: Row, link: Link)
    requires Chain(first, links, last) && link.base == last
    ensures Chain(first, links + [link], link.result)
  {
    var more := links + [link];
    forall i | 0 <= i <= |links| ensures Reached(first, more, i) == Reached(first, links, i) {
      if i > 0 { assert more[i - 1] == links[i - 1]; }
    }
    forall i | 0 <= i < |more| ensures more[i].base == Reached(first, more, i) {
      if i < |links| { assert more[i] == links[i]; }
    }
  }

  /** The row a closing commit writes over is the row it read. */
  lemma CommitBase(rows: map<Table, Row>, jobs: Jobs, s: System, c: Client)
    requires Inv(rows, jobs, s) && c in jobs && s.phases[c].Closing? && s.phases[c].outcome.Writes?
    ensures jobs[c].CommitTable? && |s.phases[c].seen| == 1
    ensures var t := jobs[c].table;
            && t in rows && t in s.locks && s.locks[t] == c
            && s.rows[t] == s.phases[c].seen[0]
            && Justified(jobs, t, Link(c, s.phases[c].seen[0], s.phases[c].outcome.now, s.phases[c].outcome.row))
  {
    hide Decide, OwnershipOk, ReadingOk, AttemptOk, Chain;
    var p := s.phases[c];
    assert OutcomeOk(jobs, c, p);
    assert HoldsWhatItRead(jobs, s.rows, s.locks, c, p.Seen());
    assert LockedAs(s.rows, s.locks, c, jobs[c].Tables()[0], p.Seen()[0]);
  }

  lemma EffectKeepsHistory(rows: map<Table, Row>, jobs: Jobs, s: System, c: Client)
    requires Inv(rows, jobs, s) && c in jobs && s.phases[c].Closing?
    ensures HistoryOk(rows, jobs, Effect(jobs, s, c))
  {
    hide Chain, Justified, LocksOk, OutcomeOk, ReadingOk, AttemptOk, OwnershipOk;
    if s.phases[c].outcome.Writes? {
      CommitBase(rows, jobs, s, c);
      var t, p := jobs[c].table, s.phases[c];
      var link := Link(c, p.seen[0], p.outcome.now, p.outcome.row);
      ChainGrows(rows[t], s.history[t], s.rows[t], link);
      var after := Effect(jobs, s, c);
      assert after.history[t] == s.history[t] + [link];
      forall u, i | u in rows && 0 <= i < |after.history[u]| ensures Justified(jobs, u, after.history[u][i]) {
        if u == t && i == |s.history[t]| { assert after.history[u][i] == link; }
        else { assert after.history[u][i] == s.history[u][i]; }
      }
    }
  }

  // ---- locks

  /** Writing one's own locked row and dropping one's locks leaves the others' reads valid. */
  lemma OthersKeepWhatTheyRead(jobs: Jobs, rows: map<Table, Row>, locks: map<Table, Client>, c: Client,
                               rows': map<Table, Row>, d: Client, seen: seq<Row>)
    requires d != c && HoldsWhatItRead(jobs, rows, locks, d, seen)
    requires forall t :: t in rows && (t !in locks || locks[t] != c) ==> t in rows' && rows'[t] == rows[t]
    ensures HoldsWhatItRead(jobs, rows', Release(locks, c), d, seen)
  {
    forall i | 0 <= i < |seen| ensures LockedAs(rows', Release(locks, c), d, jobs[d].Tables()[i], seen[i]) {
      assert LockedAs(rows, locks, d, jobs[d].Tables()[i], seen[i]);
    }
  }

  lemma LeaveKeepsLocks(jobs: Jobs, s: System, c: Client, s': System, phase: Phase)
    requires LocksOk(jobs, s) && c in s.phases && c in jobs && phase.Seen() == []
    requires s'.phases == s.phases && s'.locks == s.locks
    requires forall t :: t in s.rows && (t !in s.locks || s.locks[t] != c) ==> t in s'.rows && s'.rows[t] == s.rows[t]
    ensures LocksOk(jobs, Leave(s', c, phase))
  {
    var after := Leave(s', c, phase);
    forall d | d in after.phases ensures HoldsWhatItRead(jobs, after.rows, after.locks, d, after.phases[d].Seen()) {
      if d != c { OthersKeepWhatTheyRead(jobs, s.rows, s.locks, c, s'.rows, d, s.phases[d].Seen()); }
    }
  }

  lemma LockKeepsLocks(jobs: Jobs, s: System, c: Client)
    requires LocksOk(jobs, s) && Enabled(jobs, s, Lock(c))
    ensures LocksOk(jobs, Fire(jobs, s, Lock(c)))
  {
    hide RequirementsHold;
    var after := Fire(jobs, s, Lock(c));
    forall d | d in after.phases ensures HoldsWhatItRead(jobs, after.rows, after.locks, d, after.phases[d].Seen()) {
      assert HoldsWhatItRead(jobs, s.rows, s.locks, d, s.phases[d].Seen());
      LockedMore(jobs, s, c, d);
    }
  }

  lemma LockedMore(jobs: Jobs, s: System, c: Client, d: Client)
    requires Enabled(jobs, s, Lock(c)) && d in s.phases
    requires HoldsWhatItRead(jobs, s.rows, s.locks, d, s.phases[d].Seen())
    ensures var after := Fire(jobs, s, Lock(c));
            HoldsWhatItRead(jobs, after.rows, after.locks, d, after.phases[d].Seen())
  {
    hide RequirementsHold;
    var after := Fire(jobs, s, Lock(c));
    var before, now := s.phases[d].Seen(), after.phases[d].Seen();
    forall i | 0 <= i < |now| ensures LockedAs(after.rows, after.locks, d, jobs[d].Tables()[i], now[i]) {
      if i < |before| { assert LockedAs(s.rows, s.locks, d, jobs[d].Tables()[i], before[i]); }
    }
  }

  lemma FireKeepsLocks(rows: map<Table, Row>, jobs: Jobs, s: System, e: Event)
    requires Inv(rows, jobs, s) && Enabled(jobs, s, e)
    ensures LocksOk(jobs, Fire(jobs, s, e))
  {
    hide HoldsWhatItRead, HistoryOk, OutcomeOk, ReadingOk, AttemptOk, OwnershipOk, Decide;
    var c := e.client;
    match e {
      case Lock(_) => LockKeepsLocks(jobs, s, c);
      case TimeOut(_) => LeaveKeepsLocks(jobs, s, c, s, Fire(jobs, s, e).phases[c]);
      case Abort(_) => LeaveKeepsLocks(jobs, s, c, s, Done(ServerError));
      case Commit(_) =>
        EffectWritesOwnRow(rows, jobs, s, c);
        LeaveKeepsLocks(jobs, s, c, Effect(jobs, s, c), Done(ReplyOf(s.phases[c])));
      case CommitFails(_, lost) =>
        EffectWritesOwnRow(rows, jobs, s, c);
        LeaveKeepsLocks(jobs, s, c, if lost then s else Effect(jobs, s, c), Done(ServerError));
      case _ =>
        var after := Fire(jobs, s, e);
        forall d | d in after.phases ensures HoldsWhatItRead(jobs, after.rows, after.locks, d, after.phases[d].Seen()) {
          assert HoldsWhatItRead(jobs, s.rows, s.locks, d, s.phases[d].Seen());
          NothingRead(jobs, s.rows, s.locks, d);
        }
    }
  }

  lemma NothingRead(jobs: Jobs, rows: map<Table, Row>, locks: map<Table, Client>, c: Client)
    ensures c in jobs ==> HoldsWhatItRead(jobs, rows, locks, c, [])
  {
  }

  lemma EffectWritesOwnRow(rows: map<Table, Row>, jobs: Jobs, s: System, c: Client)
    requires Inv(rows, jobs, s) && c in jobs && s.phases[c].Closing?
    ensures var after := Effect(jobs, s, c);
            forall t :: t in s.rows && (t !in s.locks || s.locks[t] != c) ==> t in after.rows && after.rows[t] == s.rows[t]
  {
    hide Decide, HistoryOk, OwnershipOk, ReadingOk, AttemptOk;
    if s.phases[c].outcome.Writes? { CommitBase(rows, jobs, s, c); }
  }

  // ---- histories

  lemma FireKeepsHistory(rows: map<Table, Row>, jobs: Jobs, s: System, e: Event)
    requires Inv(rows, jobs, s) && Enabled(jobs, s, e)
    ensures HistoryOk(rows, jobs, Fire(jobs, s, e))
  {
    hide LocksOk, OutcomeOk, ReadingOk, AttemptOk, OwnershipOk, Chain, Justified, Decide;
    if e.Commit? || (e.CommitFails? && !e.lost) { EffectKeepsHistory(rows, jobs, s, e.client); }
  }

  // ---- phases

  ghost predicate PhaseOk(jobs: Jobs, c: Client, p: Phase)
    requires c in jobs
  {
    OutcomeOk(jobs, c, p) && ReadingOk(jobs[c], p) && AttemptOk(jobs[c], p)
  }

  lemma FireKeepsPhase(jobs: Jobs, s: System, e: Event)
    requires Enabled(jobs, s, e) && PhaseOk(jobs, e.client, s.phases[e.client])
    ensures PhaseOk(jobs, e.client, Fire(jobs, s, e).phases[e.client])
  {
    hide Decide, RequirementsHold;
  }

  // ---- ownership

  predicate Publishes(s: System, e: Event) {
    (e.Commit? || (e.CommitFails? && !e.lost))
    && e.client in s.phases && s.phases[e.client].Closing? && s.phases[e.client].outcome.Writes?
  }

  lemma FireKeepsOwnership(rows: map<Table, Row>, jobs: Jobs, s: System, e: Event, d: Client)
    requires Inv(rows, jobs, s) && Enabled(jobs, s, e) && d in jobs
    ensures d in Fire(jobs, s, e).phases && OwnershipOk(jobs, Fire(jobs, s, e), d)
  {
    hide HistoryOk, LocksOk, ReadingOk, AttemptOk, OutcomeOk, OwnershipOk, Fire, Effect;
    assert OwnershipOk(jobs, s, d) && OutcomeOk(jobs, e.client, s.phases[e.client]);
    if Publishes(s, e) { PublishKeepsOwnership(rows, jobs, s, e, d); } else { QuietKeepsOwnership(jobs, s, e, d); }
  }

  lemma PublishKeepsOwnership(rows: map<Table, Row>, jobs: Jobs, s: System, e: Event, d: Client)
    requires Inv(rows, jobs, s) && Enabled(jobs, s, e) && d in jobs && Publishes(s, e) && OwnershipOk(jobs, s, d)
    ensures d in Fire(jobs, s, e).phases && OwnershipOk(jobs, Fire(jobs, s, e), d)
  {
    hide Decide, RequirementsHold, LocksOk, ReadingOk, AttemptOk, Chain, Justified;
    var c := e.client;
    CommitBase(rows, jobs, s, c);
    var t, p := jobs[c].table, s.phases[c];
    var link := Link(c, p.seen[0], p.outcome.now, p.outcome.row);
    OwnedGrows(s.history[t], link, d);
    OwnsResultGrows(s.history[t], link);
    assert OwnershipOk(jobs, s, c);
    assert Effect(jobs, s, c).history[t] == s.history[t] + [link];
  }

  /** Events that write no row change no history. */
  lemma QuietKeepsOwnership(jobs: Jobs, s: System, e: Event, d: Client)
    requires Enabled(jobs, s, e) && d in jobs && d in s.phases && !Publishes(s, e)
    requires OwnershipOk(jobs, s, d) && OutcomeOk(jobs, e.client, s.phases[e.client])
    ensures d in Fire(jobs, s, e).phases && OwnershipOk(jobs, Fire(jobs, s, e), d)
  {
    hide Decide, RequirementsHold, Owned, OwnsResult;
  }

  lemma OwnsResultGrows(links: seq<Link>, link: Link)
    ensures OwnsResult(links + [link], link.owner, link.result)
    ensures forall c, row :: OwnsResult(links, c, row) ==> OwnsResult(links + [link], c, row)
  {
    var more := links + [link];
    assert more[|links|] == link;
    forall c, row | OwnsResult(links, c, row) ensures OwnsResult(more, c, row) {
      var i :| 0 <= i < |links| && links[i].owner == c && links[i].result == row;
      assert more[i] == links[i];
    }
  }

  /** Every enabled event keeps the invariant. */
  lemma FireKeepsInv(rows: map<Table, Row>, jobs: Jobs, s: System, e: Event)
    requires Inv(rows, jobs, s) && Enabled(jobs, s, e)
    ensures Inv(rows, jobs, Fire(jobs, s, e))
  {
    hide HistoryOk, LocksOk, OutcomeOk, ReadingOk, AttemptOk, OwnershipOk, Decide;
    FireKeepsHistory(rows, jobs, s, e);
    FireKeepsLocks(rows, jobs, s, e);
    FireKeepsPhase(jobs, s, e);
    var after := Fire(jobs, s, e);
    assert after.phases.Keys == s.phases.Keys;
    forall d | d in jobs ensures OwnershipOk(jobs, after, d) { FireKeepsOwnership(rows, jobs, s, e, d); }
  }

  lemma {:induction false} RunKeepsInv(rows: map<Table, Row>, jobs: Jobs, events: seq<Event>, states: seq<System>, n: nat)
    requires IsRun(rows, jobs, events, states) && n < |states|
    ensures Inv(rows, jobs, states[n])
  {
    hide Inv, Fire, Enabled;
    if n == 0 {
      InitialInv(rows, jobs);
    } else {
      RunKeepsInv(rows, jobs, events, states, n - 1);
      FireKeepsInv(rows, jobs, states[n - 1], events[n - 1]);
    }
  }
}
