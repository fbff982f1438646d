/** The retry loop around a locked transaction, and the transaction bracket inside it. */
module Locks {

  /** What a database call or the closure answers: no error, a lock timeout, or another error. */
  datatype Answer = Fine | LockTimeout | Trouble

  /** The answers one attempt would get, step by step. */
  datatype Attempt = Attempt(begin: Answer, setTimeout: Answer, closure: Answer, commit: Answer) {
    /** The first step that does not go well decides. */
    function Verdict(): Answer {
      if begin != Fine then begin
      else if setTimeout != Fine then setTimeout
      else if closure != Fine then closure
      else commit
    }
  }

  /** What the database sees; a COMMIT that answers with an error leaves its effect in doubt. */
  datatype Entry = Began | Committed | InDoubt | RolledBack

  function Trace(a: Attempt): seq<Entry> {
    if a.begin != Fine then []
    else if a.setTimeout != Fine || a.closure != Fine then [Began, RolledBack]
    else if a.commit != Fine then [Began, InDoubt]
    else [Began, Committed]
  }

  function Traces(attempts: nat -> Attempt, n: nat): seq<Entry> {
    if n == 0 then [] else Traces(attempts, n - 1) + Trace(attempts(n - 1))
  }

  datatype LockResult = Done | GaveUp | Cancelled | Failed

  /** What the loop comes to from some attempt on, and how many attempts it has made by then.
      `cancelled(i)` says that the caller's context ends the wait before attempt i. */
  datatype Loop = Loop(result: LockResult, attempts: nat)

  function Retry(maxRetries: int, attempts: nat -> Attempt, cancelled: nat -> bool, attempt: nat): Loop
    decreases maxRetries + 1 - attempt
  {
    if attempt > maxRetries then Loop(GaveUp, attempt)
    else if attempt > 0 && cancelled(attempt) then Loop(Cancelled, attempt)
    else
      match attempts(attempt).Verdict()
      case Fine => Loop(Done, attempt + 1)
      case LockTimeout => Retry(maxRetries, attempts, cancelled, attempt + 1)
      case Trouble => Loop(Failed, attempt + 1)
  }

  // ---------------------------------------------------------------- the loop as it runs

  class Database {
    var log: seq<Entry>
    var open: bool

    constructor ()
      ensures log == [] && !open
    {
      log, open := [], false;
    }

    /** Ends the transaction unless it has ended already. */
    method Rollback()
      modifies this
      ensures !open
      ensures log == if old(open) then old(log) + [RolledBack] else old(log)
    {
      if open {
        log, open := log + [RolledBack], false;
      }
    }

    method Commit(answer: Answer)
      requires open
      modifies this
      ensures !open && log == old(log) + [if answer == Fine then Committed else InDoubt]
    {
      log, open := log + [if answer == Fine then Committed else InDoubt], false;
    }

    /** The statements between BEGIN and the deferred rollback. */
    method RunBody(a: Attempt) returns (answer: Answer)
      requires open && a.begin == Fine
      modifies this
      ensures answer == a.Verdict()
      ensures open ==> log == old(log) && (a.setTimeout != Fine || a.closure != Fine)
      ensures !open ==> a.setTimeout == Fine && a.closure == Fine
                        && log == old(log) + [if a.commit == Fine then Committed else InDoubt]
    {
      if a.setTimeout != Fine {
        return a.setTimeout;
      }
      if a.closure != Fine {
        return a.closure;
      }
      Commit(a.commit);
      return a.commit;
    }

    /** `executeWithLock`: whatever happens, the transaction is ended on return. */
    method ExecuteWithLock(a: Attempt) returns (answer: Answer)
      requires !open
      modifies this
      ensures !open
      ensures answer == a.Verdict()
      ensures log == old(log) + Trace(a)
    {
      if a.begin != Fine {
        return a.begin;
      }
      log, open := log + [Began], true;
      answer := RunBody(a);
      Rollback();
      assert log == old(log) + Trace(a);
    }

    /** `WithLock` */
    method WithLock(maxRetries: int, attempts: nat -> Attempt, cancelled: nat -> bool) returns (result: LockResult)
      requires !open
      modifies this
      ensures !open
      ensures var loop := Retry(maxRetries, attempts, cancelled, 0);
              result == loop.result && log == old(log) + Traces(attempts, loop.attempts)
    {
      var attempt := 0;
      while attempt <= maxRetries
        invariant 0 <= attempt && !open
        invariant Retry(maxRetries, attempts, cancelled, 0) == Retry(maxRetries, attempts, cancelled, attempt)
        invariant log == old(log) + Traces(attempts, attempt)
        decreases maxRetries + 1 - attempt
      {
        if attempt > 0 && cancelled(attempt) {
          return Cancelled;
        }
        var answer := ExecuteWithLock(attempts(attempt));
        assert Traces(attempts, attempt + 1) == Traces(attempts, attempt) + Trace(attempts(attempt));
        if answer == Fine {
          return Done;
        }
        if answer != LockTimeout {
          return Failed;
        }
        attempt := attempt + 1;
      }
      return GaveUp;
    }
  }

  // ---------------------------------------------------------------- what the loop guarantees

  function Max(a: int, b: int): int {
    if a > b then a else b
  }

  function Commits(log: seq<Entry>): nat {
    if log == [] then 0 else Commits(log[..|log| - 1]) + (if log[|log| - 1] == Committed then 1 else 0)
  }

  lemma {:induction false} CommitsConcat(a: seq<Entry>, b: seq<Entry>)
    ensures Commits(a + b) == Commits(a) + Commits(b)
    decreases |b|
  {
    if b == [] {
      assert a + b == a;
    } else {
      assert (a + b)[..|a + b| - 1] == a + b[..|b| - 1];
      CommitsConcat(a, b[..|b| - 1]);
    }
  }

  /** From a given attempt on: a bound on attempts, earlier ones timed out, and what each result means. */
  lemma {:induction false} RetryFrom(maxRetries: int, attempts: nat -> Attempt, cancelled: nat -> bool, attempt: nat)
    requires attempt <= Max(0, maxRetries + 1)
    ensures var loop := Retry(maxRetries, attempts, cancelled, attempt);
            && attempt <= loop.attempts <= Max(0, maxRetries + 1)
            && (forall i :: attempt <= i < loop.attempts - 1 ==> attempts(i).Verdict() == LockTimeout)
            && (loop.result == Done <==> loop.attempts > attempt && attempts(loop.attempts - 1).Verdict() == Fine)
            && (loop.result == Failed <==> loop.attempts > attempt && attempts(loop.attempts - 1).Verdict() == Trouble)
            && (loop.result == GaveUp <==>
                  (forall i :: attempt <= i <= maxRetries ==>
                     attempts(i).Verdict() == LockTimeout && (i == 0 || !cancelled(i))))
    decreases maxRetries + 1 - attempt
  {
    if attempt <= maxRetries && !(attempt > 0 && cancelled(attempt)) && attempts(attempt).Verdict() == LockTimeout {
      RetryFrom(maxRetries, attempts, cancelled, attempt + 1);
    }
  }

  lemma {:induction false} CommitsOfTraces(attempts: nat -> Attempt, n: nat)
    ensures (forall i :: 0 <= i < n ==> attempts(i).Verdict() != Fine) ==> Commits(Traces(attempts, n)) == 0
  {
    if n > 0 {
      CommitsOfTraces(attempts, n - 1);
      CommitsConcat(Traces(attempts, n - 1), Trace(attempts(n - 1)));
      CommitsOfTrace(attempts(n - 1));
    }
  }

  lemma CommitsOfTrace(a: Attempt)
    ensures Commits(Trace(a)) == if a.Verdict() == Fine then 1 else 0
  {
    assert [Began, Committed][..1] == [Began] && [Began][..0] == [];
    assert [Began, RolledBack][..1] == [Began] && [Began, InDoubt][..1] == [Began];
  }

  /** The answers of an attempt in the order of its steps. */
  function Steps(a: Attempt): seq<Answer> {
    [a.begin, a.setTimeout, a.closure, a.commit]
  }

  ghost predicate AllFine(a: Attempt) {
    forall k :: 0 <= k < 4 ==> Steps(a)[k] == Fine
  }

  /** The first step of the attempt that does not go well answers so. */
  ghost predicate StopsWith(a: Attempt, answer: Answer) {
    answer != Fine && exists k :: 0 <= k < 4 && Steps(a)[k] == answer && forall j :: 0 <= j < k ==> Steps(a)[j] == Fine
  }

  ghost predicate ByStep(a: Attempt) {
    && (a.Verdict() == Fine <==> AllFine(a))
    && (a.Verdict() == LockTimeout <==> StopsWith(a, LockTimeout))
    && (a.Verdict() == Trouble <==> StopsWith(a, Trouble))
  }

  lemma VerdictByStep(a: Attempt)
    ensures ByStep(a)
  {
    assert Steps(a)[0] == a.begin && Steps(a)[1] == a.setTimeout && Steps(a)[2] == a.closure && Steps(a)[3] == a.commit;
    if a.Verdict() != Fine {
      var k := if a.begin != Fine then 0 else if a.setTimeout != Fine then 1 else if a.closure != Fine then 2 else 3;
      assert Steps(a)[k] == a.Verdict() && forall j :: 0 <= j < k ==> Steps(a)[j] == Fine;
    }
  }

  /** What the database sees of one attempt: a transaction exactly when BEGIN went well, which is
      rolled back exactly when a later step before COMMIT did not, and otherwise committed or in doubt. */
  lemma TraceByStep(a: Attempt)
    ensures Began in Trace(a) <==> a.begin == Fine
    ensures RolledBack in Trace(a) <==> a.begin == Fine && (a.setTimeout != Fine || a.closure != Fine)
    ensures Committed in Trace(a) <==> AllFine(a)
    ensures InDoubt in Trace(a) <==> a.begin == a.setTimeout == a.closure == Fine && a.commit != Fine
    ensures |Trace(a)| <= 2 && (Trace(a) != [] ==> Trace(a)[0] == Began)
  {
    VerdictByStep(a);
  }

  /** At most maxRetries + 1 attempts; only a lock timeout leads to another one. It succeeds exactly
      when all steps of its last attempt went well, fails exactly when that attempt stopped with
      another error, is cancelled exactly when the caller's context ended the wait for the next
      attempt, and reports a lock timeout exactly when every attempt stopped with one. It commits
      once when it succeeds, never otherwise. */
  lemma RetryLoop(maxRetries: int, attempts: nat -> Attempt, cancelled: nat -> bool)
    ensures var loop := Retry(maxRetries, attempts, cancelled, 0);
            && loop.attempts <= Max(0, maxRetries + 1)
            && (forall i :: 0 <= i < loop.attempts - 1 ==> StopsWith(attempts(i), LockTimeout))
            && (loop.result == Done <==> loop.attempts > 0 && AllFine(attempts(loop.attempts - 1)))
            && (loop.result == Failed <==> loop.attempts > 0 && StopsWith(attempts(loop.attempts - 1), Trouble))
            && (loop.result == Cancelled <==>
                  0 < loop.attempts <= maxRetries && cancelled(loop.attempts)
                  && StopsWith(attempts(loop.attempts - 1), LockTimeout))
            && (loop.result == GaveUp <==>
                  loop.attempts == Max(0, maxRetries + 1)
                  && (forall i :: 0 <= i < loop.attempts ==> StopsWith(attempts(i), LockTimeout)))
            && Commits(Traces(attempts, loop.attempts)) == (if loop.result == Done then 1 else 0)
  {
    hide StopsWith, AllFine, Attempt.Verdict, Trace;
    RetryFrom(maxRetries, attempts, cancelled, 0);
    forall i: nat ensures ByStep(attempts(i)) { VerdictByStep(attempts(i)); }
    var n := Retry(maxRetries, attempts, cancelled, 0).attempts;
    if n > 0 {
      assert ByStep(attempts(n - 1));
      CommitsOfTraces(attempts, n - 1);
      CommitsConcat(Traces(attempts, n - 1), Trace(attempts(n - 1)));
      CommitsOfTrace(attempts(n - 1));
    }
    RetryStops(maxRetries, attempts, cancelled, 0);
  }

  /** When the loop has used up its attempts, and when it is cancelled. */
  lemma {:induction false} RetryStops(maxRetries: int, attempts: nat -> Attempt, cancelled: nat -> bool, attempt: nat)
    requires attempt <= Max(0, maxRetries + 1)
    ensures var loop := Retry(maxRetries, attempts, cancelled, attempt);
            (loop.result == GaveUp ==> loop.attempts == Max(0, maxRetries + 1))
            && (loop.result == Cancelled <==>
                  loop.attempts <= maxRetries && loop.attempts > 0 && cancelled(loop.attempts)
                  && (loop.attempts == attempt || attempts(loop.attempts - 1).Verdict() == LockTimeout))
    decreases maxRetries + 1 - attempt
  {
    if attempt <= maxRetries && !(attempt > 0 && cancelled(attempt)) && attempts(attempt).Verdict() == LockTimeout {
      RetryStops(maxRetries, attempts, cancelled, attempt + 1);
    }
  }
}
