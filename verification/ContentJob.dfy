// The background content job: one attempt writes its stores in a fixed order and
// sends its report through a one-slot channel; the pool retries a failed attempt.
module ContentJob {
  import opened Text

  /** The stores an attempt writes, in their order: records, content, OCR queue,
      extractor versions, extraction quarantine. A store is represented by the
      stamp of the attempt that wrote it last. */
  const STORES: nat := 5

  type Stamps = s: seq<nat> | |s| == 5 witness [0, 0, 0, 0, 0]

  datatype JobError = Cancelled | Failure

  /** How one write ends: refused before its rename, stopped by the poll after its
      rename, or done; or there is no such store in this job. */
  datatype Write = Refused(error: JobError) | StoppedAfterRename | Done | Skipped

  predicate Continues(w: Write) { w.Done? || w.Skipped? }

  /** One attempt's surroundings: what goes wrong before the first write, and the
      end of every write. */
  datatype Work = Work(setup: Option<JobError>, writes: seq<Write>) {
    predicate Valid() { |writes| == STORES }
  }

  /** How many writes are reached and let the attempt go on. */
  function Passed(writes: seq<Write>): nat {
    if writes == [] || !Continues(writes[0]) then 0 else 1 + Passed(writes[1..])
  }

  predicate Finishes(k: Work) {
    k.setup.None? && Passed(k.writes) == |k.writes|
  }

  /** Does the attempt replace store `i`? */
  predicate Replaces(k: Work, i: nat)
    requires i < |k.writes|
  {
    k.setup.None? && i <= Passed(k.writes) && (k.writes[i].Done? || k.writes[i].StoppedAfterRename?)
  }

  lemma {:induction false} PassedBound(writes: seq<Write>)
    ensures Passed(writes) <= |writes|
    ensures forall i :: 0 <= i < Passed(writes) ==> Continues(writes[i])
    ensures Passed(writes) < |writes| ==> !Continues(writes[Passed(writes)])
  {
    if writes != [] && Continues(writes[0]) {
      PassedBound(writes[1..]);
    }
  }

  /** The stores after an attempt with stamp `n`. */
  function AfterAttempt(s: Stamps, n: nat, k: Work): (t: Stamps)
    requires k.Valid()
  {
    seq(STORES, i requires 0 <= i < STORES => if Replaces(k, i) then n else s[i])
  }

  function AttemptError(k: Work): Option<JobError>
    requires k.Valid()
  {
    if k.setup.Some? then k.setup
    else if Finishes(k) then None
    else
      var p := Passed(k.writes);
      PassedBound(k.writes);
      Some(if k.writes[p].Refused? then k.writes[p].error else Cancelled)
  }

  /** How the pool's journal and backoff treat one attempt. */
  datatype Turn = Turn(
    cancelledBefore: bool, startFails: Option<JobError>, work: Work, finishFails: bool,
    cancelledAfter: bool, cancelRecordFails: bool, retryable: bool, cancelledInBackoff: bool)

  datatype Status = Completed | CancelledStatus | Failed

  function StatusOf(e: JobError): Status { if e == JobError.Cancelled then CancelledStatus else Failed }

  /** What the pool makes of a job: its status, how many attempts ran, and whether
      a report was sent. */
  datatype PoolResult = PoolResult(status: Status, attempts: nat, sent: bool)

  /** The status a cancellation between attempts ends in. */
  function RecordedCancel(t: Turn): Status { if t.cancelRecordFails then Failed else CancelledStatus }

  /** The pool's retry rule over at most `|turns|` attempts; `last` is the status
      when none is left. */
  function Pool(turns: seq<Turn>, last: Status): PoolResult
    requires forall i :: 0 <= i < |turns| ==> turns[i].work.Valid()
  {
    if turns == [] then PoolResult(last, 0, false)
    else
      var t := turns[0];
      var error := AttemptError(t.work);
      if t.cancelledBefore then PoolResult(CancelledStatus, 0, false)
      else if t.startFails.Some? then PoolResult(StatusOf(t.startFails.value), 0, false)
      else if t.finishFails then PoolResult(Failed, 1, error.None?)
      else if error.None? then PoolResult(Completed, 1, true)
      else if error == Some(JobError.Cancelled) then PoolResult(CancelledStatus, 1, false)
      else if t.cancelledAfter then PoolResult(RecordedCancel(t), 1, false)
      else if !t.retryable then PoolResult(Failed, 1, false)
      else if |turns| > 1 && t.cancelledInBackoff then PoolResult(RecordedCancel(t), 1, false)
      else
        var rest := Pool(turns[1..], Failed);
        rest.(attempts := rest.attempts + 1)
  }

  /** What the caller gets for it. */
  function JobResult(deferred: bool, turns: seq<Turn>): JobOutcome
    requires forall i :: 0 <= i < |turns| ==> turns[i].work.Valid()
  {
    if deferred then Deferred
    else
      match Pool(turns, Failed).status
      case Completed => Report(Pool(turns, Failed).attempts)
      case CancelledStatus => Error(JobError.Cancelled)
      case Failed => Error(Failure)
  }

  /** The job's shared state: the stores, the channel slot, and how often a report
      was sent. */
  class Job {
    var stores: Stamps
    var slot: Option<nat>
    var sends: nat
    var attempts: nat

    constructor (stores: Stamps)
      ensures this.stores == stores && slot == None && sends == 0 && attempts == 0
    {
      this.stores := stores;
      slot, sends, attempts := None, 0, 0;
    }

    /** One attempt. The slot must be free, or the send would block forever. */
    method Attempt(n: nat, k: Work) returns (error: Option<JobError>)
      requires k.Valid() && slot == None
      modifies this`stores, this`slot, this`sends
      ensures stores == AfterAttempt(old(stores), n, k)
      ensures error == AttemptError(k)
      ensures error == None <==> Finishes(k)
      ensures slot == (if Finishes(k) then Some(n) else None) && sends == old(sends) + if Finishes(k) then 1 else 0
    {
      PassedBound(k.writes);
      if k.setup.Some? {
        assert AfterAttempt(stores, n, k) == stores;
        return k.setup;
      }
      var i := 0;
      while i < STORES
        invariant 0 <= i <= STORES && i <= Passed(k.writes)
        invariant forall j :: 0 <= j < STORES ==> stores[j] == if j < i && Replaces(k, j) then n else old(stores)[j]
        invariant slot == old(slot) && sends == old(sends)
      {
        match k.writes[i] {
          case Refused(e) =>
            assert stores == AfterAttempt(old(stores), n, k);
            return Some(e);
          case StoppedAfterRename =>
            stores := stores[i := n];
            assert stores == AfterAttempt(old(stores), n, k);
            return Some(JobError.Cancelled);
          case Done => stores := stores[i := n];
          case Skipped =>
        }
        i := i + 1;
      }
      assert stores == AfterAttempt(old(stores), n, k);
      slot := Some(n);
      sends := sends + 1;
      error := None;
    }

    /** The pool's retry loop: at most `|turns|` attempts, stamped `first`,
        `first + 1`, and so on. */
    method ExecuteRetriable(first: nat, turns: seq<Turn>) returns (status: Status)
      requires slot == None && sends == 0 && attempts == 0
      requires forall i :: 0 <= i < |turns| ==> turns[i].work.Valid()
      modifies this
      ensures PoolResult(status, attempts, sends == 1) == Pool(turns, Failed) && sends <= 1
      ensures slot == if sends == 1 then Some(first + attempts - 1) else None
      ensures attempts <= |turns| && stores == AfterAttempts(old(stores), first, turns[..attempts])
    {
      status := Failed;
      assert turns[..0] == [] && turns[0..] == turns;
      for n := 0 to |turns|
        invariant attempts == n && sends == 0 && slot == None && status == Failed
        invariant stores == AfterAttempts(old(stores), first, turns[..n])
        invariant Pool(turns, Failed) == Pool(turns[n..], Failed).(attempts := Pool(turns[n..], Failed).attempts + n)
      {
        hide AttemptError, AfterAttempt, AfterAttempts, Finishes;
        assert turns[n..][0] == turns[n] && turns[n..][1..] == turns[n + 1..];
        var t := turns[n];
        if t.cancelledBefore {
          return CancelledStatus;
        }
        if t.startFails.Some? {
          return StatusOf(t.startFails.value);
        }
        var error := Attempt(first + n, t.work);
        attempts := attempts + 1;
        AfterAttemptsSnoc(old(stores), first, turns, n);
        if t.finishFails {
          return Failed;
        }
        if error.None? {
          return Completed;
        }
        if error == Some(JobError.Cancelled) {
          return CancelledStatus;
        }
        if t.cancelledAfter {
          return if t.cancelRecordFails then Failed else CancelledStatus;
        }
        if !t.retryable {
          return Failed;
        }
        if n + 1 < |turns| && t.cancelledInBackoff {
          return if t.cancelRecordFails then Failed else CancelledStatus;
        }
      }
      assert turns[|turns|..] == [];
    }

    /** The caller's end: a deferred job runs nothing and has no report; otherwise
        the report of a completed job is always waiting in the slot. */
    method RunContentJob(deferred: bool, turns: seq<Turn>) returns (outcome: JobOutcome)
      requires slot == None && sends == 0 && attempts == 0
      requires |turns| == 2 && turns[0].work.Valid() && turns[1].work.Valid()
      modifies this
      ensures outcome == JobResult(deferred, turns)
      ensures attempts == if deferred then 0 else Pool(turns, Failed).attempts
      ensures attempts <= 2 && stores == AfterAttempts(old(stores), 1, turns[..attempts])
    {
      PoolLaw(turns);
      if deferred {
        return Deferred;
      }
      var status := ExecuteRetriable(1, turns);
      match status {
        case CancelledStatus => outcome := Error(JobError.Cancelled);
        case Failed => outcome := Error(Failure);
        case Completed => outcome := if slot.Some? then Report(slot.value) else CompletedWithoutReport;
      }
    }
  }

  datatype JobOutcome = Deferred | Report(attempt: nat) | Error(error: JobError) | CompletedWithoutReport

  function AfterAttempts(s: Stamps, first: nat, turns: seq<Turn>): Stamps
    requires forall i :: 0 <= i < |turns| ==> turns[i].work.Valid()
  {
    if turns == [] then s
    else
      var n := |turns| - 1;
      AfterAttempt(AfterAttempts(s, first, turns[..n]), first + n, turns[n].work)
  }

  lemma AfterAttemptsSnoc(s: Stamps, first: nat, turns: seq<Turn>, n: nat)
    requires n < |turns| && forall i :: 0 <= i < |turns| ==> turns[i].work.Valid()
    ensures AfterAttempts(s, first, turns[..n + 1]) ==
            AfterAttempt(AfterAttempts(s, first, turns[..n]), first + n, turns[n].work)
  {
    assert turns[..n + 1][..n] == turns[..n];
  }

  // ----- What the retry rule amounts to -----

  /** A job is completed if and only if its last attempt finished and the journal
      took note of it; a report is sent if and only if the last attempt finished;
      and every attempt before it failed in a way that is worth another one. */
  lemma {:induction false} PoolLaw(turns: seq<Turn>)
    requires forall i :: 0 <= i < |turns| ==> turns[i].work.Valid()
    ensures
      var r := Pool(turns, Failed);
      && r.attempts <= |turns|
      && (r.sent <==> r.attempts > 0 && Finishes(turns[r.attempts - 1].work))
      && (r.status == Completed <==> r.sent && !turns[r.attempts - 1].finishFails)
      && forall i :: 0 <= i < r.attempts ==>
           && Runs(turns[i])
           && (i + 1 < r.attempts ==> GoesOn(turns[i]))
  {
    if turns != [] {
      var t := turns[0];
      AttemptErrorLaw(t.work);
      PoolLaw(turns[1..]);
      hide AttemptError, Finishes;
      var r, rest := Pool(turns, Failed), Pool(turns[1..], Failed);
      assert r.attempts > 0 ==> Runs(turns[0]);
      if Runs(t) && GoesOn(t) && !(|turns| > 1 && t.cancelledInBackoff) {
        assert r.attempts == rest.attempts + 1;
        forall i | 0 <= i < r.attempts ensures Runs(turns[i]) && (i + 1 < r.attempts ==> GoesOn(turns[i])) {
          if i > 0 {
            assert turns[i] == turns[1..][i - 1];
          }
        }
        if rest.attempts > 0 {
          assert turns[1..][rest.attempts - 1] == turns[rest.attempts];
        }
      }
    }
  }

  /** The turn gets as far as its attempt. */
  predicate Runs(t: Turn) { !t.cancelledBefore && t.startFails.None? }

  /** The attempt failed, the journal took note, nothing was cancelled, and the
      failure is of a class that is retried. */
  predicate GoesOn(t: Turn)
    requires t.work.Valid()
  {
    !t.finishFails && AttemptError(t.work) == Some(Failure) && !t.cancelledAfter && t.retryable
  }

  lemma AttemptErrorLaw(k: Work)
    requires k.Valid()
    ensures AttemptError(k).None? <==> Finishes(k)
    ensures AttemptError(k) in {None, Some(JobError.Cancelled), Some(Failure)}
  {
    if AttemptError(k).Some? {
      assert AttemptError(k).value.Cancelled? || AttemptError(k).value.Failure?;
    }
  }

  /** When a second attempt runs. */
  lemma SecondAttemptIff(first: Turn, second: Turn)
    requires first.work.Valid() && second.work.Valid()
    ensures Pool([first, second], Failed).attempts == 2 <==>
            Runs(first) && GoesOn(first) && !first.cancelledInBackoff && Runs(second)
  {
    AttemptErrorLaw(first.work);
    OneTurn(second);
    hide AttemptError;
    assert [first, second][1..] == [second];
  }

  lemma OneTurn(t: Turn)
    requires t.work.Valid()
    ensures Pool([t], Failed).attempts == if Runs(t) then 1 else 0
  {
    hide AttemptError;
    assert [t][1..] == [];
  }

  // ----- How a job ends, from its turns alone -----

  /** The write goes on to the next one. */
  predicate GoesPast(w: Write) { w.Done? || w.Skipped? }

  /** The first `i` writes are reached and let the attempt go on. */
  predicate Reached(k: Work, i: nat)
    requires k.Valid() && i <= STORES
  {
    k.setup == None && forall j :: 0 <= j < i ==> GoesPast(k.writes[j])
  }

  predicate AttemptFinishes(k: Work)
    requires k.Valid()
  {
    Reached(k, STORES)
  }

  /** Cancelled in its setup, refused as cancelled at a write, or stopped behind one. */
  predicate AttemptCancelled(k: Work)
    requires k.Valid()
  {
    || k.setup == Some(JobError.Cancelled)
    || exists i :: 0 <= i < STORES && Reached(k, i) && k.writes[i] in {Refused(JobError.Cancelled), StoppedAfterRename}
  }

  /** Failed in its setup or refused at a write. */
  predicate AttemptFails(k: Work)
    requires k.Valid()
  {
    || k.setup == Some(Failure)
    || exists i :: 0 <= i < STORES && Reached(k, i) && k.writes[i] == Refused(Failure)
  }

  /** Every attempt ends in exactly one of these ways, and its error says which. */
  lemma AttemptErrorIs(k: Work)
    requires k.Valid()
    ensures AttemptError(k) == None <==> AttemptFinishes(k)
    ensures AttemptError(k) == Some(JobError.Cancelled) <==> AttemptCancelled(k)
    ensures AttemptError(k) == Some(Failure) <==> AttemptFails(k)
  {
    PassedBound(k.writes);
    if k.setup.None? {
      var p := Passed(k.writes);
      assert forall i :: 0 <= i <= STORES ==> (Reached(k, i) <==> i <= p) by {
        forall i | 0 <= i <= STORES ensures Reached(k, i) <==> i <= p {
          if i > p {
            assert !GoesPast(k.writes[p]);
          } else {
            assert forall j :: 0 <= j < i ==> Continues(k.writes[j]);
          }
        }
      }
      if p < STORES {
        assert Reached(k, p) && !GoesPast(k.writes[p]);
        assert k.writes[p].Refused? ==> k.writes[p] in {Refused(JobError.Cancelled), Refused(Failure)} by {
          RefusalIsOneOfTwo(k.writes[p]);
        }
        assert forall i :: 0 <= i < p ==> GoesPast(k.writes[i]);
      }
    }
  }

  /** A store carries the attempt's stamp if and only if its write is reached and gets
      as far as its rename. */
  lemma StoreIsReplacedIff(s: Stamps, n: nat, k: Work, i: nat)
    requires k.Valid() && i < STORES
    ensures AfterAttempt(s, n, k)[i] ==
            if Reached(k, i) && k.writes[i] in {Done, StoppedAfterRename} then n else s[i]
  {
    PassedBound(k.writes);
    var p := Passed(k.writes);
    if p < i {
      assert !GoesPast(k.writes[p]);
    } else {
      assert forall j :: 0 <= j < i ==> Continues(k.writes[j]);
    }
  }

  lemma RefusalIsOneOfTwo(w: Write)
    ensures w.Refused? ==> w == Refused(JobError.Cancelled) || w == Refused(Failure)
  {
    if w.Refused? {
      match w.error
      case Cancelled =>
      case Failure =>
    }
  }

  /** The attempt ran and its journal entry was written. */
  predicate Recorded(t: Turn) {
    !t.cancelledBefore && t.startFails == None && !t.finishFails
  }

  /** The pool gets as far as turn `n`: every attempt before failed, was recorded, met
      no cancellation, and is of a class that is retried. */
  predicate ComesTo(turns: seq<Turn>, n: nat)
    requires n <= |turns| && forall i :: 0 <= i < |turns| ==> turns[i].work.Valid()
  {
    forall i :: 0 <= i < n ==>
      && Recorded(turns[i]) && AttemptFails(turns[i].work) && !turns[i].cancelledAfter && turns[i].retryable
      && (i + 1 < |turns| ==> !turns[i].cancelledInBackoff)
  }

  /** The job is cancelled at turn `n`: before its attempt or as its start is recorded,
      by an attempt that was itself cancelled, or, a failed one, by a cancellation
      behind it or in the backoff that could be recorded. */
  predicate CancelledAt(turns: seq<Turn>, n: nat)
    requires n < |turns| && forall i :: 0 <= i < |turns| ==> turns[i].work.Valid()
  {
    var t := turns[n];
    || t.cancelledBefore
    || t.startFails == Some(JobError.Cancelled)
    || (Recorded(t) && AttemptCancelled(t.work))
    || (Recorded(t) && AttemptFails(t.work) && !t.cancelRecordFails
        && (t.cancelledAfter || (t.retryable && n + 1 < |turns| && t.cancelledInBackoff)))
  }

  predicate CompletedAt(turns: seq<Turn>, n: nat)
    requires n < |turns| && forall i :: 0 <= i < |turns| ==> turns[i].work.Valid()
  {
    Recorded(turns[n]) && AttemptFinishes(turns[n].work)
  }

  predicate Valids(turns: seq<Turn>) {
    forall i :: 0 <= i < |turns| ==> turns[i].work.Valid()
  }

  /** Turn `n` is reached and the job is completed, or cancelled, at it. */
  predicate EndsCompleted(turns: seq<Turn>, n: nat)
    requires n < |turns| && Valids(turns)
  {
    ComesTo(turns, n) && CompletedAt(turns, n)
  }

  predicate EndsCancelled(turns: seq<Turn>, n: nat)
    requires n < |turns| && Valids(turns)
  {
    ComesTo(turns, n) && CancelledAt(turns, n)
  }

  /** Two turns after one another are the tail's with the first in front. */
  lemma EndsCons(turns: seq<Turn>, n: nat)
    requires n < |turns| - 1 && Valids(turns)
    ensures EndsCompleted(turns, n + 1) <==> ComesTo(turns, 1) && EndsCompleted(turns[1..], n)
    ensures EndsCancelled(turns, n + 1) <==> ComesTo(turns, 1) && EndsCancelled(turns[1..], n)
  {
    ComesToCons(turns, n);
    hide AttemptCancelled, AttemptFinishes, AttemptFails, ComesTo;
    assert turns[n + 1] == turns[1..][n];
  }

  /** One turn of the pool, from the turn alone. */
  lemma PoolStep(turns: seq<Turn>)
    requires turns != [] && Valids(turns)
    ensures ComesTo(turns, 0)
    ensures ComesTo(turns, 1) ==>
              && !CancelledAt(turns, 0) && !CompletedAt(turns, 0)
              && Pool(turns, Failed).status == Pool(turns[1..], Failed).status
              && Pool(turns, Failed).attempts == Pool(turns[1..], Failed).attempts + 1
    ensures !ComesTo(turns, 1) ==>
              && (Pool(turns, Failed).status == Completed <==> CompletedAt(turns, 0))
              && (Pool(turns, Failed).status == CancelledStatus <==> CancelledAt(turns, 0))
              && (CompletedAt(turns, 0) ==> Pool(turns, Failed).attempts == 1)
  {
    var t := turns[0];
    AttemptErrorIs(t.work);
    AttemptErrorLaw(t.work);
    hide AttemptError, AttemptFinishes, AttemptCancelled, AttemptFails;
  }

  /** The status of the pool, from the turns alone: completed or cancelled if and only
      if it comes to a turn that is, and failed otherwise. */
  lemma {:induction false} PoolStatusIff(turns: seq<Turn>)
    requires Valids(turns)
    ensures Pool(turns, Failed).status == Completed <==>
            exists n :: 0 <= n < |turns| && EndsCompleted(turns, n)
    ensures Pool(turns, Failed).status == CancelledStatus <==>
            exists n :: 0 <= n < |turns| && EndsCancelled(turns, n)
    ensures forall n :: 0 <= n < |turns| && EndsCompleted(turns, n) ==> Pool(turns, Failed).attempts == n + 1
  {
    if turns != [] {
      var rest := turns[1..];
      PoolStep(turns);
      PoolStatusIff(rest);
      forall n | 0 <= n < |rest|
        ensures EndsCompleted(turns, n + 1) <==> ComesTo(turns, 1) && EndsCompleted(rest, n)
        ensures EndsCancelled(turns, n + 1) <==> ComesTo(turns, 1) && EndsCancelled(rest, n)
      {
        EndsCons(turns, n);
      }
      assert EndsCompleted(turns, 0) <==> CompletedAt(turns, 0);
      assert EndsCancelled(turns, 0) <==> CancelledAt(turns, 0);
      hide Pool, CompletedAt, CancelledAt, ComesTo, EndsCompleted, EndsCancelled;
      forall n | 0 < n < |turns|
        ensures EndsCompleted(turns, n) <==> ComesTo(turns, 1) && EndsCompleted(rest, n - 1)
        ensures EndsCancelled(turns, n) <==> ComesTo(turns, 1) && EndsCancelled(rest, n - 1)
      {
        assert EndsCompleted(turns, n - 1 + 1) <==> ComesTo(turns, 1) && EndsCompleted(rest, n - 1);
        assert EndsCancelled(turns, n - 1 + 1) <==> ComesTo(turns, 1) && EndsCancelled(rest, n - 1);
      }
      if n :| 0 <= n < |rest| && EndsCompleted(rest, n) {
        assert ComesTo(turns, 1) ==> EndsCompleted(turns, n + 1);
      }
      if n :| 0 <= n < |rest| && EndsCancelled(rest, n) {
        assert ComesTo(turns, 1) ==> EndsCancelled(turns, n + 1);
      }
    }
  }

  lemma ComesToCons(turns: seq<Turn>, n: nat)
    requires n < |turns| - 1 && forall i :: 0 <= i < |turns| ==> turns[i].work.Valid()
    ensures ComesTo(turns, n + 1) <==> ComesTo(turns, 1) && ComesTo(turns[1..], n)
  {
    hide AttemptFails;
    var rest := turns[1..];
    assert forall i :: 0 <= i < |rest| ==> rest[i] == turns[i + 1];
    if ComesTo(turns, 1) && ComesTo(rest, n) {
      forall i | 0 <= i < n + 1
        ensures Recorded(turns[i]) && AttemptFails(turns[i].work) && !turns[i].cancelledAfter && turns[i].retryable
        ensures i + 1 < |turns| ==> !turns[i].cancelledInBackoff
      {
        assert i > 0 ==> turns[i] == rest[i - 1];
      }
    }
    if ComesTo(turns, n + 1) {
      forall i | 0 <= i < n
        ensures Recorded(rest[i]) && AttemptFails(rest[i].work) && !rest[i].cancelledAfter && rest[i].retryable
        ensures i + 1 < |rest| ==> !rest[i].cancelledInBackoff
      {
        assert rest[i] == turns[i + 1];
      }
    }
  }

  /** What the caller gets, from the turns alone: nothing for a deferred job; the
      report of attempt `n + 1` if and only if the pool comes to turn `n` and completes
      there; the cancellation if and only if it is cancelled at a turn it comes to; and
      the failure otherwise. */
  lemma JobEnds(deferred: bool, turns: seq<Turn>)
    requires Valids(turns)
    ensures JobResult(deferred, turns) == Deferred <==> deferred
    ensures forall a: nat :: JobResult(deferred, turns) == Report(a) <==>
              !deferred && 0 < a <= |turns| && EndsCompleted(turns, a - 1)
    ensures JobResult(deferred, turns) == Error(JobError.Cancelled) <==>
            !deferred && exists n :: 0 <= n < |turns| && EndsCancelled(turns, n)
    ensures JobResult(deferred, turns) == Error(Failure) <==>
            && !deferred
            && forall n :: 0 <= n < |turns| ==> !EndsCompleted(turns, n) && !EndsCancelled(turns, n)
  {
    PoolStatusIff(turns);
    hide Pool, EndsCompleted, EndsCancelled;
    var r := Pool(turns, Failed);
    if r.status == Completed {
      var n :| 0 <= n < |turns| && EndsCompleted(turns, n);
      assert r.attempts == n + 1;
      forall a: nat ensures JobResult(deferred, turns) == Report(a) <==>
                       !deferred && 0 < a <= |turns| && EndsCompleted(turns, a - 1)
      {
        if 0 < a <= |turns| && EndsCompleted(turns, a - 1) {
          assert r.attempts == a - 1 + 1;
        }
      }
    }
  }

  // ----- What interruptions leave behind -----

  /** However an attempt ends, the stores it replaced are a prefix of the write
      order, up to stores the job does not have; and it finishes only if it
      replaced them all. */
  lemma AttemptReplacesPrefix(k: Work, i: nat, j: nat)
    requires k.Valid() && i < j < STORES && Replaces(k, j) && !k.writes[i].Skipped?
    ensures Replaces(k, i)
  {
    PassedBound(k.writes);
    assert Continues(k.writes[i]);
  }

  lemma FinishedAttemptReplacesAll(k: Work, i: nat)
    requires k.Valid() && Finishes(k) && i < STORES && !k.writes[i].Skipped?
    ensures Replaces(k, i)
  {
    PassedBound(k.writes);
    assert Continues(k.writes[i]);
  }

  /** Earlier stores are never older than later ones. */
  predicate NewestFirst(s: Stamps) {
    forall i, j :: 0 <= i < j < STORES ==> s[i] >= s[j]
  }

  predicate NoneSkipped(turns: seq<Turn>) {
    forall n, i :: 0 <= n < |turns| && turns[n].work.Valid() && 0 <= i < STORES ==> !turns[n].work.writes[i].Skipped?
  }

  lemma AttemptKeepsOrder(s: Stamps, n: nat, k: Work)
    requires k.Valid() && NewestFirst(s) && s[0] < n
    requires forall i :: 0 <= i < STORES ==> !k.writes[i].Skipped?
    ensures NewestFirst(AfterAttempt(s, n, k)) && AfterAttempt(s, n, k)[0] <= n
  {
    var after := AfterAttempt(s, n, k);
    forall i, j | 0 <= i < j < STORES ensures after[i] >= after[j] {
      if Replaces(k, j) {
        AttemptReplacesPrefix(k, i, j);
      }
      assert s[0] >= s[i] && s[0] >= s[j];
    }
  }

  /** Over any number of attempts, interrupted anywhere, the stores stay ordered by
      age: content is never from a newer attempt than the records beside it, nor
      the versions or the quarantine from a newer one than the content. */
  lemma {:induction false} StoresStayOrdered(s: Stamps, first: nat, turns: seq<Turn>)
    requires NewestFirst(s) && s[0] < first && NoneSkipped(turns)
    requires forall i :: 0 <= i < |turns| ==> turns[i].work.Valid()
    ensures NewestFirst(AfterAttempts(s, first, turns))
    ensures AfterAttempts(s, first, turns)[0] < first + |turns|
  {
    hide AfterAttempt, NewestFirst;
    if turns != [] {
      var n := |turns| - 1;
      StoresStayOrdered(s, first, turns[..n]);
      AttemptKeepsOrder(AfterAttempts(s, first, turns[..n]), first + n, turns[n].work);
    }
  }

  /** An interruption can leave new records beside an old content index. */
  lemma RecordsCanRunAhead() returns (k: Work)
    ensures k.Valid() && AttemptError(k) == Some(Failure)
    ensures AfterAttempt([0, 0, 0, 0, 0], 1, k) == [1, 0, 0, 0, 0]
  {
    k := Work(None, [Done, Refused(Failure), Done, Done, Done]);
    assert Passed(k.writes) == 1;
  }
}
