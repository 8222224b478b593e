// What a restart of the background content index finds: the job journal is folded
// into one recovery state per job id, and merged with the progress store.
module Recovery {
  import opened Numbers
  import opened Text

  datatype TaskStatus = Started | Completed | Cancelled | Failed(message: string)

  datatype JournalEntry = JournalEntry(id: nat, name: string, attempt: nat, status: TaskStatus)

  datatype FailureClass = Transient | Permission | MissingFile | CorruptFile | OfflineVolume | Permanent {
    predicate Retryable() { this == Transient || this == OfflineVolume }
  }

  predicate ContainsAny(message: string, needles: seq<string>) {
    exists n :: n in needles && Contains(message, n)
  }

  const OFFLINE: seq<string> := ["offline", "not mounted", "unmounted", "ejected", "network is down",
    "network is unreachable", "device not configured", "stale file handle"]
  const PERMISSION: seq<string> := ["permission", "denied", "not permitted", "tcc"]
  const MISSING: seq<string> := ["missing", "not found", "no such file"]
  const CORRUPT: seq<string> := ["corrupt", "checksum", "crc", "malformed"]
  const TRANSIENT: seq<string> := ["temporary", "transient", "timed out", "timeout", "busy", "again",
    "resource temporarily unavailable", "interrupted system call", "source does not exist"]

  function Classify(message: string): FailureClass {
    var m := Lower(message);
    if ContainsAny(m, OFFLINE) then OfflineVolume
    else if ContainsAny(m, PERMISSION) then Permission
    else if ContainsAny(m, MISSING) then MissingFile
    else if ContainsAny(m, CORRUPT) then CorruptFile
    else if ContainsAny(m, TRANSIENT) then Transient
    else Permanent
  }

  /** The class of a failure by the first group of words its message holds, whatever
      the case of its letters. */
  lemma ClassIs(message: string)
    ensures
      var m, kind := Lower(message), Classify(message);
      var offline := ContainsAny(m, ["offline", "not mounted", "unmounted", "ejected", "network is down",
                                     "network is unreachable", "device not configured", "stale file handle"]);
      var permission := ContainsAny(m, ["permission", "denied", "not permitted", "tcc"]);
      var missing := ContainsAny(m, ["missing", "not found", "no such file"]);
      var corrupt := ContainsAny(m, ["corrupt", "checksum", "crc", "malformed"]);
      var transient := ContainsAny(m, ["temporary", "transient", "timed out", "timeout", "busy", "again",
                                       "resource temporarily unavailable", "interrupted system call",
                                       "source does not exist"]);
      && (kind == OfflineVolume <==> offline)
      && (kind == Permission <==> !offline && permission)
      && (kind == MissingFile <==> !offline && !permission && missing)
      && (kind == CorruptFile <==> !offline && !permission && !missing && corrupt)
      && (kind == Transient <==> !offline && !permission && !missing && !corrupt && transient)
      && (kind == Permanent <==> !offline && !permission && !missing && !corrupt && !transient)
  {
    hide ContainsAny, Lower;
  }

  function Pow2(n: nat): nat { if n == 0 then 1 else 2 * Pow2(n - 1) }

  function BackoffMs(c: FailureClass, attempts: nat): nat {
    var base := if c == Transient then 25 else if c == OfflineVolume then 250 else 0;
    base * Pow2(Min(if attempts == 0 then 0 else attempts - 1, 8))
  }

  const MAX_ATTEMPTS: nat := 2

  datatype Reason = Interrupted | RetryableFailure

  datatype RecoveryJob = RecoveryJob(id: nat, name: string, attempts: nat, reason: Reason,
                                     failure: Option<FailureClass>, delayMs: nat)

  datatype RecoveryState = RecoveryState(id: nat, name: string, attempts: nat, last: TaskStatus) {
    function Apply(e: JournalEntry): RecoveryState {
      RecoveryState(id, e.name, Max(attempts, e.attempt), e.status)
    }

    /** The job a state stands for, if it is worth recovering. */
    function Job(): Option<RecoveryJob> {
      match last
      case Started => Some(RecoveryJob(id, name, attempts, Interrupted, None, 0))
      case Failed(message) =>
        var c := Classify(message);
        if c.Retryable() && attempts < MAX_ATTEMPTS
        then Some(RecoveryJob(id, name, attempts, RetryableFailure, Some(c), BackoffMs(c, attempts)))
        else None
      case _ => None
    }
  }

  // ----- The journal, one id at a time -----

  /** The state of one id: the last entry decides name and status, the attempts
      are the largest recorded. */
  function StateOf(entries: seq<JournalEntry>, id: nat): Option<RecoveryState> {
    if entries == [] then None
    else
      var e := entries[|entries| - 1];
      var before := StateOf(entries[..|entries| - 1], id);
      if e.id != id then before
      else Some(RecoveryState(id, e.name, Max(if before.Some? then before.value.attempts else 0, e.attempt), e.status))
  }

  function JobOf(entries: seq<JournalEntry>, id: nat): Option<RecoveryJob> {
    match StateOf(entries, id)
    case None => None
    case Some(s) => s.Job()
  }

  // ----- The recoverable jobs, from the entries alone -----

  /** Entry `k` is the last one of its id. */
  predicate LastOf(entries: seq<JournalEntry>, k: nat, id: nat)
    requires k < |entries|
  {
    entries[k].id == id && forall j :: k < j < |entries| ==> entries[j].id != id
  }

  predicate LargestAttempt(entries: seq<JournalEntry>, id: nat, n: nat) {
    && (exists j :: 0 <= j < |entries| && entries[j].id == id && entries[j].attempt == n)
    && forall j :: 0 <= j < |entries| && entries[j].id == id ==> entries[j].attempt <= n
  }

  /** A state is found for exactly the ids with an entry: the last one's name and status
      with the largest attempt of all. */
  lemma {:induction false} StateIs(entries: seq<JournalEntry>, id: nat) returns (k: nat)
    ensures StateOf(entries, id).None? <==> forall j :: 0 <= j < |entries| ==> entries[j].id != id
    ensures StateOf(entries, id).Some? ==>
              && k < |entries| && LastOf(entries, k, id)
              && StateOf(entries, id).value.id == id
              && StateOf(entries, id).value.name == entries[k].name
              && StateOf(entries, id).value.last == entries[k].status
              && LargestAttempt(entries, id, StateOf(entries, id).value.attempts)
  {
    k := 0;
    if entries != [] {
      var n := |entries| - 1;
      var front := entries[..n];
      assert forall j :: 0 <= j < n ==> front[j] == entries[j];
      k := StateIs(front, id);
      var before := StateOf(front, id);
      if before.Some? {
        var j :| 0 <= j < n && front[j].id == id && front[j].attempt == before.value.attempts;
        assert entries[j].id == id && entries[j].attempt == before.value.attempts;
      }
      if entries[n].id == id {
        k := n;
      }
    }
  }

  /** What is recovered for an id whose last entry is `k`: a job if and only if that
      entry is an open start, or a failure of one of the two retried classes with no
      second attempt on record. The job carries the entry's name, the largest attempt
      and the first delay of its class. */
  lemma RecoveredIff(entries: seq<JournalEntry>, id: nat, k: nat)
    requires k < |entries| && LastOf(entries, k, id)
    ensures JobOf(entries, id).Some? <==>
            || entries[k].status == Started
            || (&& entries[k].status.Failed? && Classify(entries[k].status.message) in {Transient, OfflineVolume}
                && forall j :: 0 <= j < |entries| && entries[j].id == id ==> entries[j].attempt <= 1)
    ensures JobOf(entries, id).Some? ==>
              var job := JobOf(entries, id).value;
              && job.id == id && job.name == entries[k].name && LargestAttempt(entries, id, job.attempts)
              && (job.reason == Interrupted <==> entries[k].status == Started)
              && (job.reason == Interrupted ==> job.failure == None && job.delayMs == 0)
              && (job.reason == RetryableFailure ==>
                    && job.failure == Some(Classify(entries[k].status.message))
                    && job.delayMs == if job.failure == Some(Transient) then 25 else 250)
  {
    hide StateOf, LargestAttempt, Classify;
    var k' := StateIs(entries, id);
    assert k' == k;
    var attempts := StateOf(entries, id).value.attempts;
    assert Pow2(0) == 1;
    assert attempts <= 1 <==> forall j :: 0 <= j < |entries| && entries[j].id == id ==> entries[j].attempt <= 1 by {
      LargestIsBound(entries, id, attempts);
    }
  }

  lemma LargestIsBound(entries: seq<JournalEntry>, id: nat, n: nat)
    requires LargestAttempt(entries, id, n)
    ensures n <= 1 <==> forall j :: 0 <= j < |entries| && entries[j].id == id ==> entries[j].attempt <= 1
  {
  }

  /** Nothing is recovered for an id the journal does not name. */
  lemma NamedIfRecovered(entries: seq<JournalEntry>, id: nat) returns (k: nat)
    requires JobOf(entries, id).Some?
    ensures k < |entries| && LastOf(entries, k, id)
  {
    k := StateIs(entries, id);
  }

  predicate DistinctIds(jobs: seq<RecoveryJob>) {
    forall i, j :: 0 <= i < j < |jobs| ==> jobs[i].id != jobs[j].id
  }

  /** The jobs are those of the journal's ids, no more and no fewer. */
  ghost predicate Exactly(jobs: seq<RecoveryJob>, entries: seq<JournalEntry>) {
    && (forall i :: 0 <= i < |jobs| ==> JobOf(entries, jobs[i].id) == Some(jobs[i]))
    && (forall id :: JobOf(entries, id).Some? ==> JobOf(entries, id).value in jobs)
  }

  method FindState(states: seq<RecoveryState>, id: nat) returns (found: Option<nat>)
    ensures found.Some? ==> found.value < |states| && states[found.value].id == id
    ensures found.None? ==> forall i :: 0 <= i < |states| ==> states[i].id != id
  {
    for i := 0 to |states|
      invariant forall j :: 0 <= j < i ==> states[j].id != id
    {
      if states[i].id == id {
        return Some(i);
      }
    }
    return None;
  }

  ghost predicate Folded(states: seq<RecoveryState>, entries: seq<JournalEntry>) {
    && (forall i, j :: 0 <= i < j < |states| ==> states[i].id != states[j].id)
    && (forall i :: 0 <= i < |states| ==> StateOf(entries, states[i].id) == Some(states[i]))
    && (forall id :: StateOf(entries, id).Some? ==> exists i :: 0 <= i < |states| && states[i].id == id)
  }

  lemma FoldStep(states: seq<RecoveryState>, entries: seq<JournalEntry>, e: JournalEntry, found: Option<nat>,
                 states': seq<RecoveryState>)
    requires Folded(states, entries)
    requires found.Some? ==> found.value < |states| && states[found.value].id == e.id
    requires found.None? ==> forall i :: 0 <= i < |states| ==> states[i].id != e.id
    requires states' == if found.Some? then states[found.value := states[found.value].Apply(e)]
                        else states + [RecoveryState(e.id, e.name, e.attempt, e.status)]
    ensures Folded(states', entries + [e])
  {
    var all := entries + [e];
    assert all[..|all| - 1] == entries;
    forall id | StateOf(all, id).Some? ensures exists i :: 0 <= i < |states'| && states'[i].id == id {
      if id == e.id {
        var at := if found.Some? then found.value else |states|;
        assert states'[at].id == id;
      } else {
        assert StateOf(all, id) == StateOf(entries, id);
        var i :| 0 <= i < |states| && states[i].id == id;
        assert states'[i].id == id;
      }
    }
  }

  method FoldJournal(entries: seq<JournalEntry>) returns (states: seq<RecoveryState>)
    ensures Folded(states, entries)
  {
    states := [];
    for n := 0 to |entries|
      invariant Folded(states, entries[..n])
    {
      hide Folded, StateOf;
      var e := entries[n];
      var found := FindState(states, e.id);
      var states' := if found.Some? then states[found.value := states[found.value].Apply(e)]
                     else states + [RecoveryState(e.id, e.name, e.attempt, e.status)];
      FoldStep(states, entries[..n], e, found, states');
      assert entries[..n] + [e] == entries[..n + 1];
      states := states';
    }
    assert entries[..|entries|] == entries;
  }

  /** The journal's recoverable jobs: one per id, exactly those whose last entry
      is an open start or a retryable failure with attempts left. */
  method Recoverable(entries: seq<JournalEntry>) returns (jobs: seq<RecoveryJob>)
    ensures DistinctIds(jobs) && Exactly(jobs, entries)
  {
    hide StateOf, RecoveryState.Job;
    var states := FoldJournal(entries);
    jobs := [];
    for n := 0 to |states|
      invariant DistinctIds(jobs)
      invariant forall i :: 0 <= i < |jobs| ==>
                  exists k :: 0 <= k < n && states[k].id == jobs[i].id && states[k].Job() == Some(jobs[i])
      invariant forall k :: 0 <= k < n && states[k].Job().Some? ==> states[k].Job().value in jobs
    {
      JobKeepsId(states[n]);
      if states[n].Job().Some? {
        jobs := jobs + [states[n].Job().value];
      }
    }
    forall id | JobOf(entries, id).Some? ensures JobOf(entries, id).value in jobs {
      var k :| 0 <= k < |states| && states[k].id == id;
      assert StateOf(entries, states[k].id) == Some(states[k]);
    }
  }

  lemma JobKeepsId(s: RecoveryState)
    ensures s.Job().Some? ==> s.Job().value.id == s.id
  {
  }

  // ----- Merging with the progress store -----

  const CONTENT_INDEX: string := "background content index"

  datatype ProgressState = Planned | Running | Paused | EndedCompleted | EndedCancelled | EndedFailed {
    predicate Restorable() { this == Planned || this == Running || this == Paused }
  }

  datatype Snapshot = Snapshot(id: nat, name: string, state: ProgressState)

  /** The counters of a recovery report, updated job by job. */
  class RecoverableContentJobs {
    var total: nat
    var interrupted: nat
    var retryableFailures: nat
    var restorableProgress: nat
    var transientFailures: nat
    var offlineVolumeFailures: nat
    var nextDelayMs: nat

    constructor ()
      ensures total == interrupted == retryableFailures == restorableProgress == 0
      ensures transientFailures == offlineVolumeFailures == nextDelayMs == 0
    {
      total, interrupted, retryableFailures, restorableProgress := 0, 0, 0, 0;
      transientFailures, offlineVolumeFailures, nextDelayMs := 0, 0, 0;
    }

    method AddJournalJob(j: RecoveryJob)
      modifies this
      ensures total == old(total) + 1 && restorableProgress == old(restorableProgress)
      ensures interrupted == old(interrupted) + if j.reason == Interrupted then 1 else 0
      ensures retryableFailures == old(retryableFailures) + if j.reason == RetryableFailure then 1 else 0
      ensures transientFailures == old(transientFailures)
              + if j.reason == RetryableFailure && j.failure == Some(Transient) then 1 else 0
      ensures offlineVolumeFailures == old(offlineVolumeFailures)
              + if j.reason == RetryableFailure && j.failure == Some(OfflineVolume) then 1 else 0
      ensures nextDelayMs == if j.reason == RetryableFailure then Max(old(nextDelayMs), j.delayMs) else old(nextDelayMs)
    {
      total := total + 1;
      match j.reason {
        case Interrupted => interrupted := interrupted + 1;
        case RetryableFailure =>
          retryableFailures := retryableFailures + 1;
          nextDelayMs := Max(nextDelayMs, j.delayMs);
          if j.failure == Some(Transient) {
            transientFailures := transientFailures + 1;
          } else if j.failure == Some(OfflineVolume) {
            offlineVolumeFailures := offlineVolumeFailures + 1;
          }
      }
    }

    method AddProgressJob()
      modifies this`total, this`restorableProgress
      ensures total == old(total) + 1 && restorableProgress == old(restorableProgress) + 1
    {
      total := total + 1;
      restorableProgress := restorableProgress + 1;
    }

    predicate Zero()
      reads this
    {
      total == interrupted == retryableFailures == restorableProgress == 0
      && transientFailures == offlineVolumeFailures == nextDelayMs == 0
    }

    ghost predicate CountsJournal(jobs: seq<RecoveryJob>)
      reads this
    {
      && interrupted == |Ids(jobs, IsInterrupted)| && retryableFailures == |Ids(jobs, IsRetryable)|
      && transientFailures == |Ids(jobs, IsTransient)| && offlineVolumeFailures == |Ids(jobs, IsOffline)|
      && nextDelayMs == MaxDelay(jobs)
    }

    method MergeJournal(jobs: seq<RecoveryJob>) returns (ids: set<nat>)
      requires Zero() && DistinctIds(jobs)
      modifies this
      ensures CountsJournal(jobs) && restorableProgress == 0
      ensures ids == Ids(jobs, AnyJob) && total == |ids|
    {
      hide Ids, MaxDelay;
      EmptyCounts();
      ids := {};
      assert jobs[..0] == [];
      for n := 0 to |jobs|
        invariant ids == Ids(jobs[..n], AnyJob) && total == |ids| && restorableProgress == 0
        invariant CountsJournal(jobs[..n])
      {
        var job := jobs[n];
        IdsSnoc(jobs, n, AnyJob);
        CountSnoc(jobs, n, IsInterrupted);
        CountSnoc(jobs, n, IsRetryable);
        CountSnoc(jobs, n, IsTransient);
        CountSnoc(jobs, n, IsOffline);
        MaxDelaySnoc(jobs, n);
        hide DistinctIds;
        if job.name == CONTENT_INDEX && job.id !in ids {
          ids := ids + {job.id};
          AddJournalJob(job);
        }
      }
      assert jobs[..|jobs|] == jobs;
    }

    method MergeProgress(journal: set<nat>, snapshots: seq<Snapshot>)
      requires total == |journal| && restorableProgress == 0
      modifies this`total, this`restorableProgress
      ensures total == |journal + ProgressIds(snapshots)|
      ensures restorableProgress == |ProgressIds(snapshots) - journal|
    {
      hide ProgressIds;
      EmptyProgress();
      assert snapshots[..0] == [];
      var ids := journal;
      for n := 0 to |snapshots|
        invariant ids == journal + ProgressIds(snapshots[..n]) && total == |ids|
        invariant restorableProgress == |ProgressIds(snapshots[..n]) - journal|
      {
        var s := snapshots[n];
        ProgressStep(journal, snapshots, n);
        if s.state.Restorable() && s.name == CONTENT_INDEX && s.id !in ids {
          ids := ids + {s.id};
          AddProgressJob();
        }
      }
      assert snapshots[..|snapshots|] == snapshots;
    }

    /** Journal jobs first, then the progress of ids the journal did not count;
        every counter is the size of a set of ids, so neither list's order matters. */
    method Recover(entries: seq<JournalEntry>, snapshots: seq<Snapshot>) returns (jobs: seq<RecoveryJob>)
      requires Zero()
      modifies this
      ensures DistinctIds(jobs) && Exactly(jobs, entries) && CountsJournal(jobs)
      ensures total == |Ids(jobs, AnyJob) + ProgressIds(snapshots)|
      ensures restorableProgress == |ProgressIds(snapshots) - Ids(jobs, AnyJob)|
    {
      jobs := Recoverable(entries);
      var ids := MergeJournal(jobs);
      MergeProgress(ids, snapshots);
    }
  }

  // ----- What the counters mean -----

  predicate AnyJob(j: RecoveryJob) { true }
  predicate IsInterrupted(j: RecoveryJob) { j.reason == Interrupted }
  predicate IsRetryable(j: RecoveryJob) { j.reason == RetryableFailure }
  predicate IsTransient(j: RecoveryJob) { j.reason == RetryableFailure && j.failure == Some(Transient) }
  predicate IsOffline(j: RecoveryJob) { j.reason == RetryableFailure && j.failure == Some(OfflineVolume) }

  /** The ids of the content-index jobs of one kind. */
  ghost function Ids(jobs: seq<RecoveryJob>, kind: RecoveryJob -> bool): set<nat> {
    set j | j in jobs && j.name == "background content index" && kind(j) :: j.id
  }

  ghost function ProgressIds(snapshots: seq<Snapshot>): set<nat> {
    set s | s in snapshots && s.name == "background content index" && s.state in {Planned, Running, Paused} :: s.id
  }

  function MaxDelay(jobs: seq<RecoveryJob>): nat {
    if jobs == [] then 0
    else
      var j, rest := jobs[|jobs| - 1], MaxDelay(jobs[..|jobs| - 1]);
      if j.name == CONTENT_INDEX && IsRetryable(j) then Max(rest, j.delayMs) else rest
  }

  lemma EmptyCounts()
    ensures Ids([], AnyJob) == Ids([], IsInterrupted) == Ids([], IsRetryable) == Ids([], IsTransient) ==
            Ids([], IsOffline) == {}
    ensures MaxDelay([]) == 0
  {
  }

  lemma EmptyProgress()
    ensures ProgressIds([]) == {}
  {
  }

  lemma IdsSnoc(jobs: seq<RecoveryJob>, n: nat, kind: RecoveryJob -> bool)
    requires n < |jobs| && DistinctIds(jobs)
    ensures Ids(jobs[..n + 1], kind) == Ids(jobs[..n], kind) +
            if jobs[n].name == CONTENT_INDEX && kind(jobs[n]) then {jobs[n].id} else {}
    ensures jobs[n].id !in Ids(jobs[..n], kind)
  {
    assert forall j :: j in jobs[..n + 1] <==> j == jobs[n] || j in jobs[..n];
  }

  lemma CountSnoc(jobs: seq<RecoveryJob>, n: nat, kind: RecoveryJob -> bool)
    requires n < |jobs| && DistinctIds(jobs)
    ensures |Ids(jobs[..n + 1], kind)| == |Ids(jobs[..n], kind)|
            + if jobs[n].name == CONTENT_INDEX && kind(jobs[n]) then 1 else 0
  {
    IdsSnoc(jobs, n, kind);
  }

  lemma MaxDelaySnoc(jobs: seq<RecoveryJob>, n: nat)
    requires n < |jobs|
    ensures MaxDelay(jobs[..n + 1]) ==
            if jobs[n].name == CONTENT_INDEX && IsRetryable(jobs[n]) then Max(MaxDelay(jobs[..n]), jobs[n].delayMs)
            else MaxDelay(jobs[..n])
  {
    assert jobs[..n + 1][..n] == jobs[..n];
  }

  lemma ProgressIdsSnoc(snapshots: seq<Snapshot>, n: nat)
    requires n < |snapshots|
    ensures ProgressIds(snapshots[..n + 1]) == ProgressIds(snapshots[..n]) +
            if snapshots[n].name == CONTENT_INDEX && snapshots[n].state.Restorable() then {snapshots[n].id} else {}
  {
    assert forall s :: s in snapshots[..n + 1] <==> s == snapshots[n] || s in snapshots[..n];
  }

  lemma OneMore(journal: set<nat>, before: set<nat>, id: nat)
    requires id !in journal + before
    ensures journal + (before + {id}) == (journal + before) + {id}
    ensures |(before + {id}) - journal| == |before - journal| + 1
  {
    assert (before + {id}) - journal == (before - journal) + {id};
  }

  lemma NoneMore(journal: set<nat>, before: set<nat>, id: nat)
    requires id in journal + before
    ensures journal + (before + {id}) == journal + before
    ensures (before + {id}) - journal == before - journal
  {
  }

  /** One snapshot adds its id to the count unless it was counted before. */
  lemma ProgressStep(journal: set<nat>, snapshots: seq<Snapshot>, n: nat)
    requires n < |snapshots|
    ensures var s, before, after := snapshots[n], ProgressIds(snapshots[..n]), ProgressIds(snapshots[..n + 1]);
            if s.state.Restorable() && s.name == CONTENT_INDEX && s.id !in journal + before
            then journal + after == (journal + before) + {s.id} && |after - journal| == |before - journal| + 1
            else journal + after == journal + before && after - journal == before - journal
  {
    hide ProgressIds;
    var s, before, after := snapshots[n], ProgressIds(snapshots[..n]), ProgressIds(snapshots[..n + 1]);
    ProgressIdsSnoc(snapshots, n);
    if !(s.state.Restorable() && s.name == CONTENT_INDEX) {
      assert after == before;
    } else if s.id in journal + before {
      NoneMore(journal, before, s.id);
    } else {
      OneMore(journal, before, s.id);
    }
  }

  lemma DisjointSizes(a: set<nat>, b: set<nat>, all: set<nat>)
    requires all == a + b && a !! b
    ensures |all| == |a| + |b|
  {
  }

  lemma JobShape(entries: seq<JournalEntry>, id: nat)
    requires JobOf(entries, id).Some?
    ensures var j := JobOf(entries, id).value;
            && j.id == id
            && (j.reason == RetryableFailure ==>
                  || (j.failure == Some(Transient) && j.delayMs == 25)
                  || (j.failure == Some(OfflineVolume) && j.delayMs == 250))
  {
    StateKeepsId(entries, id);
    assert Pow2(0) == 1;
  }

  lemma {:induction false} StateKeepsId(entries: seq<JournalEntry>, id: nat)
    ensures StateOf(entries, id).Some? ==> StateOf(entries, id).value.id == id
  {
    if entries != [] {
      StateKeepsId(entries[..|entries| - 1], id);
    }
  }

  /** The arithmetic of a recovery report: every id is counted once, the journal's
      view wins, and with at most two attempts a retryable failure is transient or
      of an offline volume, never anything else. */
  lemma {:induction false} RecoveryTotals(entries: seq<JournalEntry>, jobs: seq<RecoveryJob>, snapshots: seq<Snapshot>)
    requires DistinctIds(jobs) && Exactly(jobs, entries)
    ensures |Ids(jobs, AnyJob) + ProgressIds(snapshots)| ==
            |Ids(jobs, IsInterrupted)| + |Ids(jobs, IsRetryable)| + |ProgressIds(snapshots) - Ids(jobs, AnyJob)|
    ensures |Ids(jobs, IsTransient)| + |Ids(jobs, IsOffline)| == |Ids(jobs, IsRetryable)|
  {
    hide Ids, JobOf, ProgressIds;
    var all, progress := Ids(jobs, AnyJob), ProgressIds(snapshots);
    forall j | j in jobs && IsRetryable(j) ensures IsTransient(j) || IsOffline(j) {
      JobShape(entries, j.id);
    }
    IdsPartition(jobs, IsInterrupted, IsRetryable, AnyJob);
    IdsPartition(jobs, IsTransient, IsOffline, IsRetryable);
    DisjointSizes(all, progress - all, all + progress);
  }

  lemma IdsPartition(jobs: seq<RecoveryJob>, a: RecoveryJob -> bool, b: RecoveryJob -> bool, all: RecoveryJob -> bool)
    requires DistinctIds(jobs)
    requires forall j :: j in jobs ==> (all(j) <==> a(j) || b(j)) && !(a(j) && b(j))
    ensures |Ids(jobs, all)| == |Ids(jobs, a)| + |Ids(jobs, b)|
  {
    forall i, j | i in jobs && j in jobs && i.id == j.id ensures i == j {
    }
    DisjointSizes(Ids(jobs, a), Ids(jobs, b), Ids(jobs, all));
  }

  /** The reported delay is decided by the classes alone: 250 ms as soon as some
      counted failure is of an offline volume, else 25 ms for a transient one. */
  lemma {:induction false} RecoveryDelay(entries: seq<JournalEntry>, jobs: seq<RecoveryJob>)
    requires forall i :: 0 <= i < |jobs| ==> JobOf(entries, jobs[i].id) == Some(jobs[i])
    ensures MaxDelay(jobs) == if Ids(jobs, IsOffline) != {} then 250 else if Ids(jobs, IsTransient) != {} then 25 else 0
  {
    hide JobOf;
    if jobs != [] {
      var j, rest := jobs[|jobs| - 1], jobs[..|jobs| - 1];
      RecoveryDelay(entries, rest);
      JobShape(entries, j.id);
      assert forall k :: k in jobs <==> k == j || k in rest;
      assert Ids(jobs, IsOffline) == Ids(rest, IsOffline)
             + if j.name == CONTENT_INDEX && IsOffline(j) then {j.id} else {};
      assert Ids(jobs, IsTransient) == Ids(rest, IsTransient)
             + if j.name == CONTENT_INDEX && IsTransient(j) then {j.id} else {};
    }
  }
}
