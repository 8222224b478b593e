// Quarantined extraction: one run of the worker, and what any sequence of runs
// leaves in the quarantine store.
module ExtractionRuns {
  import opened Numbers
  import opened Text
  import opened Fingerprint
  import opened QuarantineStore
  import opened StoreFormat
  import opened Control
  import opened Diagnostics
  import opened Utf8
  import Supervisor

  // ----- Classifying a worker failure -----

  predicate ReportsEncrypted(m: string) {
    Contains(m, "encrypted-") || Contains(m, "reason=encrypted") || Contains(m, "worker-encrypted")
  }

  predicate ReportsCorrupt(m: string) {
    Contains(m, "corrupt-") || Contains(m, "reason=corrupt") || Contains(m, "worker-corrupt")
  }

  predicate ReportsSandboxViolation(m: string) {
    Contains(m, "sandbox") &&
    (Contains(m, "deny") || Contains(m, "denied") || Contains(m, "violation")
     || Contains(m, "operation not permitted") || Contains(m, "not permitted"))
  }

  function WorkerFailure(message: string): (FailureKind, string) {
    var normalized := Lower(message);
    if Contains(normalized, "timed out") then (Timeout, FailureReason("worker-timeout", message))
    else if ReportsEncrypted(normalized) then (Encrypted, "worker-encrypted")
    else if ReportsCorrupt(normalized) then (Corrupt, "worker-corrupt")
    else if ReportsSandboxViolation(normalized) then (Crash, FailureReason("worker-sandbox-violation", message))
    else (Crash, FailureReason("worker-crash", message))
  }

  lemma LowerConcat(a: string, b: string)
    ensures Lower(a + b) == Lower(a) + Lower(b)
  {
  }

  /** A message that says "timed out" anywhere, in any case, is a timeout, however
      its path or its diagnostics read. The supervisor's timeout message does. */
  lemma TimeoutIsTimeout(before: string, after: string)
    ensures WorkerFailure(before + "timed out" + after).0 == Timeout
  {
    LowerConcat(before + "timed out", after);
    LowerConcat(before, "timed out");
    assert Lower("timed out") == "timed out";
    var m := Lower(before + "timed out" + after);
    assert m[|before|..|before| + 9] == "timed out";
    ContainsAt(m, "timed out", |before|);
  }

  predicate Mentions(message: string, words: seq<string>) {
    exists w :: w in words && Contains(Lower(message), w)
  }

  /** The class of a message: a timeout first of all, then encrypted, then corrupt;
      whatever else is a crash, told apart by its reason as a sandbox violation if it
      speaks of the sandbox and of a denial. */
  lemma FailureClasses(message: string)
    ensures
      var (kind, reason) := WorkerFailure(message);
      var timeout := Mentions(message, ["timed out"]);
      var encrypted := Mentions(message, ["encrypted-", "reason=encrypted", "worker-encrypted"]);
      var corrupt := Mentions(message, ["corrupt-", "reason=corrupt", "worker-corrupt"]);
      var violation := Mentions(message, ["sandbox"])
        && Mentions(message, ["deny", "denied", "violation", "operation not permitted", "not permitted"]);
      && (kind == Timeout <==> timeout)
      && (kind == Encrypted <==> !timeout && encrypted)
      && (kind == Corrupt <==> !timeout && !encrypted && corrupt)
      && (kind == Crash <==> !timeout && !encrypted && !corrupt)
      && (kind == Timeout ==> reason == FailureReason("worker-timeout", message))
      && (kind == Encrypted ==> reason == "worker-encrypted")
      && (kind == Corrupt ==> reason == "worker-corrupt")
      && (kind == Crash ==>
            reason == FailureReason(if violation then "worker-sandbox-violation" else "worker-crash", message))
  {
    hide FailureReason, Contains, Lower;
    var m := Lower(message);
    assert Mentions(message, ["timed out"]) <==> Contains(m, "timed out") by {
      assert "timed out" in ["timed out"];
    }
    MentionsThree(message, "encrypted-", "reason=encrypted", "worker-encrypted");
    MentionsThree(message, "corrupt-", "reason=corrupt", "worker-corrupt");
    MentionsViolation(message);
  }

  lemma MentionsThree(message: string, a: string, b: string, c: string)
    ensures Mentions(message, [a, b, c]) <==>
            Contains(Lower(message), a) || Contains(Lower(message), b) || Contains(Lower(message), c)
  {
    hide Contains, Lower;
    var words := [a, b, c];
    assert a in words && b in words && c in words;
  }

  lemma MentionsViolation(message: string)
    ensures Mentions(message, ["sandbox"])
            && Mentions(message, ["deny", "denied", "violation", "operation not permitted", "not permitted"]) <==>
            ReportsSandboxViolation(Lower(message))
  {
    hide Contains, Lower;
    var words := ["deny", "denied", "violation", "operation not permitted", "not permitted"];
    assert "sandbox" in ["sandbox"];
    assert words[0] in words && words[1] in words && words[2] in words && words[3] in words && words[4] in words;
  }

  /** Messages that differ in the case of their letters only are classified alike. */
  lemma CaseDoesNotMatter(a: string, b: string)
    requires |a| == |b| && forall i :: 0 <= i < |a| ==> SameLetter(a[i], b[i])
    ensures WorkerFailure(a).0 == WorkerFailure(b).0
  {
    assert Lower(a) == Lower(b);
    hide Contains, FailureReason, Lower;
  }

  predicate SameLetter(c: char, d: char) {
    c == d || ('A' <= c <= 'Z' && d as int == c as int + 32) || ('A' <= d <= 'Z' && c as int == d as int + 32)
  }

  lemma TimeoutReason(message: string)
    requires WorkerFailure(message).0 == Timeout
    ensures WorkerFailure(message).1 == FailureReason("worker-timeout", message)
  {
    hide FailureReason, Contains, Lower;
  }

  /** What the supervisor reports when it gives up on a worker. */
  function TimeoutMessage(ms: nat, input: string, exit: Supervisor.Exit, diagnostics: string): string
    requires exit.TimedOut?
  {
    "adaptive extraction worker " + "timed out"
    + (" after " + Dec(ms) + " ms for " + input
       + "; worker-reaped=" + (if exit.reaped then "true" else "false") + diagnostics)
  }

  // ----- One run -----

  /** What the worker process comes back with. A cancelled worker may come back
      with anything, so the result does not depend on the token. */
  datatype WorkerResult = Finished(report: string) | Failed(message: string)

  /** One run's surroundings: how many polls pass, how many polls the access,
      scratch, fingerprint and store-reading steps make and whether one of them is
      refused, the polls and the result of the worker, and the final write. */
  datatype Plan = Plan(cancelAt: nat, entryPolls: nat, entryRefused: bool, workerPolls: nat, worker: WorkerResult,
                       write: WritePlan)

  datatype Request = Request(path: string, fingerprint: Fingerprint, threshold: nat, plan: Plan) {
    function Key(): string { CacheKey(path, fingerprint) }
  }

  datatype Answer =
    | AnsweredBlocked(entry: Entry)
    | AnsweredSuccess(report: string)
    | AnsweredFailure(blocked: Option<Entry>)
    | NoAnswer(cancelled: bool)

  datatype RunResult = RunResult(answer: Answer, store: Option<Quarantine>, launched: bool)

  /** The stored threshold wins over the caller's once a store exists. */
  function Opened(store: Option<Quarantine>, threshold: nat): Quarantine {
    match store
    case Some(q) => q
    case None => NewQuarantine(threshold)
  }

  /** The quarantine a launched worker leaves in memory. */
  function Recorded(q: Quarantine, r: Request): Quarantine {
    match r.plan.worker
    case Finished(_) => WithSuccess(q, r.Key())
    case Failed(message) => WithFailure(q, r.path, r.Key(), WorkerFailure(message).0, WorkerFailure(message).1)
  }

  /** The polls before the write's own: one more after a success than after a failure. */
  function PollsBeforeWrite(p: Plan): nat {
    p.entryPolls + 1 + p.workerPolls + if p.worker.Finished? then 2 else 1
  }

  predicate ReachesDecision(p: Plan) {
    Passes(0, p.entryPolls + 1, p.cancelAt) && !p.entryRefused
  }

  predicate Persists(p: Plan) {
    ReachesDecision(p) && Passes(0, PollsBeforeWrite(p), p.cancelAt) && Lands(PollsBeforeWrite(p), p.write, p.cancelAt)
  }

  function Run(store: Option<Quarantine>, r: Request): RunResult {
    var p, q := r.plan, Opened(store, r.threshold);
    if !Passes(0, p.entryPolls, p.cancelAt) then RunResult(NoAnswer(true), store, false)
    else if p.entryRefused then RunResult(NoAnswer(false), store, false)
    else if !ReachesDecision(p) then RunResult(NoAnswer(true), store, false)
    else if Blocked(q, r.Key()) then RunResult(AnsweredBlocked(q.entries[r.Key()]), store, false)
    else
      var next := Recorded(q, r);
      var stored := if Persists(p) then Some(next) else store;
      var answer :=
        if !Passes(0, PollsBeforeWrite(p), p.cancelAt) then NoAnswer(true)
        else if WriteSucceeds(PollsBeforeWrite(p), p.write, p.cancelAt) then
          (match p.worker
           case Finished(report) => AnsweredSuccess(report)
           case Failed(_) => AnsweredFailure(if Blocked(next, r.Key()) then Some(next.entries[r.Key()]) else None))
        else NoAnswer(!(Passes(PollsBeforeWrite(p), p.write.PollsBeforeRename(), p.cancelAt) && p.write.ioFails));
      RunResult(answer, stored, true)
  }

  method RunQuarantinedWorker(r: Request, store: StoreFile<Quarantine>) returns (answer: Answer, launched: bool)
    modifies store
    ensures Run(old(store.content), r) == RunResult(answer, store.content, launched)
  {
    hide WorkerFailure, CacheKey;
    var p, key := r.plan, r.Key();
    var c := new Cancellation(p.cancelAt);
    launched := false;
    var ok := c.CheckTimes(p.entryPolls);
    if !ok {
      return NoAnswer(true), false;
    }
    if p.entryRefused {
      return NoAnswer(false), false;
    }
    ok := c.Check();
    if !ok {
      return NoAnswer(true), false;
    }
    var q := new ExtractionQuarantine(Opened(store.content, r.threshold));
    var blocked := q.BeforeExtract(key);
    if blocked.Some? {
      return AnsweredBlocked(blocked.value), false;
    }
    launched := true;
    var _ := c.CheckTimes(p.workerPolls);
    match p.worker {
      case Finished(report) =>
        ok := c.Check();
        if !ok {
          return NoAnswer(true), true;
        }
        q.RecordSuccess(key);
        ok := c.Check();
        if !ok {
          return NoAnswer(true), true;
        }
        var written := store.WriteChecked(q.Value(), p.write, c);
        answer := if written.Written? then AnsweredSuccess(report) else NoAnswer(!written.Refused?);
      case Failed(message) =>
        var (kind, reason) := WorkerFailure(message);
        var decision := q.RecordFailure(r.path, key, kind, reason);
        ok := c.Check();
        if !ok {
          return NoAnswer(true), true;
        }
        var written := store.WriteChecked(q.Value(), p.write, c);
        answer := if written.Written? then AnsweredFailure(decision) else NoAnswer(!written.Refused?);
    }
  }

  // ----- What one run does to the store -----

  predicate WellFormedStore(store: Option<Quarantine>) {
    store.Some? ==> WellFormed(store.value)
  }

  predicate Others(before: Quarantine, after: Quarantine, key: string) {
    && after.threshold == before.threshold
    && before.entries - {key} == after.entries - {key}
  }

  /** A blocked file launches no worker and writes nothing, however the run is
      scheduled; and nothing else is ever refused a launch once the run reaches
      its decision. */
  lemma BlockedMeansInert(store: Option<Quarantine>, r: Request)
    ensures Blocked(Opened(store, r.threshold), r.Key()) ==> !Run(store, r).launched && Run(store, r).store == store
    ensures Run(store, r).launched <==> ReachesDecision(r.plan) && !Blocked(Opened(store, r.threshold), r.Key())
    ensures !Run(store, r).launched ==> Run(store, r).store == store
  {
  }

  /** The promised effect of an answered run: a success clears the entry, a
      failure adds exactly one (the saturating counter never saturates here),
      and no other entry moves. */
  lemma AnsweredRunEffect(store: Option<Quarantine>, r: Request)
    requires WellFormedStore(store) && r.threshold <= U32_MAX
    ensures
      var q, res := Opened(store, r.threshold), Run(store, r);
      && WellFormedStore(res.store)
      && (res.answer.AnsweredSuccess? ==>
            res.store.Some? && r.Key() !in res.store.value.entries && Others(q, res.store.value, r.Key()))
      && (res.answer.AnsweredFailure? ==>
            && res.store.Some? && Others(q, res.store.value, r.Key())
            && Failures(res.store.value, r.Key()) == Failures(q, r.Key()) + 1
            && (res.answer.blocked.Some? <==> Failures(res.store.value, r.Key()) >= q.threshold))
  {
    var q := Opened(store, r.threshold);
    assert (q.entries - {r.Key()}) - {r.Key()} == q.entries - {r.Key()};
    if r.plan.worker.Failed? {
      var next := Recorded(q, r);
      assert next.entries - {r.Key()} == q.entries - {r.Key()};
    }
  }

  /** A worker that the supervisor gave up on is stored as a timeout, whatever its
      path and its diagnostics hold, even if they name other kinds of failure. */
  lemma TimedOutIsStored(store: Option<Quarantine>, r: Request, ms: nat, exit: Supervisor.Exit, diagnostics: string)
    requires exit.TimedOut? && r.plan.worker == Failed(TimeoutMessage(ms, r.path, exit, diagnostics))
    requires Persists(r.plan) && !Blocked(Opened(store, r.threshold), r.Key())
    ensures
      var res := Run(store, r);
      && res.launched && res.store.Some? && r.Key() in res.store.value.entries
      && res.store.value.entries[r.Key()].kind == Timeout
      && res.store.value.entries[r.Key()].reason == FailureReason("worker-timeout", r.plan.worker.message)
  {
    var message := r.plan.worker.message;
    var before, after := "adaptive extraction worker ", message[36..];
    assert |before| == 27 && |"timed out"| == 9;
    assert message == before + "timed out" + after;
    TimeoutIsTimeout(before, after);
    TimeoutReason(message);
    hide WorkerFailure, TimeoutMessage, FailureReason;
  }

  /** What a failure leaves in the entry: the classified kind and reason, the path it
      was first recorded for, its key, and one failure more. */
  lemma RecordedEntry(store: Option<Quarantine>, r: Request)
    requires WellFormedStore(store) && r.threshold <= U32_MAX
    requires r.plan.worker.Failed? && Persists(r.plan) && !Blocked(Opened(store, r.threshold), r.Key())
    ensures
      var res, q := Run(store, r), Opened(store, r.threshold);
      && res.store.Some? && r.Key() in res.store.value.entries
      && var e := res.store.value.entries[r.Key()];
         && (e.kind, e.reason) == WorkerFailure(r.plan.worker.message)
         && e.path == (if r.Key() in q.entries then q.entries[r.Key()].path else r.path)
         && e.cacheKey == r.Key() && e.failures == Failures(q, r.Key()) + 1
         && (res.answer.AnsweredFailure? && res.answer.blocked.Some? ==> res.answer.blocked.value == e)
  {
    hide CacheKey, WorkerFailure;
  }

  /** Which answer a run gives: none, as refused, if a step before the decision or a
      step of the final write is refused while the polls in front of it pass; the
      block or the worker's answer if every poll passes; and none, as cancelled,
      otherwise. */
  lemma RunAnswers(store: Option<Quarantine>, r: Request)
    ensures
      var p, a := r.plan, Run(store, r).answer;
      var blocked := Blocked(Opened(store, r.threshold), r.Key());
      var polls := p.entryPolls + 1 + p.workerPolls + if p.worker.Finished? then 2 else 1;
      var enters := p.entryPolls == 0 || p.entryPolls <= p.cancelAt;
      && (a == NoAnswer(false) <==>
            (enters && p.entryRefused)
            || (!p.entryRefused && p.entryPolls < p.cancelAt && !blocked
                && p.write.ioFails && polls + p.write.extraPolls + 1 <= p.cancelAt))
      && (a.AnsweredBlocked? <==> !p.entryRefused && p.entryPolls < p.cancelAt && blocked)
      && (a.AnsweredSuccess? || a.AnsweredFailure? <==>
            !p.entryRefused && !blocked && !p.write.ioFails && polls + p.write.extraPolls + 2 <= p.cancelAt)
      && (a.AnsweredSuccess? ==> p.worker == Finished(a.report))
      && (a.AnsweredFailure? ==> p.worker.Failed?)
      && (a.AnsweredBlocked? ==> a.entry == Opened(store, r.threshold).entries[r.Key()])
  {
    hide CacheKey, WorkerFailure, WithFailure, WithSuccess;
  }

  /** The token ran out exactly between the rename and the poll that follows it. */
  predicate CancelledAfterRename(p: Plan) {
    && ReachesDecision(p) && !p.write.ioFails
    && p.cancelAt == PollsBeforeWrite(p) + p.write.PollsBeforeRename()
  }

  /** A run without an answer leaves the store as it was, except in one case: a
      launched worker whose run is cancelled between the rename and the last poll
      has already recorded its result. */
  lemma UnansweredRunStore(store: Option<Quarantine>, r: Request)
    requires Run(store, r).answer.NoAnswer?
    ensures Run(store, r).store ==
            if !Blocked(Opened(store, r.threshold), r.Key()) && CancelledAfterRename(r.plan)
            then Some(Recorded(Opened(store, r.threshold), r)) else store
  {
  }

  /** For a failing worker that is exactly when a cancelled run changes the store. */
  lemma CancelledFailureStore(store: Option<Quarantine>, r: Request)
    requires WellFormedStore(store) && r.threshold <= U32_MAX
    requires r.plan.worker.Failed? && Run(store, r).answer == NoAnswer(true)
    ensures Run(store, r).store != store <==>
            !Blocked(Opened(store, r.threshold), r.Key()) && CancelledAfterRename(r.plan)
  {
    UnansweredRunStore(store, r);
    var q := Opened(store, r.threshold);
    if Run(store, r).launched {
      assert Failures(Recorded(q, r), r.Key()) == Failures(q, r.Key()) + 1;
    }
  }

  lemma CancelledRunCanPersist() returns (r: Request)
    ensures Run(None, r).answer == NoAnswer(true) && Run(None, r).store != None
  {
    r := Request("/a.pdf", Fingerprint(1, 1, None), 2, Plan(4, 0, false, 0, Failed("crash"), WritePlan(1, false)));
  }

  // ----- Any sequence of runs -----

  function RunAll(store: Option<Quarantine>, rs: seq<Request>): Option<Quarantine>
    decreases |rs|
  {
    if rs == [] then store else RunAll(Run(store, rs[0]).store, rs[1..])
  }

  function StoredFailures(store: Option<Quarantine>, key: string): nat {
    if store.Some? then Failures(store.value, key) else 0
  }

  /** The simple form the store is meant to implement: a counter of the failures
      recorded since the last recorded success of that key. */
  function Streak(n: nat, store: Option<Quarantine>, rs: seq<Request>, key: string): nat
    decreases |rs|
  {
    if rs == [] then n
    else
      var r, res := rs[0], Run(store, rs[0]);
      var next :=
        if r.Key() != key || !res.launched || !Persists(r.plan) then n
        else if r.plan.worker.Finished? then 0
        else n + 1;
      Streak(next, res.store, rs[1..], key)
  }

  predicate SmallThresholds(rs: seq<Request>) {
    forall i :: 0 <= i < |rs| ==> rs[i].threshold <= U32_MAX
  }

  lemma StreakStep(store: Option<Quarantine>, r: Request, key: string)
    requires WellFormedStore(store) && r.threshold <= U32_MAX
    ensures WellFormedStore(Run(store, r).store)
    ensures StoredFailures(Run(store, r).store, key) ==
            if r.Key() != key || !Run(store, r).launched || !Persists(r.plan) then StoredFailures(store, key)
            else if r.plan.worker.Finished? then 0
            else StoredFailures(store, key) + 1
  {
  }

  /** Over any sequence of runs, with any cancellations and refusals, the store
      holds for every key exactly its streak of recorded failures. */
  lemma {:induction false} StoreCountsStreaks(store: Option<Quarantine>, rs: seq<Request>, key: string)
    requires WellFormedStore(store) && SmallThresholds(rs)
    ensures WellFormedStore(RunAll(store, rs))
    ensures StoredFailures(RunAll(store, rs), key) == Streak(StoredFailures(store, key), store, rs, key)
    decreases |rs|
  {
    if rs != [] {
      StreakStep(store, rs[0], key);
      StoreCountsStreaks(Run(store, rs[0]).store, rs[1..], key);
    }
  }

  /** The threshold of a store never changes, whatever later callers pass. */
  lemma {:induction false} StoredThresholdIsFixed(store: Option<Quarantine>, rs: seq<Request>)
    requires store.Some?
    ensures RunAll(store, rs).Some? && RunAll(store, rs).value.threshold == store.value.threshold
    decreases |rs|
  {
    if rs != [] {
      StoredThresholdIsFixed(Run(store, rs[0]).store, rs[1..]);
    }
  }

  /** A caller that asks for five failures is refused after one, because the store
      was created for one. */
  lemma StoredThresholdWins() returns (store: Option<Quarantine>, r: Request)
    ensures WellFormedStore(store) && r.threshold == 5 && StoredFailures(store, r.Key()) == 1
    ensures Run(store, r).answer.AnsweredBlocked?
  {
    r := Request("/a.pdf", Fingerprint(1, 1, None), 5, Plan(9, 0, false, 0, Finished("text"), WritePlan(0, false)));
    hide CacheKey;
    store := Some(Quarantine(1, map[r.Key() := Entry("/a.pdf", r.Key(), Crash, "worker-crash", 1)]));
  }

  /** Hence a run that reaches its decision is blocked exactly when the streak of
      its key has reached the threshold in force. */
  lemma BlockedIffStreak(store: Option<Quarantine>, rs: seq<Request>, r: Request)
    requires WellFormedStore(store) && SmallThresholds(rs) && r.threshold <= U32_MAX
    requires ReachesDecision(r.plan)
    ensures Run(RunAll(store, rs), r).answer.AnsweredBlocked? <==>
            Streak(StoredFailures(store, r.Key()), store, rs, r.Key())
            >= Opened(RunAll(store, rs), r.threshold).threshold
  {
    StoreCountsStreaks(store, rs, r.Key());
  }

  function Launches(store: Option<Quarantine>, rs: seq<Request>): nat
    decreases |rs|
  {
    if rs == [] then 0
    else (if Run(store, rs[0]).launched then 1 else 0) + Launches(Run(store, rs[0]).store, rs[1..])
  }

  predicate FailsUndisturbed(r: Request) {
    r.plan.worker.Failed? && Persists(r.plan)
  }

  /** One file failing again and again, undisturbed, with one threshold: the
      worker is launched until the count reaches the threshold and never after. */
  lemma {:induction false} RepeatedFailures(store: Option<Quarantine>, rs: seq<Request>, key: string, threshold: nat)
    requires WellFormedStore(store) && threshold <= U32_MAX
    requires forall i :: 0 <= i < |rs| ==> rs[i].Key() == key && rs[i].threshold == threshold && FailsUndisturbed(rs[i])
    ensures
      var n, t := StoredFailures(store, key), Opened(store, threshold).threshold;
      var left := if n < t then t - n else 0;
      && Launches(store, rs) == Min(|rs|, left)
      && StoredFailures(RunAll(store, rs), key) == n + Min(|rs|, left)
    decreases |rs|
  {
    if rs != [] {
      var r, res := rs[0], Run(store, rs[0]);
      StreakStep(store, r, key);
      RepeatedFailures(res.store, rs[1..], key, threshold);
      assert Opened(res.store, threshold).threshold == Opened(store, threshold).threshold;
    }
  }

  /** From no store at all, the caller's threshold is in force, one at the least: a
      first failure is answered as blocking exactly if it is one, and a file that
      keeps failing is launched that often. */
  lemma {:induction false} FromNoStore(rs: seq<Request>, key: string, threshold: nat)
    requires threshold <= U32_MAX
    requires forall i :: 0 <= i < |rs| ==> rs[i].Key() == key && rs[i].threshold == threshold && FailsUndisturbed(rs[i])
    ensures var t := if threshold > 1 then threshold else 1;
            && Launches(None, rs) == Min(|rs|, t)
            && StoredFailures(RunAll(None, rs), key) == Min(|rs|, t)
            && (rs != [] ==> RunAll(None, rs).Some? && RunAll(None, rs).value.threshold == t)
  {
    RepeatedFailures(None, rs, key, threshold);
    if rs != [] {
      FirstRun(rs[0]);
      StoredThresholdIsFixed(Run(None, rs[0]).store, rs[1..]);
    }
  }

  /** A first run that reaches its decision launches the worker whatever the threshold;
      if it persists, the new store has the caller's threshold, and it holds one
      failure or nothing. */
  lemma FirstRun(r: Request)
    requires r.threshold <= U32_MAX && ReachesDecision(r.plan)
    ensures var res, t := Run(None, r), if r.threshold > 1 then r.threshold else 1;
            && res.launched
            && (!Persists(r.plan) ==> res.store == None)
            && (Persists(r.plan) ==>
                  && res.store.Some? && res.store.value.threshold == t
                  && res.store.value.entries.Keys == (if r.plan.worker.Failed? then {r.Key()} else {})
                  && StoredFailures(res.store, r.Key()) == if r.plan.worker.Failed? then 1 else 0)
            && (res.answer.AnsweredFailure? ==> (res.answer.blocked.Some? <==> t == 1))
  {
    hide CacheKey, WorkerFailure;
  }

  /** A changed file starts afresh: runs on one fingerprint never count against
      another fingerprint of the same path. */
  lemma {:induction false} ChangedFileIsNotCounted(store: Option<Quarantine>, rs: seq<Request>, path: string,
                                                   f: Fingerprint, f': Fingerprint)
    requires WellFormedStore(store) && SmallThresholds(rs) && f != f'
    requires forall i :: 0 <= i < |rs| ==> rs[i].path == path && rs[i].fingerprint == f
    ensures StoredFailures(RunAll(store, rs), CacheKey(path, f')) == StoredFailures(store, CacheKey(path, f'))
    decreases |rs|
  {
    if rs != [] {
      CacheKeyInjective(path, f, path, f');
      StreakStep(store, rs[0], CacheKey(path, f'));
      ChangedFileIsNotCounted(Run(store, rs[0]).store, rs[1..], path, f, f');
    }
  }

  /** Every store a sequence of runs can leave is read back from its text as the
      value the next run starts from. */
  lemma ReachableStoreReadsBack(store: Option<Quarantine>, rs: seq<Request>, order: seq<string>)
    requires WellFormedStore(store) && SmallThresholds(rs)
    requires RunAll(store, rs).Some? && Lists(order, RunAll(store, rs).value.entries.Keys)
    ensures ReadQuarantine(QuarantineText(RunAll(store, rs).value, order)) == Ok(RunAll(store, rs).value)
  {
    StoreCountsStreaks(store, rs, "");
    QuarantineRoundTrip(RunAll(store, rs).value, order);
  }

  // ----- The reasons that are stored -----

  const LONGEST_PREFIX: nat := 24

  /** One line, and of bounded size. */
  predicate BoundedReason(reason: string) {
    && |Encode(reason)| <= LONGEST_PREFIX + 2 + 4096
    && forall i :: 0 <= i < |reason| ==> !IsControl(reason[i])
  }

  predicate BoundedReasons(store: Option<Quarantine>) {
    store.Some? ==> forall k :: k in store.value.entries ==> BoundedReason(store.value.entries[k].reason)
  }

  predicate PlainPrefix(prefix: string) {
    |prefix| <= LONGEST_PREFIX && forall i :: 0 <= i < |prefix| ==> 0x20 <= prefix[i] as int < 0x7F
  }

  lemma PlainPrefixReason(prefix: string, message: string)
    requires PlainPrefix(prefix)
    ensures BoundedReason(FailureReason(prefix, message)) && BoundedReason(prefix)
  {
    EncodeAscii(prefix);
    FailureReasonPromises(prefix, message);
  }

  lemma PrefixesArePlain()
    ensures PlainPrefix("worker-timeout") && PlainPrefix("worker-encrypted") && PlainPrefix("worker-corrupt")
    ensures PlainPrefix("worker-sandbox-violation") && PlainPrefix("worker-crash")
  {
  }

  lemma WorkerFailureIsBounded(message: string)
    ensures BoundedReason(WorkerFailure(message).1)
  {
    hide Encode, FailureReason, BoundedReason, Contains, Lower;
    PrefixesArePlain();
    hide PlainPrefix;
    PlainPrefixReason("worker-timeout", message);
    PlainPrefixReason("worker-encrypted", message);
    PlainPrefixReason("worker-corrupt", message);
    PlainPrefixReason("worker-sandbox-violation", message);
    PlainPrefixReason("worker-crash", message);
  }

  /** Whatever the workers print, no run ever stores a reason that is longer than
      its budget or that breaks its line. */
  lemma {:induction false} StoredReasonsStayBounded(store: Option<Quarantine>, rs: seq<Request>)
    requires BoundedReasons(store)
    ensures BoundedReasons(RunAll(store, rs))
    decreases |rs|
  {
    if rs != [] {
      var r := rs[0];
      if r.plan.worker.Failed? {
        WorkerFailureIsBounded(r.plan.worker.message);
      }
      hide WorkerFailure, BoundedReason;
      assert BoundedReasons(Run(store, r).store);
      StoredReasonsStayBounded(Run(store, r).store, rs[1..]);
    }
  }
}
