// What any sequence of OCR runs leaves in the two stores: how the pair can
// change in one run, what a settled run does to every key, and how often a
// candidate can reach the recognizer.
module OcrRuns {
  import opened Numbers
  import opened Text
  import opened Fingerprint
  import opened Control
  import opened OcrRecognition
  import opened OcrWorker

  /** What the two stores say about one key. */
  datatype KeyState = KeyState(recognition: Option<Recognition>, failure: Option<FailureEntry>)

  function StateOf(cache: Cache, q: Quarantine, key: string): KeyState {
    KeyState(Lookup(cache, key), Lookup(q.entries, key))
  }

  function DiskState(d: Disk, key: string): KeyState {
    StateOf(OpenCache(d), OpenQuarantine(d), key)
  }

  predicate BlockedState(k: KeyState, threshold: nat) {
    k.failure.Some? && k.failure.value.failures >= threshold
  }

  predicate ReachesRecognizer(k: KeyState, threshold: nat) {
    k.recognition.None? && !BlockedState(k, threshold)
  }

  /** The plain form of a settled run, one key at a time: a cached candidate loses
      its failure entry, a blocked one stays as it is, and an attempted one is
      either cached or gains one failure. */
  function Settled(k: KeyState, threshold: nat, c: OcrCandidate, r: Report): KeyState {
    if k.recognition.Some? then KeyState(k.recognition, None)
    else if BlockedState(k, threshold) then k
    else if r.status == Recognized then KeyState(Some(Recognition(c, r.text)), None)
    else KeyState(None, Some(FailedEntry(k.failure, c, r)))
  }

  predicate Distinct(queue: seq<OcrCandidate>) {
    forall i, j :: 0 <= i < j < |queue| ==> queue[i] != queue[j]
  }

  // ----- Cancellation inside a recognition -----

  predicate CutIsDead(s: Sweep, p: Plan) {
    s.cut ==> s.polls > p.cancelAt
  }

  lemma {:induction false} CutStaysDead(s: Sweep, queue: seq<OcrCandidate>, p: Plan)
    requires CutIsDead(s, p) && SweepFrom(s, queue, p).Next?
    ensures CutIsDead(SweepFrom(s, queue, p).state, p)
    ensures s.cut ==> SweepFrom(s, queue, p).state.cut
    decreases |queue|
  {
    if queue != [] {
      CutStaysDead(Step(s, queue[0], p).state, queue[1..], p);
    }
  }

  predicate Swept(d: Disk, queue: seq<OcrCandidate>, p: Plan) {
    Entered(p) && SweepFrom(Opened(d, p), queue, p).Next?
  }

  function SweptState(d: Disk, queue: seq<OcrCandidate>, p: Plan): Sweep
    requires Swept(d, queue, p)
  {
    SweepFrom(Opened(d, p), queue, p).state
  }

  /** The run replaced the quarantine file. */
  predicate Settles(d: Disk, queue: seq<OcrCandidate>, p: Plan) {
    Swept(d, queue, p) && QuarantineLands(SweptState(d, queue, p), p)
  }

  /** Whatever stops a run and wherever, it leaves the pair of stores as old/old,
      new/old or new/new; a completed run leaves new/new; and a run in which a
      recognition was cut short by the token, which the PDF path reports as an
      ordinary failure, leaves both stores untouched. */
  lemma StorePairs(d: Disk, queue: seq<OcrCandidate>, p: Plan)
    ensures
      var r := Run(d, queue, p);
      && (r.disk == d || (Swept(d, queue, p) &&
           var s := SweptState(d, queue, p);
           && !s.cut && r.disk.cache == Some(s.cache)
           && (r.disk.quarantine == d.quarantine || r.disk.quarantine == Some(s.quarantine))))
      && (r.completed.Some? ==>
            Settles(d, queue, p)
            && r.disk == Disk(Some(SweptState(d, queue, p).cache), Some(SweptState(d, queue, p).quarantine)))
      && (Swept(d, queue, p) && SweptState(d, queue, p).cut ==> r.disk == d && r.completed.None?)
  {
    if Swept(d, queue, p) {
      CutStaysDead(Opened(d, p), queue, p);
    }
  }

  // ----- A sweep, key by key -----

  lemma StepByKey(s: Sweep, c: OcrCandidate, p: Plan)
    requires Step(s, c, p).Next? && !Step(s, c, p).state.cut
    ensures
      var t := Step(s, c, p).state;
      && t.quarantine.threshold == s.quarantine.threshold
      && StateOf(t.cache, t.quarantine, QueueKey(c)) ==
         Settled(StateOf(s.cache, s.quarantine, QueueKey(c)), s.quarantine.threshold, c, PlainReport(c, p.attempts(c)))
      && (forall k :: k != QueueKey(c) ==> StateOf(t.cache, t.quarantine, k) == StateOf(s.cache, s.quarantine, k))
      && t.attempted == s.attempted +
         if ReachesRecognizer(StateOf(s.cache, s.quarantine, QueueKey(c)), s.quarantine.threshold) then [c] else []
  {
  }

  /** The candidates of a queue that a sweep attempts. */
  function AttemptedOf(cache: Cache, q: Quarantine, queue: seq<OcrCandidate>): seq<OcrCandidate> {
    if queue == [] then []
    else (if ReachesRecognizer(StateOf(cache, q, QueueKey(queue[0])), q.threshold) then [queue[0]] else [])
         + AttemptedOf(cache, q, queue[1..])
  }

  lemma {:induction false} AttemptedOfDependsOnKeys(cache: Cache, q: Quarantine, cache': Cache, q': Quarantine,
                                                    queue: seq<OcrCandidate>)
    requires q.threshold == q'.threshold
    requires forall c :: c in queue ==> StateOf(cache, q, QueueKey(c)) == StateOf(cache', q', QueueKey(c))
    ensures AttemptedOf(cache, q, queue) == AttemptedOf(cache', q', queue)
  {
    if queue != [] {
      assert queue[0] in queue;
      AttemptedOfDependsOnKeys(cache, q, cache', q', queue[1..]);
    }
  }

  /** What a sweep of a queue does to the two stores, key by key. */
  ghost predicate SweptByKey(s: Sweep, t: Sweep, queue: seq<OcrCandidate>, p: Plan) {
    && t.quarantine.threshold == s.quarantine.threshold
    && (forall c :: c in queue ==>
          StateOf(t.cache, t.quarantine, QueueKey(c)) ==
          Settled(StateOf(s.cache, s.quarantine, QueueKey(c)), s.quarantine.threshold, c,
              PlainReport(c, p.attempts(c))))
    && (forall k :: (forall c :: c in queue ==> QueueKey(c) != k) ==>
          StateOf(t.cache, t.quarantine, k) == StateOf(s.cache, s.quarantine, k))
    && t.attempted == s.attempted + AttemptedOf(s.cache, s.quarantine, queue)
  }

  lemma OtherKeys(queue: seq<OcrCandidate>)
    requires Distinct(queue) && queue != []
    ensures Distinct(queue[1..])
    ensures forall e :: e in queue[1..] ==> QueueKey(e) != QueueKey(queue[0])
    ensures forall e :: e in queue <==> e == queue[0] || e in queue[1..]
  {
    hide QueueKey;
    forall e | e in queue[1..] ensures QueueKey(e) != QueueKey(queue[0]) {
      QueueKeyInjective(e, queue[0]);
      var j :| 0 <= j < |queue[1..]| && queue[1..][j] == e;
      assert queue[j + 1] == e;
    }
  }

  lemma SweptByKeyCons(s: Sweep, u: Sweep, t: Sweep, queue: seq<OcrCandidate>, p: Plan)
    requires queue != [] && Distinct(queue)
    requires Step(s, queue[0], p) == Next(u) && !u.cut && SweptByKey(u, t, queue[1..], p)
    ensures SweptByKey(s, t, queue, p)
  {
    hide Step, QueueKey, Settled, PlainReport, StateOf;
    var c, rest := queue[0], queue[1..];
    StepByKey(s, c, p);
    OtherKeys(queue);
    AttemptedOfDependsOnKeys(s.cache, s.quarantine, u.cache, u.quarantine, rest);
  }

  lemma {:induction false} SweepByKey(s: Sweep, queue: seq<OcrCandidate>, p: Plan)
    requires Distinct(queue)
    requires SweepFrom(s, queue, p).Next? && !SweepFrom(s, queue, p).state.cut && CutIsDead(s, p)
    ensures SweptByKey(s, SweepFrom(s, queue, p).state, queue, p)
    decreases |queue|
  {
    if queue != [] {
      var u := Step(s, queue[0], p).state;
      CutStaysDead(u, queue[1..], p);
      hide Step, SweptByKey, CutIsDead;
      OtherKeys(queue);
      SweepByKey(u, queue[1..], p);
      SweptByKeyCons(s, u, SweepFrom(s, queue, p).state, queue, p);
    }
  }

  // ----- One settled run -----

  /** A settled run is its plain form on every queued key and leaves every other
      key alone; the attempted candidates are exactly those that were neither
      cached nor blocked. */
  lemma SettledRunByKey(d: Disk, queue: seq<OcrCandidate>, p: Plan)
    requires Distinct(queue) && Settles(d, queue, p)
    ensures
      var r, t := Run(d, queue, p), OpenQuarantine(d).threshold;
      && OpenQuarantine(r.disk).threshold == t
      && (forall c :: c in queue ==>
            DiskState(r.disk, QueueKey(c)) == Settled(DiskState(d, QueueKey(c)), t, c, PlainReport(c, p.attempts(c))))
      && (forall k :: (forall c :: c in queue ==> QueueKey(c) != k) ==> DiskState(r.disk, k) == DiskState(d, k))
      && r.attempted == AttemptedOf(OpenCache(d), OpenQuarantine(d), queue)
  {
    CutStaysDead(Opened(d, p), queue, p);
    SweepByKey(Opened(d, p), queue, p);
  }

  /** The candidate is cached with this text and has no failure. */
  predicate CachedAs(after: KeyState, c: OcrCandidate, text: string) {
    after == KeyState(Some(Recognition(c, text)), None)
  }

  /** The candidate is not cached and has one failure more, of this kind and reason. */
  predicate FailsAs(before: KeyState, after: KeyState, c: OcrCandidate, kind: Status, reason: string) {
    var had := if before.failure.Some? then before.failure.value.failures else 0;
    && after.recognition == None && after.failure.Some?
    && after.failure.value.kind == kind && after.failure.value.reason == reason
    && after.failure.value.candidate == (if before.failure.Some? then before.failure.value.candidate else c)
    && after.failure.value.failures == (if had < 0xFFFF_FFFF then had + 1 else 0xFFFF_FFFF)
  }

  predicate ReportedAs(before: KeyState, after: KeyState, c: OcrCandidate, r: Report) {
    if r.status == Recognized then CachedAs(after, c, r.text)
    else FailsAs(before, after, c, r.status, if r.reason.Some? then r.reason.value else r.status.Name())
  }

  /** What becomes of a queued candidate, from the stores before the run and from what
      its attempt meets: a cached one loses its failure and a blocked one stays as it is;
      a file that is gone fails as missing with the message of the file system; a
      screenshot is cached or fails as its one report says, and a PDF as its pages do. */
  ghost predicate ComesOut(before: KeyState, after: KeyState, threshold: nat, c: OcrCandidate, a: Attempt) {
    if before.recognition.Some? then after == KeyState(before.recognition, None)
    else if before.failure.Some? && before.failure.value.failures >= threshold then after == before
    else exists r :: Meets(c, a, r) && ReportedAs(before, after, c, r)
  }

  /** What an attempt that no poll cuts short reports. */
  ghost predicate Meets(c: OcrCandidate, a: Attempt, r: Report) {
    if a.access.NotFound? then r == Report("", [], Missing, Some(a.access.message))
    else if c.kind == ScreenshotImage then r == a.image
    else PdfOutcome(a.raster, r)
  }

  lemma PlainReportMeets(c: OcrCandidate, a: Attempt)
    ensures Meets(c, a, PlainReport(c, a))
  {
    hide PdfOutcome, RasterReport;
    RasterReportIs(a.raster);
  }

  lemma SettledComesOut(before: KeyState, threshold: nat, c: OcrCandidate, a: Attempt)
    ensures ComesOut(before, Settled(before, threshold, c, PlainReport(c, a)), threshold, c, a)
  {
    hide Meets, PlainReport, Status.Name;
    PlainReportMeets(c, a);
  }

  lemma SettledOutcome(d: Disk, queue: seq<OcrCandidate>, p: Plan, c: OcrCandidate)
    requires Distinct(queue) && Settles(d, queue, p) && c in queue
    ensures ComesOut(DiskState(d, QueueKey(c)), DiskState(Run(d, queue, p).disk, QueueKey(c)),
                     OpenQuarantine(d).threshold, c, p.attempts(c))
  {
    SettledRunByKey(d, queue, p);
    hide Run, Settles, QueueKey, DiskState, ComesOut;
    SettledComesOut(DiskState(d, QueueKey(c)), OpenQuarantine(d).threshold, c, p.attempts(c));
  }

  /** The polls one candidate can ask for, and a whole queue. */
  function PollsOf(c: OcrCandidate, p: Plan): nat {
    1 + p.attempts(c).accessPolls + |p.attempts(c).raster.pages|
  }

  function PollsOfQueue(queue: seq<OcrCandidate>, p: Plan): nat {
    if queue == [] then 0 else PollsOf(queue[0], p) + PollsOfQueue(queue[1..], p)
  }

  lemma StepGoes(s: Sweep, c: OcrCandidate, p: Plan)
    requires s.polls + PollsOf(c, p) <= p.cancelAt && !s.cut && p.attempts(c).access != Denied
    ensures Step(s, c, p).Next? && !Step(s, c, p).state.cut
    ensures Step(s, c, p).state.polls <= s.polls + PollsOf(c, p)
  {
    hide QueueKey, PlainReport, Counted, FailedEntry;
  }

  lemma {:induction false} SweepGoes(s: Sweep, queue: seq<OcrCandidate>, p: Plan)
    requires s.polls + PollsOfQueue(queue, p) <= p.cancelAt && !s.cut
    requires forall c :: c in queue ==> p.attempts(c).access != Denied
    ensures SweepFrom(s, queue, p).Next? && !SweepFrom(s, queue, p).state.cut
    ensures SweepFrom(s, queue, p).state.polls <= s.polls + PollsOfQueue(queue, p)
    decreases |queue|
  {
    if queue != [] {
      hide Step, PollsOf;
      assert queue[0] in queue;
      StepGoes(s, queue[0], p);
      SweepGoes(Step(s, queue[0], p).state, queue[1..], p);
    }
  }

  /** The run refuses nothing of its own. */
  predicate Unrefused(p: Plan) {
    && !p.entryRefused && !p.beforeCache.refused && !p.beforeQuarantine.refused && !p.atEnd.refused
    && !p.cacheWrite.ioFails && !p.quarantineWrite.ioFails
  }

  /** A run that nothing refuses and whose token lasts for all its polls completes,
      whatever its queue and its stores hold and whatever the recognizer reports. */
  lemma UndisturbedRunCompletes(d: Disk, queue: seq<OcrCandidate>, p: Plan)
    requires Unrefused(p) && forall c :: c in queue ==> p.attempts(c).access != Denied
    requires p.entryPolls + PollsOfQueue(queue, p) + p.beforeCache.extraPolls + p.cacheWrite.extraPolls
             + p.beforeQuarantine.extraPolls + p.quarantineWrite.extraPolls + p.atEnd.extraPolls + 7 <= p.cancelAt
    ensures Run(d, queue, p).completed.Some?
  {
    SweepGoes(Opened(d, p), queue, p);
    hide SweepFrom, PollsOfQueue;
  }

  /** How far a run gets, by its refusals and by how many polls pass: the cache is replaced,
      then the quarantine, and then the run completes; each needs more of both. */
  lemma RunGetsAsFarAs(d: Disk, queue: seq<OcrCandidate>, p: Plan)
    requires Swept(d, queue, p)
    ensures
      var r, s := Run(d, queue, p), SweptState(d, queue, p);
      var toCache := s.polls + p.beforeCache.extraPolls + p.cacheWrite.extraPolls + 2;
      var toQuarantine := toCache + p.beforeQuarantine.extraPolls + p.quarantineWrite.extraPolls + 3;
      var cacheLands := !p.beforeCache.refused && !p.cacheWrite.ioFails && toCache <= p.cancelAt;
      var quarantineLands :=
        cacheLands && !p.beforeQuarantine.refused && !p.quarantineWrite.ioFails && toQuarantine <= p.cancelAt;
      && !p.entryRefused
      && r.disk.cache == (if cacheLands then Some(s.cache) else d.cache)
      && r.disk.quarantine == (if quarantineLands then Some(s.quarantine) else d.quarantine)
      && (r.completed == Some((s.rows, s.counts)) <==>
            quarantineLands && !p.atEnd.refused && toQuarantine + p.atEnd.extraPolls + 2 <= p.cancelAt)
      && (r.completed == None || r.completed == Some((s.rows, s.counts)))
  {
    hide SweepFrom;
  }

  /** After a completed run no queued candidate is both cached and quarantined,
      even when the starting stores were left by a run stopped between the writes. */
  lemma CompletedRunSeparates(d: Disk, queue: seq<OcrCandidate>, p: Plan, c: OcrCandidate)
    requires Distinct(queue) && c in queue && Run(d, queue, p).completed.Some?
    ensures var k := DiskState(Run(d, queue, p).disk, QueueKey(c)); k.recognition.None? || k.failure.None?
  {
    hide Run, Settles, QueueKey, PlainReport, DiskState;
    assert Settles(d, queue, p) by {
      StorePairs(d, queue, p);
    }
    SettledRunByKey(d, queue, p);
  }

  // ----- The cache only grows -----

  lemma StepKeepsCache(s: Sweep, c: OcrCandidate, p: Plan)
    requires Step(s, c, p).Next?
    ensures forall k :: k in s.cache ==> k in Step(s, c, p).state.cache && Step(s, c, p).state.cache[k] == s.cache[k]
  {
    hide QueueKey, PlainReport, Passes;
  }

  lemma {:induction false} SweepKeepsCache(s: Sweep, queue: seq<OcrCandidate>, p: Plan)
    requires SweepFrom(s, queue, p).Next?
    ensures forall k :: k in s.cache ==>
              k in SweepFrom(s, queue, p).state.cache && SweepFrom(s, queue, p).state.cache[k] == s.cache[k]
    decreases |queue|
  {
    hide Step;
    if queue != [] {
      StepKeepsCache(s, queue[0], p);
      SweepKeepsCache(Step(s, queue[0], p).state, queue[1..], p);
    }
  }

  /** No run, completed or not, loses or alters a recognition. */
  lemma CacheGrows(d: Disk, queue: seq<OcrCandidate>, p: Plan)
    ensures forall k :: k in OpenCache(d) ==>
              k in OpenCache(Run(d, queue, p).disk) && OpenCache(Run(d, queue, p).disk)[k] == OpenCache(d)[k]
  {
    if Swept(d, queue, p) {
      SweepKeepsCache(Opened(d, p), queue, p);
    }
  }

  lemma StepSkipsCached(s: Sweep, e: OcrCandidate, p: Plan, c: OcrCandidate)
    requires QueueKey(c) in s.cache && c !in s.attempted
    ensures match Step(s, e, p)
            case Stop(_, attempted) => c !in attempted
            case Next(t) => QueueKey(c) in t.cache && c !in t.attempted
  {
    hide QueueKey, PlainReport, Passes;
  }

  lemma {:induction false} SweepSkipsCached(s: Sweep, queue: seq<OcrCandidate>, p: Plan, c: OcrCandidate)
    requires QueueKey(c) in s.cache && c !in s.attempted
    ensures match SweepFrom(s, queue, p)
            case Stop(_, attempted) => c !in attempted
            case Next(t) => c !in t.attempted
    decreases |queue|
  {
    hide Step;
    if queue != [] {
      StepSkipsCached(s, queue[0], p, c);
    }
    if queue != [] && Step(s, queue[0], p).Next? {
      SweepSkipsCached(Step(s, queue[0], p).state, queue[1..], p, c);
    }
  }

  datatype Request = Request(queue: seq<OcrCandidate>, plan: Plan)

  function RunAll(d: Disk, rs: seq<Request>): Disk
    decreases |rs|
  {
    if rs == [] then d else RunAll(Run(d, rs[0].queue, rs[0].plan).disk, rs[1..])
  }

  /** Once cached, a candidate never reaches the recognizer again, in any later
      run, whether that run completes or not. */
  lemma {:induction false} CachedNeverAttempted(d: Disk, rs: seq<Request>, r: Request, c: OcrCandidate)
    requires QueueKey(c) in OpenCache(d)
    ensures c !in Run(RunAll(d, rs), r.queue, r.plan).attempted
    decreases |rs|
  {
    if rs == [] {
      SweepSkipsCached(Opened(d, r.plan), r.queue, r.plan, c);
    } else {
      CacheGrows(d, rs[0].queue, rs[0].plan);
      CachedNeverAttempted(Run(d, rs[0].queue, rs[0].plan).disk, rs[1..], r, c);
    }
  }

  // ----- How often a candidate is attempted -----

  predicate WellFormedDisk(d: Disk) {
    1 <= OpenQuarantine(d).threshold <= U32_MAX
  }

  /** The attempts a candidate has left: none once cached, otherwise what its
      recorded failures leave of the threshold. */
  function Budget(d: Disk, c: OcrCandidate): nat {
    var k, t := DiskState(d, QueueKey(c)), OpenQuarantine(d).threshold;
    if k.recognition.Some? then 0
    else if k.failure.None? then t
    else if k.failure.value.failures >= t then 0
    else t - k.failure.value.failures
  }

  lemma {:induction false} AttemptedIffReaches(cache: Cache, q: Quarantine, queue: seq<OcrCandidate>, c: OcrCandidate)
    ensures c in AttemptedOf(cache, q, queue) <==>
            c in queue && ReachesRecognizer(StateOf(cache, q, QueueKey(c)), q.threshold)
  {
    if queue != [] {
      AttemptedIffReaches(cache, q, queue[1..], c);
      assert c in queue <==> c == queue[0] || c in queue[1..];
    }
  }

  /** One run and one candidate: a settled run spends exactly one of the remaining
      attempts of a queued candidate, or all of them when it is recognized; no
      other run gives any back. */
  lemma RunSpendsBudget(d: Disk, r: Request, c: OcrCandidate)
    requires WellFormedDisk(d) && Distinct(r.queue)
    ensures
      var res := Run(d, r.queue, r.plan);
      && WellFormedDisk(res.disk) && OpenQuarantine(res.disk).threshold == OpenQuarantine(d).threshold
      && Budget(res.disk, c) <= Budget(d, c)
      && (Settles(d, r.queue, r.plan) ==>
            && (c in res.attempted <==> c in r.queue && Budget(d, c) > 0)
            && Budget(res.disk, c) ==
               if c !in res.attempted then Budget(d, c)
               else if PlainReport(c, r.plan.attempts(c)).status == Recognized then 0
               else Budget(d, c) - 1)
  {
    hide Run, Settles, QueueKey, PlainReport;
    CacheGrows(d, r.queue, r.plan);
    if Settles(d, r.queue, r.plan) {
      SettledRunByKey(d, r.queue, r.plan);
      AttemptedIffReaches(OpenCache(d), OpenQuarantine(d), r.queue, c);
      if c !in r.queue {
        forall e | e in r.queue ensures QueueKey(e) != QueueKey(c) {
          QueueKeyInjective(e, c);
        }
      }
    } else {
      UnsettledKeepsQuarantine(d, r.queue, r.plan);
    }
  }

  lemma UnsettledKeepsQuarantine(d: Disk, queue: seq<OcrCandidate>, p: Plan)
    requires !Settles(d, queue, p)
    ensures Run(d, queue, p).disk.quarantine == d.quarantine
  {
    hide SweepFrom, QuarantineLands, CacheLands;
  }

  /** How many settled runs of a sequence attempt a candidate. */
  function SettledAttempts(d: Disk, rs: seq<Request>, c: OcrCandidate): nat
    decreases |rs|
  {
    if rs == [] then 0
    else
      var r := Run(d, rs[0].queue, rs[0].plan);
      (if Settles(d, rs[0].queue, rs[0].plan) && c in r.attempted then 1 else 0) + SettledAttempts(r.disk, rs[1..], c)
  }

  /** Over any sequence of runs, some of them stopped anywhere, a candidate is
      attempted by at most as many settled runs as it had attempts left. */
  lemma {:induction false} AttemptsWithinBudget(d: Disk, rs: seq<Request>, c: OcrCandidate)
    requires WellFormedDisk(d) && forall i :: 0 <= i < |rs| ==> Distinct(rs[i].queue)
    ensures SettledAttempts(d, rs, c) + Budget(RunAll(d, rs), c) <= Budget(d, c)
    decreases |rs|
  {
    if rs != [] {
      RunSpendsBudget(d, rs[0], c);
      AttemptsWithinBudget(Run(d, rs[0].queue, rs[0].plan).disk, rs[1..], c);
    }
  }

  /** From missing stores: at most twice over all completed runs. */
  lemma {:induction false} AtMostTwice(rs: seq<Request>, c: OcrCandidate)
    requires forall i :: 0 <= i < |rs| ==> Distinct(rs[i].queue)
    ensures SettledAttempts(Disk(None, None), rs, c) <= 2
  {
    AttemptsWithinBudget(Disk(None, None), rs, c);
  }

  /** A candidate that keeps failing, queued in every run of a sequence of settled
      runs, is attempted in exactly the first runs its budget pays for. */
  lemma {:induction false} FailingCandidateAttempts(d: Disk, rs: seq<Request>, c: OcrCandidate)
    requires WellFormedDisk(d) && AllSettle(d, rs)
    requires forall i :: 0 <= i < |rs| ==>
               Distinct(rs[i].queue) && c in rs[i].queue && PlainReport(c, rs[i].plan.attempts(c)).status != Recognized
    ensures SettledAttempts(d, rs, c) == if |rs| < Budget(d, c) then |rs| else Budget(d, c)
    decreases |rs|
  {
    if rs != [] {
      RunSpendsBudget(d, rs[0], c);
      FailingCandidateAttempts(Run(d, rs[0].queue, rs[0].plan).disk, rs[1..], c);
    }
  }

  predicate AllSettle(d: Disk, rs: seq<Request>)
    decreases |rs|
  {
    rs != [] ==> Settles(d, rs[0].queue, rs[0].plan) && AllSettle(Run(d, rs[0].queue, rs[0].plan).disk, rs[1..])
  }

  // ----- The counters -----

  /** What a queued candidate is to a run: cached, blocked, attempted with one
      status, or falling: attempted, failing, and thereby reaching the threshold. */
  datatype Part = CachedPart | BlockedPart | FallingPart | StatusPart(status: Status)

  predicate Is(part: Part, k: KeyState, threshold: nat, c: OcrCandidate, r: Report) {
    match part
    case CachedPart => k.recognition.Some?
    case BlockedPart => k.recognition.None? && BlockedState(k, threshold)
    case FallingPart =>
      ReachesRecognizer(k, threshold) && r.status != Recognized && FailedEntry(k.failure, c, r).failures >= threshold
    case StatusPart(status) => ReachesRecognizer(k, threshold) && r.status == status
  }

  predicate InPart(part: Part, cache: Cache, q: Quarantine, c: OcrCandidate, p: Plan) {
    Is(part, StateOf(cache, q, QueueKey(c)), q.threshold, c, PlainReport(c, p.attempts(c)))
  }

  /** The size of a part of the queue, judged by the stores before the run. */
  function Size(part: Part, cache: Cache, q: Quarantine, queue: seq<OcrCandidate>, p: Plan): nat {
    if queue == [] then 0
    else (if InPart(part, cache, q, queue[0], p) then 1 else 0) + Size(part, cache, q, queue[1..], p)
  }

  lemma {:induction false} SizeDependsOnKeys(part: Part, cache: Cache, q: Quarantine, cache': Cache, q': Quarantine,
                                             queue: seq<OcrCandidate>, p: Plan)
    requires q.threshold == q'.threshold
    requires forall c :: c in queue ==> StateOf(cache, q, QueueKey(c)) == StateOf(cache', q', QueueKey(c))
    ensures Size(part, cache, q, queue, p) == Size(part, cache', q', queue, p)
  {
    hide Is;
    if queue != [] {
      assert queue[0] in queue;
      SizeDependsOnKeys(part, cache, q, cache', q', queue[1..], p);
    }
  }

  /** The line printed for a candidate. */
  function RowFor(k: KeyState, threshold: nat, c: OcrCandidate, r: Report): Row {
    if k.recognition.Some? then CachedRow(c.path)
    else if BlockedState(k, threshold) then BlockedRow(k.failure.value)
    else AttemptRow(c.path, r)
  }

  /** The lines of a run, judged by the stores before it. */
  function RowsOf(cache: Cache, q: Quarantine, queue: seq<OcrCandidate>, p: Plan): seq<Row> {
    if queue == [] then []
    else
      var c := queue[0];
      [RowFor(StateOf(cache, q, QueueKey(c)), q.threshold, c, PlainReport(c, p.attempts(c)))]
      + RowsOf(cache, q, queue[1..], p)
  }

  /** Line `i` says what the stores before the run knew of candidate `i`, or else what its
      attempt reported. */
  ghost predicate Tells(row: Row, k: KeyState, threshold: nat, c: OcrCandidate, a: Attempt) {
    if k.recognition.Some? then row == CachedRow(c.path)
    else if k.failure.Some? && k.failure.value.failures >= threshold then row == BlockedRow(k.failure.value)
    else exists r :: Meets(c, a, r) && row == AttemptRow(c.path, r)
  }

  lemma {:induction false} RowsTell(cache: Cache, q: Quarantine, queue: seq<OcrCandidate>, p: Plan)
    ensures |RowsOf(cache, q, queue, p)| == |queue|
    ensures forall i :: 0 <= i < |queue| ==>
              Tells(RowsOf(cache, q, queue, p)[i], StateOf(cache, q, QueueKey(queue[i])), q.threshold, queue[i],
                    p.attempts(queue[i]))
  {
    if queue != [] {
      hide Meets, PlainReport, QueueKey, StateOf, Tells;
      var c, rest := queue[0], queue[1..];
      RowTells(StateOf(cache, q, QueueKey(c)), q.threshold, c, p.attempts(c));
      RowsTell(cache, q, rest, p);
      var rows := RowsOf(cache, q, queue, p);
      assert forall i :: 0 < i < |queue| ==> queue[i] == rest[i - 1] && rows[i] == RowsOf(cache, q, rest, p)[i - 1];
    }
  }

  lemma RowTells(k: KeyState, threshold: nat, c: OcrCandidate, a: Attempt)
    ensures Tells(RowFor(k, threshold, c, PlainReport(c, a)), k, threshold, c, a)
  {
    hide Meets, PlainReport;
    PlainReportMeets(c, a);
  }

  /** The printed lines of a completed run, one per candidate in queue order. */
  lemma CompletedRows(d: Disk, queue: seq<OcrCandidate>, p: Plan)
    requires Distinct(queue) && Run(d, queue, p).completed.Some?
    ensures
      var rows := Run(d, queue, p).completed.value.0;
      && |rows| == |queue|
      && forall i :: 0 <= i < |queue| ==>
           Tells(rows[i], DiskState(d, QueueKey(queue[i])), OpenQuarantine(d).threshold, queue[i],
                 p.attempts(queue[i]))
  {
    hide Run, Tells, QueueKey;
    CompletedRunCounts(d, queue, p);
    RowsTell(OpenCache(d), OpenQuarantine(d), queue, p);
  }

  lemma {:induction false} RowsDependOnKeys(cache: Cache, q: Quarantine, cache': Cache, q': Quarantine,
                                            queue: seq<OcrCandidate>, p: Plan)
    requires q.threshold == q'.threshold
    requires forall c :: c in queue ==> StateOf(cache, q, QueueKey(c)) == StateOf(cache', q', QueueKey(c))
    ensures RowsOf(cache, q, queue, p) == RowsOf(cache', q', queue, p)
  {
    hide RowFor;
    if queue != [] {
      assert queue[0] in queue;
      RowsDependOnKeys(cache, q, cache', q', queue[1..], p);
    }
  }

  lemma {:induction false} EmptyPart(part: Part, cache: Cache, q: Quarantine, queue: seq<OcrCandidate>, p: Plan)
    ensures Size(part, cache, q, queue, p) == 0 <==> forall c :: c in queue ==> !InPart(part, cache, q, c, p)
  {
    hide InPart;
    if queue != [] {
      EmptyPart(part, cache, q, queue[1..], p);
      assert forall c :: c in queue <==> c == queue[0] || c in queue[1..];
    }
  }

  function StatusCount(n: Counters, s: Status): nat {
    if s in n.statuses then n.statuses[s] else 0
  }

  function StatusTotal(n: Counters): nat {
    StatusCount(n, Recognized) + StatusCount(n, Empty) + StatusCount(n, Missing)
    + StatusCount(n, Unsupported) + StatusCount(n, Failed) + StatusCount(n, Unavailable)
  }

  function Unit(part: Part, k: KeyState, threshold: nat, c: OcrCandidate, r: Report): nat {
    if Is(part, k, threshold, c, r) then 1 else 0
  }

  lemma OnePart(k: KeyState, t: nat, c: OcrCandidate, r: Report)
    ensures Unit(CachedPart, k, t, c, r) + Unit(BlockedPart, k, t, c, r)
            + Unit(StatusPart(Recognized), k, t, c, r) + Unit(StatusPart(Empty), k, t, c, r)
            + Unit(StatusPart(Missing), k, t, c, r) + Unit(StatusPart(Unsupported), k, t, c, r)
            + Unit(StatusPart(Failed), k, t, c, r) + Unit(StatusPart(Unavailable), k, t, c, r) == 1
  {
    hide BlockedState;
    match r.status
    case Recognized =>
    case Empty =>
    case Missing =>
    case Unsupported =>
    case Failed =>
    case Unavailable =>
  }

  lemma SizeStep(part: Part, cache: Cache, q: Quarantine, queue: seq<OcrCandidate>, p: Plan)
    requires queue != []
    ensures Size(part, cache, q, queue, p) ==
            Unit(part, StateOf(cache, q, QueueKey(queue[0])), q.threshold, queue[0],
                PlainReport(queue[0], p.attempts(queue[0])))
            + Size(part, cache, q, queue[1..], p)
  {
  }

  /** Cached, blocked and attempted candidates are the whole queue. */
  lemma {:induction false} PartsAddUp(cache: Cache, q: Quarantine, queue: seq<OcrCandidate>, p: Plan)
    ensures Size(CachedPart, cache, q, queue, p) + Size(BlockedPart, cache, q, queue, p)
            + Size(StatusPart(Recognized), cache, q, queue, p) + Size(StatusPart(Empty), cache, q, queue, p)
            + Size(StatusPart(Missing), cache, q, queue, p) + Size(StatusPart(Unsupported), cache, q, queue, p)
            + Size(StatusPart(Failed), cache, q, queue, p) + Size(StatusPart(Unavailable), cache, q, queue, p)
            == |queue|
  {
    if queue != [] {
      hide Size, Unit, StateOf, QueueKey, PlainReport;
      PartsAddUp(cache, q, queue[1..], p);
      var k, r := StateOf(cache, q, QueueKey(queue[0])), PlainReport(queue[0], p.attempts(queue[0]));
      OnePart(k, q.threshold, queue[0], r);
      forall part ensures Size(part, cache, q, queue, p) ==
                          Unit(part, k, q.threshold, queue[0], r) + Size(part, cache, q, queue[1..], p) {
        SizeStep(part, cache, q, queue, p);
      }
    }
  }

  /** What a sweep adds to every counter. */
  predicate Counts(s: Sweep, t: Sweep, queue: seq<OcrCandidate>, p: Plan) {
    && t.rows == s.rows + RowsOf(s.cache, s.quarantine, queue, p)
    && t.counts.cached == s.counts.cached + Size(CachedPart, s.cache, s.quarantine, queue, p)
    && t.counts.quarantined == s.counts.quarantined + Size(BlockedPart, s.cache, s.quarantine, queue, p)
                               + Size(FallingPart, s.cache, s.quarantine, queue, p)
    && forall st :: StatusCount(t.counts, st) ==
                    StatusCount(s.counts, st) + Size(StatusPart(st), s.cache, s.quarantine, queue, p)
  }

  lemma StepCounts(s: Sweep, c: OcrCandidate, p: Plan)
    requires Step(s, c, p).Next? && !Step(s, c, p).state.cut
    ensures
      var t := Step(s, c, p).state;
      && t.rows == s.rows + [RowFor(StateOf(s.cache, s.quarantine, QueueKey(c)), s.quarantine.threshold, c,
                                    PlainReport(c, p.attempts(c)))]
      && t.counts.cached == s.counts.cached + (if InPart(CachedPart, s.cache, s.quarantine, c, p) then 1 else 0)
      && t.counts.quarantined == s.counts.quarantined
           + (if InPart(BlockedPart, s.cache, s.quarantine, c, p) then 1 else 0)
           + (if InPart(FallingPart, s.cache, s.quarantine, c, p) then 1 else 0)
      && forall st :: StatusCount(t.counts, st) ==
                      StatusCount(s.counts, st) + if InPart(StatusPart(st), s.cache, s.quarantine, c, p) then 1 else 0
  {
    hide QueueKey, PlainReport;
  }

  lemma CountsCons(s: Sweep, u: Sweep, t: Sweep, queue: seq<OcrCandidate>, p: Plan)
    requires queue != [] && Distinct(queue)
    requires Step(s, queue[0], p) == Next(u) && !u.cut && Counts(u, t, queue[1..], p)
    ensures Counts(s, t, queue, p)
  {
    hide Step, QueueKey, Settled, PlainReport, StateOf, StatusCount, InPart, RowFor;
    var rest := queue[1..];
    StepByKey(s, queue[0], p);
    StepCounts(s, queue[0], p);
    OtherKeys(queue);
    forall part ensures Size(part, u.cache, u.quarantine, rest, p) == Size(part, s.cache, s.quarantine, rest, p) {
      SizeDependsOnKeys(part, u.cache, u.quarantine, s.cache, s.quarantine, rest, p);
    }
    RowsDependOnKeys(u.cache, u.quarantine, s.cache, s.quarantine, rest, p);
  }

  lemma {:induction false} SweepCounts(s: Sweep, queue: seq<OcrCandidate>, p: Plan)
    requires Distinct(queue)
    requires SweepFrom(s, queue, p).Next? && !SweepFrom(s, queue, p).state.cut && CutIsDead(s, p)
    ensures Counts(s, SweepFrom(s, queue, p).state, queue, p)
    decreases |queue|
  {
    if queue != [] {
      var u := Step(s, queue[0], p).state;
      CutStaysDead(u, queue[1..], p);
      hide Step, Counts, CutIsDead;
      OtherKeys(queue);
      SweepCounts(u, queue[1..], p);
      CountsCons(s, u, SweepFrom(s, queue, p).state, queue, p);
    }
  }

  /** Every line and every counter of a completed run, from the stores before it: the quarantine
      counter holds the blocked candidates and the falling ones, so the printed
      counters exceed the queue by exactly the falling ones. */
  lemma CompletedRunCounts(d: Disk, queue: seq<OcrCandidate>, p: Plan)
    requires Distinct(queue) && Run(d, queue, p).completed.Some?
    ensures
      var (rows, n) := Run(d, queue, p).completed.value;
      var cache, q := OpenCache(d), OpenQuarantine(d);
      && rows == RowsOf(cache, q, queue, p)
      && n.cached == Size(CachedPart, cache, q, queue, p)
      && n.quarantined == Size(BlockedPart, cache, q, queue, p) + Size(FallingPart, cache, q, queue, p)
      && (forall st :: StatusCount(n, st) == Size(StatusPart(st), cache, q, queue, p))
      && n.cached + n.quarantined + StatusTotal(n) == |queue| + Size(FallingPart, cache, q, queue, p)
  {
    hide SweepFrom, Size, RowsOf, CutIsDead;
    assert Settles(d, queue, p) && !SweptState(d, queue, p).cut by {
      StorePairs(d, queue, p);
    }
    assert CutIsDead(Opened(d, p), p) by {
      OpenedIsNotCut(d, p);
    }
    SweepCounts(Opened(d, p), queue, p);
    PartsAddUp(OpenCache(d), OpenQuarantine(d), queue, p);
  }

  lemma OpenedIsNotCut(d: Disk, p: Plan)
    ensures CutIsDead(Opened(d, p), p)
  {
  }

  /** The printed counters add up to the queue if and only if no queued candidate
      falls in this run. */
  lemma CountersAddUpIff(d: Disk, queue: seq<OcrCandidate>, p: Plan)
    requires Distinct(queue) && Run(d, queue, p).completed.Some?
    ensures
      var n := Run(d, queue, p).completed.value.1;
      n.cached + n.quarantined + StatusTotal(n) == |queue| <==>
      forall c :: c in queue ==> !InPart(FallingPart, OpenCache(d), OpenQuarantine(d), c, p)
  {
    hide Run, Size, StatusTotal, InPart, StatusCount;
    CompletedRunCounts(d, queue, p);
    EmptyPart(FallingPart, OpenCache(d), OpenQuarantine(d), queue, p);
  }

  /** One candidate that fails for the second time is printed twice: as failed and
      as quarantined. */
  lemma CountersCanExceed() returns (d: Disk, queue: seq<OcrCandidate>, p: Plan)
    ensures WellFormedDisk(d) && Distinct(queue) && Run(d, queue, p).completed.Some?
    ensures var n := Run(d, queue, p).completed.value.1; n.cached + n.quarantined + StatusTotal(n) == |queue| + 1
  {
    var c := OcrCandidate("/shot.png", ScreenshotImage, Fingerprint(1, 1, None));
    var failed := Report("", [], Failed, Some("no text"));
    var calm, write := Phase(0, false), WritePlan(0, false);
    d := Disk(None, Some(Quarantine(2, map[QueueKey(c) := FailureEntry(c, Failed, "no text", 1)])));
    queue := [c];
    p := Plan(100, 0, false, _ => Attempt(0, Granted, failed, Raster(Failed, None, [])),
              calm, write, calm, write, calm);
    hide QueueKey;
    assert queue[1..] == [];
    assert SweepFrom(Opened(d, p), queue, p) == Step(Opened(d, p), c, p);
    assert InPart(FallingPart, OpenCache(d), OpenQuarantine(d), c, p);
    hide InPart, Step, StatusTotal, StatusCount;
    CompletedRunCounts(d, queue, p);
    assert Size(FallingPart, OpenCache(d), OpenQuarantine(d), queue, p) == 1;
  }
}
