// The OCR worker: a queue of candidates is processed against a recognition cache
// and a failure quarantine, which are then written one after the other.
module OcrWorker {
  import opened Numbers
  import opened Text
  import opened Fingerprint
  import opened Control
  import opened OcrRecognition

  datatype Recognition = Recognition(candidate: OcrCandidate, text: string)

  datatype FailureEntry = FailureEntry(candidate: OcrCandidate, kind: Status, reason: string, failures: nat)

  type Cache = map<string, Recognition>

  datatype Quarantine = Quarantine(threshold: nat, entries: map<string, FailureEntry>)

  const DEFAULT_QUARANTINE: Quarantine := Quarantine(2, map[])

  predicate Blocked(q: Quarantine, key: string) {
    key in q.entries && q.entries[key].failures >= q.threshold
  }

  function FailedEntry(prior: Option<FailureEntry>, c: OcrCandidate, r: Report): FailureEntry {
    var entry := if prior.Some? then prior.value else FailureEntry(c, r.status, "", 0);
    entry.(kind := r.status,
           reason := if r.reason.Some? then r.reason.value else r.status.Name(),
           failures := SaturatingSucc(entry.failures))
  }

  function Lookup<T>(m: map<string, T>, key: string): Option<T> {
    if key in m then Some(m[key]) else None
  }

  // ----- One run, step by step -----

  /** Opening a candidate's file: granted, absent, or refused for another reason. */
  datatype Access = Granted | NotFound(message: string) | Denied

  /** What the surroundings do with one candidate. */
  datatype Attempt = Attempt(accessPolls: nat, access: Access, image: Report, raster: Raster)

  /** A progress report: at least one poll, and it may be refused. */
  datatype Phase = Phase(extraPolls: nat, refused: bool) {
    function Polls(): nat { extraPolls + 1 }
  }

  datatype Plan = Plan(
    cancelAt: nat, entryPolls: nat, entryRefused: bool, attempts: OcrCandidate -> Attempt,
    beforeCache: Phase, cacheWrite: WritePlan, beforeQuarantine: Phase, quarantineWrite: WritePlan, atEnd: Phase)

  datatype Row = CachedRow(path: string) | BlockedRow(entry: FailureEntry) | AttemptRow(path: string, report: Report)

  datatype Counters = Counters(cached: nat, quarantined: nat, statuses: map<Status, nat>)

  const NO_COUNTS: Counters :=
    Counters(0, 0, map[Recognized := 0, Empty := 0, Missing := 0, Unsupported := 0, Failed := 0, Unavailable := 0])

  function Counted(n: Counters, s: Status): Counters {
    n.(statuses := n.statuses[s := (if s in n.statuses then n.statuses[s] else 0) + 1])
  }

  /** The state of a run between two candidates. `cut` says that some recognition
      was stopped halfway by the token. */
  datatype Sweep = Sweep(cache: Cache, quarantine: Quarantine, counts: Counters, rows: seq<Row>,
                         attempted: seq<OcrCandidate>, polls: nat, cut: bool)

  datatype Outcome = Next(state: Sweep) | Stop(cancelled: bool, attempted: seq<OcrCandidate>)

  /** The report of an undisturbed attempt. */
  function PlainReport(c: OcrCandidate, a: Attempt): Report {
    if a.access.NotFound? then MissingReport(a.access.message)
    else if c.kind == ScreenshotImage then a.image
    else RasterReport(a.raster)
  }

  function RecognitionPolls(c: OcrCandidate, a: Attempt): nat {
    if a.access.Granted? && c.kind == ImageOnlyPdf then PagesPolled(a.raster) else 0
  }

  function WithReport(s: Sweep, c: OcrCandidate, r: Report, polls: nat, cut: bool): Sweep {
    var key := QueueKey(c);
    var counts, rows := Counted(s.counts, r.status), s.rows + [AttemptRow(c.path, r)];
    if r.status == Recognized then
      Sweep(s.cache[key := Recognition(c, r.text)], s.quarantine.(entries := s.quarantine.entries - {key}),
            counts, rows, s.attempted + [c], polls, cut)
    else
      var entry := FailedEntry(Lookup(s.quarantine.entries, key), c, r);
      var q := s.quarantine.(entries := s.quarantine.entries[key := entry]);
      Sweep(s.cache, q, if Blocked(q, key) then counts.(quarantined := counts.quarantined + 1) else counts,
            rows, s.attempted + [c], polls, cut)
  }

  lemma RecordingIgnoresPolls(s: Sweep, before: nat, c: OcrCandidate, r: Report, polls: nat, cut: bool)
    ensures WithReport(s.(polls := before), c, r, polls, cut) == WithReport(s, c, r, polls, cut)
  {
  }

  function Step(s: Sweep, c: OcrCandidate, p: Plan): Outcome {
    var key, a := QueueKey(c), p.attempts(c);
    if !Passes(s.polls, 1, p.cancelAt) then Stop(true, s.attempted)
    else if key in s.cache then
      Next(s.(quarantine := s.quarantine.(entries := s.quarantine.entries - {key}),
              counts := s.counts.(cached := s.counts.cached + 1),
              rows := s.rows + [CachedRow(c.path)], polls := s.polls + 1))
    else if Blocked(s.quarantine, key) then
      Next(s.(counts := s.counts.(quarantined := s.counts.quarantined + 1),
              rows := s.rows + [BlockedRow(s.quarantine.entries[key])], polls := s.polls + 1))
    else if !Passes(s.polls + 1, a.accessPolls, p.cancelAt) then Stop(true, s.attempted)
    else if a.access.Denied? then Stop(false, s.attempted)
    else
      var start := s.polls + 1 + a.accessPolls;
      if Passes(start, RecognitionPolls(c, a), p.cancelAt) then
        Next(WithReport(s, c, PlainReport(c, a), start + RecognitionPolls(c, a), s.cut))
      else
        Next(WithReport(s, c, CUT_SHORT, p.cancelAt + 1, true))
  }

  function SweepFrom(s: Sweep, queue: seq<OcrCandidate>, p: Plan): Outcome
    decreases |queue|
  {
    if queue == [] then Next(s)
    else
      match Step(s, queue[0], p)
      case Stop(cancelled, attempted) => Stop(cancelled, attempted)
      case Next(t) => SweepFrom(t, queue[1..], p)
  }

  // ----- One run on the two stores -----

  datatype Disk = Disk(cache: Option<Cache>, quarantine: Option<Quarantine>)

  function OpenCache(d: Disk): Cache {
    match d.cache
    case None => map[]
    case Some(c) => c
  }

  function OpenQuarantine(d: Disk): Quarantine {
    match d.quarantine
    case None => DEFAULT_QUARANTINE
    case Some(q) => q
  }

  function Opened(d: Disk, p: Plan): Sweep {
    Sweep(OpenCache(d), OpenQuarantine(d), NO_COUNTS, [], [], p.entryPolls, false)
  }

  predicate Entered(p: Plan) {
    Passes(0, p.entryPolls, p.cancelAt) && !p.entryRefused
  }

  predicate PhasePasses(polls: nat, phase: Phase, cancelAt: nat) {
    Passes(polls, phase.Polls(), cancelAt) && !phase.refused
  }

  datatype RunResult = RunResult(completed: Option<(seq<Row>, Counters)>, disk: Disk, attempted: seq<OcrCandidate>)

  predicate CacheLands(s: Sweep, p: Plan) {
    && PhasePasses(s.polls, p.beforeCache, p.cancelAt)
    && Lands(s.polls + p.beforeCache.Polls(), p.cacheWrite, p.cancelAt)
  }

  function PollsAfterCache(s: Sweep, p: Plan): nat {
    s.polls + p.beforeCache.Polls() + p.cacheWrite.PollsBeforeRename() + 1
  }

  predicate QuarantineLands(s: Sweep, p: Plan) {
    && CacheLands(s, p) && WriteSucceeds(s.polls + p.beforeCache.Polls(), p.cacheWrite, p.cancelAt)
    && PhasePasses(PollsAfterCache(s, p), p.beforeQuarantine, p.cancelAt)
    && Lands(PollsAfterCache(s, p) + p.beforeQuarantine.Polls(), p.quarantineWrite, p.cancelAt)
  }

  predicate Completes(s: Sweep, p: Plan) {
    var polls := PollsAfterCache(s, p) + p.beforeQuarantine.Polls();
    && QuarantineLands(s, p) && WriteSucceeds(polls, p.quarantineWrite, p.cancelAt)
    && PhasePasses(polls + p.quarantineWrite.PollsBeforeRename() + 1, p.atEnd, p.cancelAt)
  }

  /** The run after its sweep: the cache is written, then the quarantine. */
  function Finish(d: Disk, s: Sweep, p: Plan): RunResult {
    RunResult(if Completes(s, p) then Some((s.rows, s.counts)) else None,
              Disk(if CacheLands(s, p) then Some(s.cache) else d.cache,
                   if QuarantineLands(s, p) then Some(s.quarantine) else d.quarantine),
              s.attempted)
  }

  /** One run, as a function of the stores it starts from. */
  function Run(d: Disk, queue: seq<OcrCandidate>, p: Plan): RunResult {
    if !Entered(p) then RunResult(None, d, [])
    else
      match SweepFrom(Opened(d, p), queue, p)
      case Stop(_, attempted) => RunResult(None, d, attempted)
      case Next(s) => Finish(d, s, p)
  }

  /** The in-memory side of a run, which the candidate loop updates in place. */
  class OcrRun {
    var cache: Cache
    var quarantine: Quarantine
    var counts: Counters
    var rows: seq<Row>
    ghost var attempted: seq<OcrCandidate>
    ghost var cut: bool

    ghost function State(c: Cancellation): Sweep
      reads this, c
    {
      Sweep(cache, quarantine, counts, rows, attempted, if cut then c.cancelAt + 1 else c.polls, cut)
    }

    ghost predicate Tracks(c: Cancellation)
      reads this, c
    {
      cut ==> c.polls > c.cancelAt
    }

    constructor (cache: Cache, quarantine: Quarantine)
      ensures this.cache == cache && this.quarantine == quarantine
      ensures counts == NO_COUNTS && rows == [] && attempted == [] && !cut
    {
      this.cache, this.quarantine := cache, quarantine;
      counts, rows, attempted, cut := NO_COUNTS, [], [], false;
    }

    method RecordReport(candidate: OcrCandidate, report: Report, ghost c: Cancellation, ghost wasCut: bool)
      modifies this
      ensures State(c) == WithReport(old(State(c)), candidate, report, if cut then c.cancelAt + 1 else c.polls, cut)
      ensures cut == (old(cut) || wasCut)
    {
      var key := QueueKey(candidate);
      cut := cut || wasCut;
      counts := Counted(counts, report.status);
      rows := rows + [AttemptRow(candidate.path, report)];
      attempted := attempted + [candidate];
      if report.status == Recognized {
        cache := cache[key := Recognition(candidate, report.text)];
        quarantine := quarantine.(entries := quarantine.entries - {key});
      } else {
        var entry := FailedEntry(Lookup(quarantine.entries, key), candidate, report);
        quarantine := quarantine.(entries := quarantine.entries[key := entry]);
        if entry.failures >= quarantine.threshold {
          counts := counts.(quarantined := counts.quarantined + 1);
        }
      }
    }

    method ProcessCandidate(candidate: OcrCandidate, p: Plan, c: Cancellation, dir: RenderDirectory)
      returns (proceed: bool)
      requires Tracks(c) && c.cancelAt == p.cancelAt && (c as object) != dir && (c as object) != this
              && (dir as object) != this
      modifies this, c, dir
      ensures Tracks(c)
      ensures if proceed then Step(old(State(c)), candidate, p) == Next(State(c))
              else Step(old(State(c)), candidate, p).Stop?
    {
      hide WithReport, RasterReport, PagesPolled, QueueKey;
      var key, a := QueueKey(candidate), p.attempts(candidate);
      var ok := c.Check();
      if !ok {
        return false;
      }
      if key in cache {
        counts := counts.(cached := counts.cached + 1);
        quarantine := quarantine.(entries := quarantine.entries - {key});
        rows := rows + [CachedRow(candidate.path)];
        return true;
      }
      if Blocked(quarantine, key) {
        counts := counts.(quarantined := counts.quarantined + 1);
        rows := rows + [BlockedRow(quarantine.entries[key])];
        return true;
      }
      ok := c.CheckTimes(a.accessPolls);
      if !ok || a.access.Denied? {
        return false;
      }
      var report;
      ghost var wasCut := false;
      if a.access.NotFound? {
        report := MissingReport(a.access.message);
      } else if candidate.kind == ScreenshotImage {
        report := a.image;
      } else {
        wasCut := !Passes(c.polls, PagesPolled(a.raster), p.cancelAt);
        var recognized;
        report, recognized := RecognizePdf(a.raster, c, dir);
      }
      ghost var before := State(c);
      RecordReport(candidate, report, c, wasCut);
      RecordingIgnoresPolls(old(State(c)), before.polls, candidate, report, State(c).polls, cut);
      return true;
    }

    method ProcessQueue(queue: seq<OcrCandidate>, p: Plan, c: Cancellation, dir: RenderDirectory)
      returns (proceed: bool)
      requires Tracks(c) && c.cancelAt == p.cancelAt && (c as object) != dir && (c as object) != this
              && (dir as object) != this
      modifies this, c, dir
      ensures Tracks(c)
      ensures if proceed then SweepFrom(old(State(c)), queue, p) == Next(State(c))
              else SweepFrom(old(State(c)), queue, p).Stop?
    {
      hide Step;
      for i := 0 to |queue|
        invariant Tracks(c)
        invariant SweepFrom(old(State(c)), queue, p) == SweepFrom(State(c), queue[i..], p)
      {
        assert queue[i..][0] == queue[i] && queue[i..][1..] == queue[i + 1..];
        var ok := ProcessCandidate(queue[i], p, c, dir);
        if !ok {
          return false;
        }
      }
      assert queue[|queue|..] == [];
      return true;
    }
  }

  /** The two writes at the end of a run, in their order. */
  method Persist(run: OcrRun, p: Plan, c: Cancellation, cacheFile: StoreFile<Cache>,
                 quarantineFile: StoreFile<Quarantine>)
    returns (completed: Option<(seq<Row>, Counters)>)
    requires (cacheFile as object) != quarantineFile && (cacheFile as object) != c && (quarantineFile as object) != c
    requires (cacheFile as object) != run && (quarantineFile as object) != run && (c as object) != run
    requires run.Tracks(c) && c.cancelAt == p.cancelAt
    modifies c, cacheFile, quarantineFile
    ensures var r := Finish(Disk(old(cacheFile.content), old(quarantineFile.content)), old(run.State(c)), p);
            completed == r.completed && Disk(cacheFile.content, quarantineFile.content) == r.disk
  {
    completed := None;
    var ok := c.CheckTimes(p.beforeCache.Polls());
    if !ok || p.beforeCache.refused {
      return;
    }
    var written := cacheFile.WriteChecked(run.cache, p.cacheWrite, c);
    if !written.Written? {
      return;
    }
    ok := c.CheckTimes(p.beforeQuarantine.Polls());
    if !ok || p.beforeQuarantine.refused {
      return;
    }
    written := quarantineFile.WriteChecked(run.quarantine, p.quarantineWrite, c);
    if !written.Written? {
      return;
    }
    ok := c.CheckTimes(p.atEnd.Polls());
    if !ok || p.atEnd.refused {
      return;
    }
    completed := Some((run.rows, run.counts));
  }

  /** The worker: it opens the two stores, processes the queue candidate by
      candidate and persists what it holds in memory. */
  method RunOcrWorker(queue: seq<OcrCandidate>, p: Plan, cacheFile: StoreFile<Cache>,
                      quarantineFile: StoreFile<Quarantine>)
    returns (completed: Option<(seq<Row>, Counters)>)
    requires (cacheFile as object) != quarantineFile
    modifies cacheFile, quarantineFile
    ensures var r := Run(Disk(old(cacheFile.content), old(quarantineFile.content)), queue, p);
            completed == r.completed && Disk(cacheFile.content, quarantineFile.content) == r.disk
  {
    hide SweepFrom, Finish;
    completed := None;
    var c := new Cancellation(p.cancelAt);
    var dir := new RenderDirectory();
    var d := Disk(cacheFile.content, quarantineFile.content);
    var ok := c.CheckTimes(p.entryPolls);
    if !ok || p.entryRefused {
      return;
    }
    var run := new OcrRun(OpenCache(d), OpenQuarantine(d));
    ok := run.ProcessQueue(queue, p, c, dir);
    if !ok {
      return;
    }
    completed := Persist(run, p, c, cacheFile, quarantineFile);
  }
}
