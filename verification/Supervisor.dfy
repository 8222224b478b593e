// The supervisor of the extraction worker: a poll loop over a monotone clock with
// a timeout, a kill path and a pause that watches the cancellation token; and its
// caller, which owns the scratch files.
module Supervisor {
  import opened Numbers
  import opened Text
  import opened Control

  const MS: nat := 1_000_000
  const POLL_PAUSE: nat := 5 * MS
  const REAP_LIMIT: nat := 250 * MS

  datatype Wait = Done | StillRunning | WaitError

  /** A monotone clock in nanoseconds and a child process, both scripted by an
      adversary: `drift` is how much extra time each look at the clock or sleep
      takes, `waits` what each non-blocking wait answers. */
  datatype Script = Script(drift: nat -> nat, waits: nat -> Wait)

  datatype Clock = Clock(now: nat, ticks: nat)

  function LookAtClock(s: Script, c: Clock): Clock {
    Clock(c.now + s.drift(c.ticks), c.ticks + 1)
  }

  function Slept(s: Script, c: Clock, d: nat): Clock {
    Clock(c.now + d + s.drift(c.ticks), c.ticks + 1)
  }

  // ----- The plain form -----

  /** A pause that nothing cuts short: the clock at its end and the polls it makes. */
  function PauseEnd(s: Script, c: Clock, deadline: nat): (r: (Clock, nat))
    ensures r.0.now >= deadline && r.0.now >= c.now && r.1 >= 1
    decreases if c.now < deadline then deadline - c.now else 0
  {
    var t := LookAtClock(s, c);
    if t.now >= deadline then (t, 1)
    else
      var (end, n) := PauseEnd(s, Slept(s, t, Min(deadline - t.now, MS)), deadline);
      (end, n + 1)
  }

  function Pause(s: Script, c: Clock, delay: nat): (r: (Clock, nat))
    ensures r.0.now >= c.now + delay && r.1 >= 1
  {
    var t := LookAtClock(s, c);
    PauseEnd(s, t, t.now + delay)
  }

  /** The clock and the polls made in front of one look at the child. */
  datatype Look = Look(clock: Clock, polls: nat)

  function NextLook(s: Script, l: Look): (next: Look)
    ensures next.clock.now >= LookAtClock(s, l.clock).now + POLL_PAUSE && next.polls >= l.polls + 2
  {
    var (end, n) := Pause(s, LookAtClock(s, l.clock), POLL_PAUSE);
    Look(end, l.polls + 1 + n)
  }

  /** Does the child answer a wait before the limit? */
  function Reaped(s: Script, c: Clock, deadline: nat, waited: nat): bool
    decreases if c.now < deadline then deadline - c.now else 0
  {
    match s.waits(waited)
    case Done => true
    case WaitError => false
    case StillRunning =>
      var t := LookAtClock(s, c);
      t.now < deadline && Reaped(s, Slept(s, t, POLL_PAUSE), deadline, waited + 1)
  }

  function KillReaps(s: Script, c: Clock, limit: nat, waited: nat): bool {
    var t := LookAtClock(s, c);
    Reaped(s, t, t.now + limit, waited)
  }

  /** The clock in front of wait `k` of a kill that saw the child still running. */
  function KillClock(s: Script, c: Clock, k: nat): Clock {
    if k == 0 then c else Slept(s, LookAtClock(s, KillClock(s, c, k - 1)), 5_000_000)
  }

  /** Wait `j` finds the child running, before the deadline. */
  predicate OpenAt(s: Script, c: Clock, deadline: nat, waited: nat, j: nat) {
    s.waits(waited + j) == StillRunning && LookAtClock(s, KillClock(s, c, j)).now < deadline
  }

  /** Wait `k` finds the child gone, and every wait before found it running with time left. */
  predicate GoneAt(s: Script, c: Clock, deadline: nat, waited: nat, k: nat) {
    s.waits(waited + k) == Done && forall j: nat :: j < k ==> OpenAt(s, c, deadline, waited, j)
  }

  lemma {:induction false} KillClockCons(s: Script, c: Clock, k: nat)
    ensures KillClock(s, c, k + 1) == KillClock(s, Slept(s, LookAtClock(s, c), POLL_PAUSE), k)
  {
    if k > 0 {
      KillClockCons(s, c, k - 1);
    } else {
      assert KillClock(s, c, 1) == Slept(s, LookAtClock(s, KillClock(s, c, 0)), POLL_PAUSE);
    }
  }

  /** The waits after the first one are the waits of the rest. */
  lemma GoneAtCons(s: Script, c: Clock, deadline: nat, waited: nat, k: nat)
    ensures GoneAt(s, c, deadline, waited, k + 1) <==>
            && OpenAt(s, c, deadline, waited, 0)
            && GoneAt(s, Slept(s, LookAtClock(s, c), POLL_PAUSE), deadline, waited + 1, k)
  {
    var next, w := Slept(s, LookAtClock(s, c), POLL_PAUSE), waited + 1;
    forall j: nat | j > 0 ensures OpenAt(s, c, deadline, waited, j) <==> OpenAt(s, next, deadline, w, j - 1) {
      KillClockCons(s, c, j - 1);
    }
    assert waited + (k + 1) == w + k;
    hide OpenAt;
    if GoneAt(s, c, deadline, waited, k + 1) {
      forall j: nat | j < k ensures OpenAt(s, next, deadline, w, j) {
        assert OpenAt(s, c, deadline, waited, j + 1);
      }
    }
  }

  /** A kill reaps the child if and only if some wait finds it gone after waits that
      all found it running before the deadline. */
  lemma {:induction false} ReapedIff(s: Script, c: Clock, deadline: nat, waited: nat)
    ensures Reaped(s, c, deadline, waited) <==> exists k: nat :: GoneAt(s, c, deadline, waited, k)
    decreases if c.now < deadline then deadline - c.now else 0
  {
    var t := LookAtClock(s, c);
    var next, w := Slept(s, t, POLL_PAUSE), waited + 1;
    if s.waits(waited) == Done {
      assert GoneAt(s, c, deadline, waited, 0);
    } else {
      assert s.waits(waited + 0) != Done && !GoneAt(s, c, deadline, waited, 0);
      if s.waits(waited) == StillRunning && t.now < deadline {
        ReapedIff(s, next, deadline, w);
      }
      assert OpenAt(s, c, deadline, waited, 0) <==> s.waits(waited) == StillRunning && t.now < deadline;
      if k: nat :| GoneAt(s, c, deadline, waited, k) {
        assert k > 0;
        GoneAtCons(s, c, deadline, waited, k - 1);
      }
      if k: nat :| GoneAt(s, next, deadline, w, k) {
        GoneAtCons(s, c, deadline, waited, k);
      }
    }
  }

  datatype Exit =
    | Exited(readCancelled: bool)
    | TimedOut(reaped: bool)
    | WaitFailed(reaped: bool)
    | CancelledAtPoll
    | CancelledInPause

  /** One supervision: the script, the timeout, the state in front of the first
      look, and the waits made before. */
  datatype Supervision = Supervision(script: Script, timeout: nat, first: Look, waited: nat, outputPolls: nat) {
    /** The undisturbed state in front of look `i`; it does not depend on the token. */
    function At(i: nat): Look {
      if i == 0 then first else NextLook(script, At(i - 1))
    }

    function Sees(i: nat): Wait { script.waits(waited + i) }

    predicate Elapsed(i: nat) {
      LookAtClock(script, At(i).clock).now >= first.clock.now + timeout
    }

    /** The looks before `n` saw a running child and time left. */
    predicate RunningUntil(n: nat) {
      forall i :: 0 <= i < n ==> Sees(i) == StillRunning && !Elapsed(i)
    }

    function TimeLeft(i: nat): nat {
      if At(i).clock.now < first.clock.now + timeout then first.clock.now + timeout - At(i).clock.now else 0
    }

    /** The exit and the number of pauses, from look `i` on. */
    function Outcome(cancelAt: nat, i: nat): (Exit, nat)
      decreases TimeLeft(i)
    {
      var l := At(i);
      if l.polls >= cancelAt then (CancelledAtPoll, i)
      else
        match Sees(i)
        case Done => (Exited(!Passes(l.polls + 1, outputPolls + 1, cancelAt)), i)
        case WaitError => (WaitFailed(KillReaps(script, l.clock, REAP_LIMIT, waited + i + 1)), i)
        case StillRunning =>
          var t := LookAtClock(script, l.clock);
          if t.now >= first.clock.now + timeout then (TimedOut(KillReaps(script, t, REAP_LIMIT, waited + i + 1)), i)
          else if At(i + 1).polls > cancelAt then (CancelledInPause, i + 1)
          else Outcome(cancelAt, i + 1)
    }
  }

  // ----- The loops -----

  class Host {
    const script: Script
    var now: nat
    var ticks: nat
    var waited: nat
    var lastWait: Wait
    var launched: bool
    var killed: bool
    var outputRead: bool

    constructor (script: Script, now: nat)
      ensures this.script == script && Time() == Clock(now, 0) && waited == 0
      ensures !launched && !killed && !outputRead && lastWait == StillRunning
    {
      this.script, this.now := script, now;
      ticks, waited, lastWait := 0, 0, StillRunning;
      launched, killed, outputRead := false, false, false;
    }

    function Time(): Clock
      reads this
    {
      Clock(now, ticks)
    }

    /** A child that was launched, not seen to exit, and not killed. */
    predicate LeftRunning()
      reads this
    {
      launched && !killed && lastWait != Done
    }

    method Now() returns (t: nat)
      modifies this`now, this`ticks
      ensures Time() == LookAtClock(script, old(Time())) && t == now
    {
      now := now + script.drift(ticks);
      ticks := ticks + 1;
      t := now;
    }

    method Sleep(d: nat)
      modifies this`now, this`ticks
      ensures Time() == Slept(script, old(Time()), d)
    {
      now := now + d + script.drift(ticks);
      ticks := ticks + 1;
    }

    method TryWait() returns (w: Wait)
      modifies this`waited, this`lastWait
      ensures w == lastWait == script.waits(old(waited)) && waited == old(waited) + 1
    {
      w := script.waits(waited);
      lastWait := w;
      waited := waited + 1;
    }
  }

  /** One slice of a pause. */
  lemma PauseStep(s: Script, c: Clock, deadline: nat)
    ensures var t := LookAtClock(s, c);
            if t.now >= deadline then PauseEnd(s, c, deadline) == (t, 1)
            else
              var next := Slept(s, t, Min(deadline - t.now, MS));
              var (end, n) := PauseEnd(s, next, deadline);
              next.now > c.now && PauseEnd(s, c, deadline) == (end, n + 1)
  {
  }

  /** A pause goes through exactly if all the polls it makes undisturbed pass; then
      it ends when the undisturbed pause does. */
  method PollPause(delay: nat, h: Host, c: Cancellation) returns (ok: bool)
    requires (h as object) != c
    modifies h`now, h`ticks, c
    ensures ok == Passes(old(c.polls), Pause(h.script, old(h.Time()), delay).1, c.cancelAt)
    ensures ok ==> h.Time() == Pause(h.script, old(h.Time()), delay).0
    ensures ok ==> c.polls == old(c.polls) + Pause(h.script, old(h.Time()), delay).1
    ensures !ok ==> c.polls > c.cancelAt
  {
    var start := h.Now();
    var deadline := start + delay;
    ghost var (end, n) := Pause(h.script, old(h.Time()), delay);
    ghost var made := 0;
    hide Pause, PauseEnd, LookAtClock, Slept;
    while true
      invariant c.polls == old(c.polls) + made && Passes(old(c.polls), made, c.cancelAt)
      invariant PauseEnd(h.script, h.Time(), deadline).0 == end
      invariant PauseEnd(h.script, h.Time(), deadline).1 + made == n
      decreases if h.now < deadline then deadline - h.now else 0
    {
      PauseStep(h.script, h.Time(), deadline);
      ok := c.Check();
      if !ok {
        return;
      }
      made := made + 1;
      var t := h.Now();
      if t >= deadline {
        return true;
      }
      h.Sleep(Min(deadline - t, MS));
    }
  }

  /** Kills the process group, then waits for the child up to a limit. */
  method KillAndReap(limit: nat, h: Host) returns (reaped: bool)
    modifies h`killed, h`waited, h`lastWait, h`now, h`ticks
    ensures h.killed && reaped == KillReaps(h.script, old(h.Time()), limit, old(h.waited))
  {
    h.killed := true;
    var t := h.Now();
    var deadline := t + limit;
    while true
      invariant h.killed
      invariant KillReaps(h.script, old(h.Time()), limit, old(h.waited)) ==
                Reaped(h.script, h.Time(), deadline, h.waited)
      decreases if h.now < deadline then deadline - h.now else 0
    {
      var w := h.TryWait();
      match w {
        case Done => return true;
        case WaitError => return false;
        case StillRunning =>
          t := h.Now();
          if t >= deadline {
            return false;
          }
          h.Sleep(POLL_PAUSE);
      }
    }
  }

  datatype ScratchEntry = StdoutFile | StderrFile | StateDirectory

  /** In the order they are created. */
  const ENTRIES: seq<ScratchEntry> := [StdoutFile, StderrFile, StateDirectory]

  /** The two output files and the state directory of one worker: those on disk now,
      and those that ever were. */
  class Scratch {
    var present: set<ScratchEntry>
    ghost var created: set<ScratchEntry>

    constructor ()
      ensures present == {} && created == {}
    {
      present, created := {}, {};
    }

    method Create(e: ScratchEntry)
      modifies this
      ensures present == old(present) + {e} && created == old(created) + {e}
    {
      present, created := present + {e}, created + {e};
    }

    method Cleanup()
      modifies this`present
      ensures present == {}
    {
      present := {};
    }
  }

  /** The way out of a supervision whose child has not ended. */
  method GiveUp(h: Host, files: Scratch) returns (reaped: bool)
    requires (h as object) != files
    modifies h`killed, h`waited, h`lastWait, h`now, h`ticks, files`present
    ensures h.killed && reaped == KillReaps(h.script, old(h.Time()), REAP_LIMIT, old(h.waited))
    ensures files.present == {}
  {
    reaped := KillAndReap(REAP_LIMIT, h);
    files.Cleanup();
  }

  /** The supervision a call starts: the clock is read once, then the loop begins. */
  function Started(s: Script, c: Clock, polls: nat, waited: nat, timeout: nat, outputPolls: nat): Supervision {
    Supervision(s, timeout, Look(LookAtClock(s, c), polls), waited, outputPolls)
  }

  /** One turn of the loop. */
  lemma OutcomeStep(v: Supervision, cancelAt: nat, i: nat)
    ensures
      var l, w, out := v.At(i), v.waited + i + 1, v.Outcome(cancelAt, i);
      var t := LookAtClock(v.script, l.clock);
      var (end, n) := Pause(v.script, t, POLL_PAUSE);
      && (l.polls >= cancelAt ==> out == (CancelledAtPoll, i))
      && (l.polls < cancelAt ==>
            match v.Sees(i)
            case Done => out == (Exited(!Passes(l.polls + 1, v.outputPolls + 1, cancelAt)), i)
            case WaitError => out == (WaitFailed(KillReaps(v.script, l.clock, REAP_LIMIT, w)), i)
            case StillRunning =>
              if t.now >= v.first.clock.now + v.timeout
              then out == (TimedOut(KillReaps(v.script, t, REAP_LIMIT, w)), i)
              else
                && v.At(i + 1) == Look(end, l.polls + 1 + n) && v.TimeLeft(i + 1) < v.TimeLeft(i)
                && out == if Passes(l.polls + 1, n, cancelAt) then v.Outcome(cancelAt, i + 1)
                          else (CancelledInPause, i + 1))
  {
    hide Pause, KillReaps;
  }

  /** The supervising loop computes the plain form. The output is read only after
      the child exited, the child is killed on three exits, and the files are
      removed on all but the one out of a pause. */
  method Supervise(timeout: nat, outputPolls: nat, h: Host, c: Cancellation, files: Scratch)
    returns (exit: Exit, pauses: nat)
    requires (h as object) != c && (h as object) != files && (c as object) != files
    requires h.launched && !h.killed && !h.outputRead
    modifies h`now, h`ticks, h`waited, h`lastWait, h`killed, h`outputRead, c, files`present
    ensures (exit, pauses) ==
            Started(h.script, old(h.Time()), old(c.polls), old(h.waited), timeout, outputPolls).Outcome(c.cancelAt, 0)
    ensures h.outputRead <==> exit == Exited(false)
    ensures exit.Exited? ==> h.lastWait == Done
    ensures h.killed <==> exit.TimedOut? || exit.WaitFailed? || exit.CancelledAtPoll?
    ensures h.LeftRunning() <==> exit.CancelledInPause?
    ensures files.present == if exit.CancelledInPause? then old(files.present) else {}
  {
    hide Pause, KillReaps, Supervision.Outcome, Supervision.TimeLeft, Supervision.Elapsed, LookAtClock;
    ghost var v := Started(h.script, old(h.Time()), old(c.polls), old(h.waited), timeout, outputPolls);
    var start := h.Now();
    pauses := 0;
    while true
      invariant h.launched && !h.killed && !h.outputRead && files.present == old(files.present)
      invariant Look(h.Time(), c.polls) == v.At(pauses) && h.waited == v.waited + pauses
      invariant v.Outcome(c.cancelAt, 0) == v.Outcome(c.cancelAt, pauses)
      decreases v.TimeLeft(pauses)
    {
      hide Supervision.At;
      OutcomeStep(v, c.cancelAt, pauses);
      var ok := c.Check();
      if !ok {
        var _ := GiveUp(h, files);
        return CancelledAtPoll, pauses;
      }
      var w := h.TryWait();
      match w {
        case Done =>
          ok := c.CheckTimes(outputPolls + 1);
          h.outputRead := ok;
          files.Cleanup();
          return Exited(!ok), pauses;
        case StillRunning =>
          var t := h.Now();
          if t - start >= timeout {
            var reaped := GiveUp(h, files);
            return TimedOut(reaped), pauses;
          }
          ok := PollPause(POLL_PAUSE, h, c);
          pauses := pauses + 1;
          if !ok {
            return CancelledInPause, pauses;
          }
        case WaitError =>
          var reaped := GiveUp(h, files);
          return WaitFailed(reaped), pauses;
      }
    }
  }

  // ----- The caller, which owns the scratch files -----

  /** What happens around the loop: the polls before the first file is created,
      which creation the file system refuses, the polls up to the loop, and whether
      one of the steps among them is refused. */
  datatype Launch = Launch(entryPolls: nat, refusedCreation: nat, setupPolls: nat, setupRefused: bool,
                           outputPolls: nat) {
    function PollsBefore(): nat { entryPolls + 3 + setupPolls }
    predicate Launches(polls: nat, cancelAt: nat) {
      Passes(polls, PollsBefore(), cancelAt) && refusedCreation >= 3 && !setupRefused
    }
  }

  datatype WorkerEnd = NotLaunched | Ended(exit: Exit)

  /** The polls a token still passes. */
  function PollsLeft(polls: nat, cancelAt: nat): nat {
    if polls < cancelAt then cancelAt - polls else 0
  }

  /** The first `n` scratch entries. */
  function Created(n: nat): set<ScratchEntry>
    requires n <= 3
  {
    set e | e in ENTRIES[..n]
  }

  lemma AllCreated()
    ensures Created(3) == {StdoutFile, StderrFile, StateDirectory}
  {
    assert ENTRIES[..3] == ENTRIES;
  }

  /** Creates the three scratch entries, a poll before each, up to the first failed
      poll or refused creation. */
  method Prepare(p: Launch, c: Cancellation, files: Scratch) returns (ok: bool)
    requires (c as object) != files
    modifies c, files
    ensures ok == (Passes(old(c.polls), 3, c.cancelAt) && p.refusedCreation >= 3)
    ensures ok ==> c.polls == old(c.polls) + 3
    ensures ok ==> files.present == old(files.present) + {StdoutFile, StderrFile, StateDirectory}
    ensures files.created ==
            old(files.created) + Created(Min(PollsLeft(old(c.polls), c.cancelAt), Min(p.refusedCreation, 3)))
    ensures ok ==> files.created == old(files.created) + {StdoutFile, StderrFile, StateDirectory}
  {
    AllCreated();
    assert Created(0) == {};
    for i := 0 to 3
      invariant c.polls == old(c.polls) + i && Passes(old(c.polls), i, c.cancelAt) && p.refusedCreation >= i
      invariant files.present == old(files.present) + Created(i) && files.created == old(files.created) + Created(i)
    {
      ok := c.Check();
      if !ok || p.refusedCreation == i {
        return false;
      }
      files.Create(ENTRIES[i]);
      assert Created(i + 1) == Created(i) + {ENTRIES[i]};
    }
    ok := true;
  }

  /** Whatever happens, the scratch files are gone at the end, because the caller
      drops them on every way out, although a launched worker had all three; and the
      child is left running exactly if the supervision was cancelled inside a pause. */
  method RunWorker(timeout: nat, p: Launch, h: Host, c: Cancellation) returns (end: WorkerEnd, files: Scratch)
    requires (h as object) != c && !h.launched && !h.killed && !h.outputRead
    modifies h, c
    ensures fresh(files) && files.present == {}
    ensures end.Ended? ==> files.created == {StdoutFile, StderrFile, StateDirectory}
    ensures end.Ended? <==> p.Launches(old(c.polls), c.cancelAt)
    ensures end.Ended? ==>
              end.exit == Started(h.script, old(h.Time()), old(c.polls) + p.PollsBefore(), old(h.waited), timeout,
                                  p.outputPolls).Outcome(c.cancelAt, 0).0
    ensures h.LeftRunning() <==> end == Ended(CancelledInPause)
  {
    files := new Scratch();
    end := NotLaunched;
    var ok := c.CheckTimes(p.entryPolls);
    if !ok {
      return;
    }
    ok := Prepare(p, c, files);
    if !ok {
      files.Cleanup();
      return;
    }
    ok := c.CheckTimes(p.setupPolls);
    if !ok || p.setupRefused {
      files.Cleanup();
      return;
    }
    h.launched := true;
    h.lastWait := StillRunning;
    var exit, pauses := Supervise(timeout, p.outputPolls, h, c, files);
    files.Cleanup();
    end := Ended(exit);
  }

  // ----- When each exit happens -----

  lemma {:induction false} PollsGrow(v: Supervision, i: nat, j: nat)
    requires i <= j
    ensures v.At(i).polls + 2 * (j - i) <= v.At(j).polls
    decreases j
  {
    if i < j {
      PollsGrow(v, i, j - 1);
    }
  }

  lemma GoesOn(v: Supervision, cancelAt: nat, i: nat)
    requires v.Sees(i) == StillRunning && !v.Elapsed(i) && v.At(i + 1).polls <= cancelAt
    ensures v.Outcome(cancelAt, i) == v.Outcome(cancelAt, i + 1)
  {
    hide Pause, KillReaps;
  }

  /** A loop that has got as far as look `n` goes on as from there. */
  lemma {:induction false} OutcomeFrom(v: Supervision, cancelAt: nat, n: nat)
    requires v.RunningUntil(n) && (n == 0 || v.At(n).polls <= cancelAt)
    ensures v.Outcome(cancelAt, 0) == v.Outcome(cancelAt, n)
  {
    hide Supervision.Outcome, Supervision.At, Supervision.Elapsed;
    if n > 0 {
      PollsGrow(v, n - 1, n);
      assert v.Sees(n - 1) == StillRunning && !v.Elapsed(n - 1);
      GoesOn(v, cancelAt, n - 1);
      OutcomeFrom(v, cancelAt, n - 1);
    }
  }

  /** A kill at this clock, after this many waits, sees the child go before the limit. */
  ghost predicate KillSeesEnd(s: Script, c: Clock, waited: nat) {
    var t := LookAtClock(s, c);
    var deadline := t.now + 250_000_000;
    exists k: nat :: GoneAt(s, t, deadline, waited, k)
  }

  lemma KillReapsIff(s: Script, c: Clock, waited: nat)
    ensures KillReaps(s, c, REAP_LIMIT, waited) <==> KillSeesEnd(s, c, waited)
  {
    var t := LookAtClock(s, c);
    ReapedIff(s, t, t.now + REAP_LIMIT, waited);
  }

  /** The last look of an outcome, why it was the last, and what the kill behind it saw. */
  ghost predicate EndsAt(v: Supervision, cancelAt: nat, exit: Exit, n: nat) {
    match exit
    case Exited(readCancelled) =>
      v.RunningUntil(n) && v.At(n).polls < cancelAt && v.Sees(n) == Done
      && readCancelled == !Passes(v.At(n).polls + 1, v.outputPolls + 1, cancelAt)
    case WaitFailed(reaped) =>
      v.RunningUntil(n) && v.At(n).polls < cancelAt && v.Sees(n) == WaitError
      && reaped == KillSeesEnd(v.script, v.At(n).clock, v.waited + n + 1)
    case TimedOut(reaped) =>
      v.RunningUntil(n) && v.At(n).polls < cancelAt && v.Sees(n) == StillRunning && v.Elapsed(n)
      && reaped == KillSeesEnd(v.script, LookAtClock(v.script, v.At(n).clock), v.waited + n + 1)
    case CancelledAtPoll => v.RunningUntil(n) && (v.At(n).polls == cancelAt || (n == 0 && v.At(0).polls >= cancelAt))
    case CancelledInPause => v.RunningUntil(n + 1) && v.At(n).polls < cancelAt < v.At(n + 1).polls
  }

  lemma {:induction false} OutcomeEnds(v: Supervision, cancelAt: nat, i: nat) returns (n: nat)
    requires v.RunningUntil(i) && (i == 0 || v.At(i).polls <= cancelAt)
    ensures var (exit, pauses) := v.Outcome(cancelAt, i);
            EndsAt(v, cancelAt, exit, n) && pauses == n + if exit.CancelledInPause? then 1 else 0
    decreases v.TimeLeft(i)
  {
    n := i;
    hide Pause, KillReaps, KillSeesEnd, LookAtClock;
    KillReapsIff(v.script, v.At(i).clock, v.waited + i + 1);
    KillReapsIff(v.script, LookAtClock(v.script, v.At(i).clock), v.waited + i + 1);
    OutcomeStep(v, cancelAt, i);
    if v.At(i).polls < cancelAt && v.Sees(i) == StillRunning && !v.Elapsed(i) {
      assert v.RunningUntil(i + 1);
      if v.At(i + 1).polls <= cancelAt {
        n := OutcomeEnds(v, cancelAt, i + 1);
      }
    }
  }

  /** For every script and token: the loop leaves by a given way if and only if
      there is a look that ends it that way: it exits with the child exactly if some
      look sees it done before a wait error, a failed poll or the elapsed timeout;
      it is cancelled inside a pause exactly if the first failing poll falls strictly
      between the polls of two looks; and a killed child is reaped exactly if some
      wait behind the kill finds it gone, after waits that all found it running
      before the limit. */
  lemma ExitIff(v: Supervision, cancelAt: nat, exit: Exit)
    ensures v.Outcome(cancelAt, 0).0 == exit <==> exists n :: EndsAt(v, cancelAt, exit, n)
  {
    hide EndsAt, Supervision.Outcome;
    var n := OutcomeEnds(v, cancelAt, 0);
    forall m | EndsAt(v, cancelAt, exit, m) ensures v.Outcome(cancelAt, 0).0 == exit {
      EndDecides(v, cancelAt, exit, m);
    }
  }

  lemma EndDecides(v: Supervision, cancelAt: nat, e: Exit, n: nat)
    requires EndsAt(v, cancelAt, e, n)
    ensures v.Outcome(cancelAt, 0).0 == e
  {
    hide Pause, KillReaps, KillSeesEnd;
    if e.CancelledInPause? {
      assert v.Sees(n) == StillRunning && !v.Elapsed(n);
      assert v.RunningUntil(n);
    }
    KillReapsIff(v.script, v.At(n).clock, v.waited + n + 1);
    KillReapsIff(v.script, LookAtClock(v.script, v.At(n).clock), v.waited + n + 1);
    OutcomeFrom(v, cancelAt, n);
  }

  lemma {:induction false} LooksAreApart(v: Supervision, n: nat)
    ensures v.At(n).clock.now >= v.first.clock.now + n * 5_000_000
  {
    if n > 0 {
      LooksAreApart(v, n - 1);
    }
  }

  /** The loop makes at most ceil(timeout / 5 ms) pauses: all but the last of them
      fit into the timeout. */
  lemma PausesAreBounded(v: Supervision, cancelAt: nat)
    ensures var pauses := v.Outcome(cancelAt, 0).1;
            pauses > 0 ==> (pauses - 1) * 5_000_000 < v.timeout
  {
    hide Supervision.Outcome, Supervision.At;
    var pauses := v.Outcome(cancelAt, 0).1;
    var n := OutcomeEnds(v, cancelAt, 0);
    if pauses > 0 {
      assert v.RunningUntil(pauses);
      assert !v.Elapsed(pauses - 1);
      LooksAreApart(v, pauses - 1);
    }
  }

  /** A pause polls once per slice of at most a millisecond, and once more. */
  lemma {:induction false} PausePolls(s: Script, c: Clock, deadline: nat, slices: nat)
    requires deadline <= c.now + slices * MS
    ensures PauseEnd(s, c, deadline).1 <= slices + 1
    decreases slices
  {
    var t := LookAtClock(s, c);
    if t.now < deadline {
      var next := Slept(s, t, Min(deadline - t.now, MS));
      if slices == 1 {
        assert next.now >= deadline;
      }
      PausePolls(s, next, deadline, slices - 1);
    }
  }

  /** With a clock that only moves when it sleeps, a pause of whole milliseconds ends on
      time and polls once in front of every one of them and once at the end. */
  lemma {:induction false} SteadyPause(s: Script, c: Clock, deadline: nat, slices: nat)
    requires deadline == c.now + slices * MS && forall i :: s.drift(i) == 0
    ensures PauseEnd(s, c, deadline).0.now == deadline && PauseEnd(s, c, deadline).1 == slices + 1
    decreases slices
  {
    if slices > 0 {
      SteadyPause(s, Slept(s, LookAtClock(s, c), MS), deadline, slices - 1);
    }
  }

  /** With such a clock the looks at the child are five milliseconds apart, and there are
      seven polls from one to the next: one at the look and six in the pause. */
  lemma {:induction false} SteadyLooks(v: Supervision, n: nat)
    requires forall i :: v.script.drift(i) == 0
    ensures v.At(n).clock.now == v.first.clock.now + n * 5_000_000
    ensures v.At(n).polls == v.first.polls + n * 7
  {
    if n > 0 {
      SteadyLooks(v, n - 1);
      var l := v.At(n - 1);
      var t := LookAtClock(v.script, LookAtClock(v.script, l.clock));
      SteadyPause(v.script, t, t.now + POLL_PAUSE, 5);
      assert v.At(n) == NextLook(v.script, l);
    }
  }

  /** A host whose clock only moves when it sleeps and whose child never ends. */
  const STUCK: Script := Script(_ => 0, _ => StillRunning)

  /** A token that runs out on the third poll leaves the worker running: the second
      poll after the first look lies inside the pause. */
  lemma ChildCanSurvive(waited: nat, outputPolls: nat)
    ensures Started(STUCK, Clock(0, 0), 0, waited, 1000 * MS, outputPolls).Outcome(2, 0).0 == CancelledInPause
  {
    var v := Started(STUCK, Clock(0, 0), 0, waited, 1000 * MS, outputPolls);
    assert v.At(0) == v.first;
    var p := LookAtClock(STUCK, LookAtClock(STUCK, v.first.clock));
    var q := Slept(STUCK, LookAtClock(STUCK, p), MS);
    assert Pause(STUCK, LookAtClock(STUCK, v.first.clock), POLL_PAUSE) == PauseEnd(STUCK, p, p.now + POLL_PAUSE);
    assert PauseEnd(STUCK, p, p.now + POLL_PAUSE).1 == PauseEnd(STUCK, q, p.now + POLL_PAUSE).1 + 1 >= 2;
    assert v.At(1) == NextLook(STUCK, v.At(0));
    assert v.At(1).polls >= 3;
    assert v.RunningUntil(1);
    assert EndsAt(v, 2, CancelledInPause, 0);
    EndDecides(v, 2, CancelledInPause, 0);
  }
}
