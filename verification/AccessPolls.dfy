// The access loop asks before it acts: between any two of its effects on the outside
// there is a poll of the control token.
module AccessPolls {
  import opened Text
  import opened Intents
  import opened Paths
  import opened Access
  import opened AccessLaws

  /** An effect on the outside. */
  predicate Acts(e: Event) {
    e.Discover? || e.Gate? || e.Refresh? || e.Evaluate? || e.Lookup? || e.Probe?
  }

  /** An effect stands directly behind a passed poll, and whatever follows it is a poll or
      a release. The evaluation that only a read-only root's gate asks for stands between
      the poll and its gate. */
  predicate WatchedAt(t: Trace, i: nat)
    requires i < |t|
  {
    Acts(t[i]) ==>
      && i > 0 && (t[i - 1] == Poll(true) || (t[i].Gate? && t[i - 1].Evaluate?))
      && (i + 1 < |t| ==> t[i + 1].Poll? || t[i + 1].Released? || (t[i].Evaluate? && t[i + 1].Gate?))
  }

  predicate Watched(t: Trace) {
    forall i :: 0 <= i < |t| ==> WatchedAt(t, i)
  }

  predicate AfterPoll(t: Trace) {
    t != [] && t[|t| - 1] == Poll(true)
  }

  lemma Append(t: Trace, e: Event)
    requires Watched(t)
    requires e.Poll? || e.Released? || AfterPoll(t) || (e.Gate? && t != [] && t[|t| - 1].Evaluate?)
    ensures Watched(t + [e])
  {
    var t' := t + [e];
    forall i | 0 <= i < |t'| ensures WatchedAt(t', i) {
      if i < |t| {
        assert WatchedAt(t, i);
        assert t'[i] == t[i] && (i > 0 ==> t'[i - 1] == t[i - 1]);
      }
    }
  }

  lemma {:induction false} AppendReleases(t: Trace, handles: seq<nat>)
    requires Watched(t)
    ensures Watched(t + Releases(handles))
    decreases |handles|
  {
    if handles == [] {
      assert t + [] == t;
    } else {
      hide Watched;
      Append(t, Released(handles[0]));
      AppendReleases(t + [Released(handles[0])], handles[1..]);
      assert t + Releases(handles) == t + [Released(handles[0])] + Releases(handles[1..]);
    }
  }

  lemma PollWatched(w: World, t: Trace, held: seq<nat>)
    requires Watched(t)
    ensures Watched(Check(w, t).trace) && (Check(w, t).Go? ==> AfterPoll(Check(w, t).trace))
    ensures Watched(CheckHolding(w, t, held).trace)
    ensures CheckHolding(w, t, held).Go? ==> AfterPoll(CheckHolding(w, t, held).trace)
  {
    hide Watched;
    Append(t, Poll(w.allow(|t|)));
    AppendReleases(t + [Poll(false)], held) by {
      Append(t, Poll(false));
    }
  }

  lemma GateWatched(w: World, t: Trace, path: Path, intent: Intent, v: Option<Volume>)
    requires Watched(t) && AfterPoll(t)
    ensures Watched(GateVolume(w, t, path, intent, v).trace)
  {
    hide Watched, VolumeBlock, ConsultsRoot;
    var t1 := t + [Evaluate(path, intent)];
    Append(t, Evaluate(path, intent));
    Append(t1, Gate(path, intent, true));
    Append(t1, Gate(path, intent, false));
    Append(t, Gate(path, intent, true));
    Append(t, Gate(path, intent, false));
  }

  lemma StartWatched(w: World, t: Trace, path: Path, readOnly: bool)
    requires Watched(t)
    ensures var r := StartAccess(w, t, path, readOnly);
            Watched(r.trace) && (r.Go? ==> AfterPoll(r.trace))
  {
    hide Watched, Check, CheckHolding;
    var c := Check(w, t);
    PollWatched(w, t, []);
    if c.Go? {
      var looked := c.trace + [Lookup(path, readOnly)];
      Append(c.trace, Lookup(path, readOnly));
      PollWatched(w, looked, []);
      var c2 := Check(w, looked);
      if c2.Go? {
        var started := c2.trace + [Started(|c2.trace|)];
        Append(c2.trace, Started(|c2.trace|));
        PollWatched(w, started, [|c2.trace|]);
        PollWatched(w, c2.trace, []);
      }
    }
  }

  lemma VetWatched(w: World, t: Trace, path: Path, intent: Intent)
    requires Watched(t)
    ensures var r := StartAndVet(w, t, path, intent);
            Watched(r.trace) && (r.Go? ==> AfterPoll(r.trace))
  {
    hide Watched, StartAccess, CheckHolding;
    var s := StartAccess(w, t, path, intent.ReadOnly());
    StartWatched(w, t, path, intent.ReadOnly());
    if s.Go? {
      var c := CheckHolding(w, s.trace, s.value.1);
      PollWatched(w, s.trace, s.value.1);
      if c.Go? {
        AppendReleases(c.trace, s.value.1);
        PollWatched(w, c.trace, s.value.1);
      }
    }
  }

  lemma RetainedWatched(w: World, t: Trace, path: Path, intent: Intent)
    requires Watched(t)
    ensures var r := RetainedAccess(w, t, path, intent);
            Watched(r.trace) && (r.Go? ==> AfterPoll(r.trace))
  {
    RetainedInTwo(w, t, path, intent);
    hide Watched, Check, StorePart, RetainedAccess;
    PollWatched(w, t, []);
    var c := Check(w, t);
    if c.Go? {
      PollWatched(w, c.trace, []);
      if Check(w, c.trace).Go? {
        StoreWatched(w, Check(w, c.trace).trace, path, intent);
      }
    }
  }

  lemma RetainedInTwo(w: World, t: Trace, path: Path, intent: Intent)
    ensures RetainedAccess(w, t, path, intent) ==
            match Check(w, t)
            case Fail(t1, error) => Fail(t1, error)
            case Go(t1, _) =>
              match Check(w, t1)
              case Fail(t2, error) => Fail(t2, error)
              case Go(t2, _) => StorePart(w, t2, path, intent)
  {
    hide Check, DiscoverVolume, GateVolume, StartAccess, CheckHolding;
  }

  lemma StoreWatched(w: World, t: Trace, path: Path, intent: Intent)
    requires Watched(t) && AfterPoll(t)
    ensures var r := StorePart(w, t, path, intent);
            Watched(r.trace) && (r.Go? ==> AfterPoll(r.trace))
  {
    hide Watched, Check, GateVolume, StartAndVet;
    Append(t, Discover(BOOKMARK_STORE, w.discovers(BOOKMARK_STORE, |t|)));
    var d := DiscoverVolume(w, t, BOOKMARK_STORE);
    if d.Go? {
      PollWatched(w, d.trace, []);
      var c := Check(w, d.trace);
      if c.Go? {
        var g := GateVolume(w, c.trace, BOOKMARK_STORE, Read, d.value);
        GateWatched(w, c.trace, BOOKMARK_STORE, Read, d.value);
        if g.Go? {
          PollWatched(w, g.trace, []);
          if Check(w, g.trace).Go? {
            VetWatched(w, Check(w, g.trace).trace, path, intent);
          }
        }
      }
    }
  }

  lemma EvaluatedWatched(w: World, t: Trace, e: Entry)
    requires Watched(t) && AfterPoll(t)
    ensures Watched(Evaluated(w, t, e).trace)
  {
    hide Watched, Check, RetainedAccess;
    var looked := t + [Evaluate(e.path, e.intent)];
    Append(t, Evaluate(e.path, e.intent));
    PollWatched(w, looked, []);
    var c := Check(w, looked);
    if c.Go? {
      PollWatched(w, c.trace, []);
      if Check(w, c.trace).Go? {
        RetainedWatched(w, Check(w, c.trace).trace, e.path, e.intent);
      }
    }
  }

  /** The preflight of one entry. */
  lemma EntryWatched(w: World, t: Trace, e: Entry)
    requires Watched(t)
    ensures Watched(AccessEntry(w, t, e).trace)
  {
    hide Watched, Check, GateVolume, Evaluated;
    var c := Check(w, t);
    PollWatched(w, t, []);
    if c.Go? {
      var g := GateVolume(w, c.trace, e.path, e.intent, e.volume);
      GateWatched(w, c.trace, e.path, e.intent, e.volume);
      PollWatched(w, g.trace, []);
      var c2 := Check(w, g.trace);
      if g.Go? && c2.Go? {
        Append(c2.trace, Refresh(w.refreshes(|c2.trace|)));
        var f := RefreshPermissions(w, c2.trace);
        PollWatched(w, f.trace, []);
        var c3 := Check(w, f.trace);
        if f.Go? && c3.Go? {
          EvaluatedWatched(w, c3.trace, e);
          EntryEndsEvaluated(w, t, e, c3.trace);
        }
      }
    }
  }

  lemma EntryEndsEvaluated(w: World, t: Trace, e: Entry, t3: Trace)
    requires Check(w, t).Go?
    requires var g := GateVolume(w, Check(w, t).trace, e.path, e.intent, e.volume);
             && g.Go? && Check(w, g.trace).Go?
             && var f := RefreshPermissions(w, Check(w, g.trace).trace);
                f.Go? && Check(w, f.trace).Go? && t3 == Check(w, f.trace).trace
    ensures AccessEntry(w, t, e) == Evaluated(w, t3, e)
  {
    hide Check, GateVolume, RefreshPermissions, RetainedAccess;
  }

  /** Whatever the entries and the surroundings, every effect of the loop stands behind a
      passed poll and in front of another one, or of the releases of a failing loop. */
  lemma {:induction false} LoopIsWatched(w: World, t: Trace, entries: seq<Entry>, guards: seq<Guard>)
    requires Watched(t)
    ensures Watched(AccessFrom(w, t, entries, guards).trace)
    decreases |entries|
  {
    hide Watched, CheckHolding, AccessEntry;
    PollWatched(w, t, Handles(guards));
    var c := CheckHolding(w, t, Handles(guards));
    if c.Go? && entries != [] {
      var r := AccessEntry(w, c.trace, entries[0]);
      EntryWatched(w, c.trace, entries[0]);
      AppendReleases(r.trace, Handles(guards));
      if r.Go? {
        LoopIsWatched(w, r.trace, entries[1..], guards + [r.value]);
      }
    }
  }
}
