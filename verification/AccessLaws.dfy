// What the access protocol guarantees against every adversary: conservation of
// started accesses, all-or-nothing acquisition, and what a guard is worth.
module AccessLaws {
  import opened Text
  import opened Intents
  import opened Paths
  import opened Access

  // ----- Held accesses -----

  /** The handles started and not yet released. */
  function Held(t: Trace): set<nat> {
    if t == [] then {} else After(Held(t[..|t| - 1]), t[|t| - 1])
  }

  function After(held: set<nat>, e: Event): set<nat> {
    if e.Started? then held + {e.handle}
    else if e.Released? then held - {e.handle}
    else held
  }

  function HandleSet(handles: seq<nat>): set<nat> { set h | h in handles }

  lemma HeldSnoc(t: Trace, e: Event)
    ensures Held(t + [e]) == After(Held(t), e)
  {
    assert (t + [e])[..|t + [e]| - 1] == t;
  }

  lemma {:induction false} HeldReleases(t: Trace, handles: seq<nat>)
    ensures Held(t + Releases(handles)) == Held(t) - HandleSet(handles)
    decreases |handles|
  {
    hide Held;
    if handles == [] {
      assert t + Releases(handles) == t;
      assert HandleSet(handles) == {};
    } else {
      var h, rest := handles[0], handles[1..];
      HeldSnoc(t, Released(h));
      HeldReleases(t + [Released(h)], rest);
      assert t + ([Released(h)] + Releases(rest)) == (t + [Released(h)]) + Releases(rest);
      assert HandleSet(handles) == {h} + HandleSet(rest) by {
        assert forall x :: x in handles <==> x == h || x in rest;
      }
      assert (Held(t) - {h}) - HandleSet(rest) == Held(t) - ({h} + HandleSet(rest));
    }
  }

  /** Handles are named by the position of their start, so a new one is new. */
  predicate Bounded(t: Trace) {
    forall h :: h in Held(t) ==> h < |t|
  }

  /** A step that changes nothing held. */
  predicate Quiet(t: Trace, t': Trace) {
    t <= t' && Held(t') == Held(t)
  }

  lemma CheckIsQuiet(w: World, t: Trace)
    ensures Quiet(t, Check(w, t).trace)
  {
    HeldSnoc(t, Poll(w.allow(|t|)));
  }

  lemma DiscoverIsQuiet(w: World, t: Trace, path: Path)
    ensures Quiet(t, DiscoverVolume(w, t, path).trace)
  {
    HeldSnoc(t, Discover(path, w.discovers(path, |t|)));
  }

  lemma GateIsQuiet(w: World, t: Trace, path: Path, intent: Intent, v: Option<Volume>)
    ensures Quiet(t, GateVolume(w, t, path, intent, v).trace)
  {
    hide Held, VolumeBlock, ConsultsRoot;
    HeldSnoc(t, Evaluate(path, intent));
    var t1 := if ConsultsRoot(v, intent) then t + [Evaluate(path, intent)] else t;
    HeldSnoc(t1, Gate(path, intent, true));
    HeldSnoc(t1, Gate(path, intent, false));
  }

  lemma RefreshIsQuiet(w: World, t: Trace)
    ensures Quiet(t, RefreshPermissions(w, t).trace)
  {
    HeldSnoc(t, Refresh(w.refreshes(|t|)));
  }

  lemma CheckHoldingLaw(w: World, t: Trace, held: seq<nat>)
    ensures var r := CheckHolding(w, t, held);
            && t <= r.trace
            && Held(r.trace) == if r.Go? then Held(t) else Held(t) - HandleSet(held)
  {
    HeldSnoc(t, Poll(true));
    HeldSnoc(t, Poll(false));
    HeldReleases(t + [Poll(false)], held);
  }

  /** A step that may start accesses: on success it holds exactly the handles it
      returns on top of what was held, on failure nothing more. */
  predicate Acquires(t: Trace, t': Trace, go: bool, handles: seq<nat>) {
    && t <= t'
    && (go ==> Held(t') == Held(t) + HandleSet(handles))
    && (go ==> forall h :: h in handles ==> |t| <= h < |t'|)
    && (!go ==> Held(t') == Held(t))
  }

  lemma StartAccessLaw(w: World, t: Trace, path: Path, readOnly: bool)
    requires Bounded(t)
    ensures var r := StartAccess(w, t, path, readOnly);
            Acquires(t, r.trace, r.Go?, if r.Go? then r.value.1 else [])
    ensures var r := StartAccess(w, t, path, readOnly);
            r.Go? ==> |r.value.1| <= 1 && (r.value.0.Access? && r.value.0.started <==> |r.value.1| == 1)
  {
    hide Held, Check, CheckHolding;
    CheckIsQuiet(w, t);
    if Check(w, t).Go? {
      var t1 := Check(w, t).trace;
      var b := w.bookmark(path, readOnly, |t1|);
      var looked := t1 + [Lookup(path, readOnly)];
      HeldSnoc(t1, Lookup(path, readOnly));
      CheckIsQuiet(w, looked);
      var t2 := Check(w, looked).trace;
      if Check(w, looked).Go? && b.Access? {
        if b.started {
          StartedLaw(w, t, t2);
        } else {
          CheckHoldingLaw(w, t2, []);
          assert HandleSet([]) == {};
        }
      } else {
        assert HandleSet([]) == {};
      }
    }
  }

  lemma StartedLaw(w: World, t: Trace, t2: Trace)
    requires Bounded(t) && Quiet(t, t2)
    ensures var t3 := t2 + [Started(|t2|)];
            var c := CheckHolding(w, t3, [|t2|]);
            Acquires(t, c.trace, c.Go?, [|t2|])
  {
    hide Held;
    var h := |t2|;
    var t3 := t2 + [Started(h)];
    HeldSnoc(t2, Started(h));
    CheckHoldingLaw(w, t3, [h]);
    assert HandleSet([h]) == {h};
    assert h !in Held(t);
    assert Held(t) + {h} - {h} == Held(t);
    var c := CheckHolding(w, t3, [h]);
    assert t <= c.trace;
    assert |t3| <= |c.trace|;
  }

  lemma DropLaw(t: Trace, t1: Trace, handles: seq<nat>)
    requires Bounded(t) && Acquires(t, t1, true, handles)
    ensures Held(t1) - HandleSet(handles) == Held(t)
    ensures Held(t1 + Releases(handles)) == Held(t)
  {
    HeldReleases(t1, handles);
    assert forall h :: h in HandleSet(handles) ==> h !in Held(t);
  }

  /** The bookmark part of a retained access, after the store's own preflight. */
  function StartAndVet(w: World, t: Trace, path: Path, intent: Intent): Out<seq<nat>> {
    var (t, found) :- StartAccess(w, t, path, intent.ReadOnly());
    var (t, _) :- CheckHolding(w, t, found.1);
    match found.0
    case Access(stale, started) =>
      if stale || !started then Fail(t + Releases(found.1), PermissionDenied)
      else
        var (t, _) :- CheckHolding(w, t, found.1);
        Go(t, found.1)
    case _ => Fail(t, PermissionDenied)
  }

  /** A retained access from the discovery of the bookmark store on. */
  function StorePart(w: World, t: Trace, path: Path, intent: Intent): Out<seq<nat>> {
    var (t, v) :- DiscoverVolume(w, t, BOOKMARK_STORE);
    var (t, _) :- Check(w, t);
    var (t, _) :- GateVolume(w, t, BOOKMARK_STORE, Read, v);
    var (t, _) :- Check(w, t);
    StartAndVet(w, t, path, intent)
  }

  lemma RetainedAccessLaw(w: World, t: Trace, path: Path, intent: Intent)
    requires Bounded(t)
    ensures var r := RetainedAccess(w, t, path, intent);
            Acquires(t, r.trace, r.Go?, if r.Go? then r.value else [])
  {
    hide Check, DiscoverVolume, GateVolume, StartAccess, CheckHolding, Held;
    CheckIsQuiet(w, t);
    if Check(w, t).Go? {
      var t1 := Check(w, t).trace;
      CheckIsQuiet(w, t1);
      if Check(w, t1).Go? {
        StorePartLaw(w, Check(w, t1).trace, path, intent);
      }
    }
  }

  lemma StorePartLaw(w: World, t: Trace, path: Path, intent: Intent)
    requires Bounded(t)
    ensures var r := StorePart(w, t, path, intent);
            Acquires(t, r.trace, r.Go?, if r.Go? then r.value else [])
  {
    hide Check, DiscoverVolume, GateVolume, StartAndVet, Held;
    DiscoverIsQuiet(w, t, BOOKMARK_STORE);
    var d := DiscoverVolume(w, t, BOOKMARK_STORE);
    if d.Go? {
      CheckIsQuiet(w, d.trace);
      if Check(w, d.trace).Go? {
        var t3 := Check(w, d.trace).trace;
        GateIsQuiet(w, t3, BOOKMARK_STORE, Read, d.value);
        var g := GateVolume(w, t3, BOOKMARK_STORE, Read, d.value);
        if g.Go? {
          CheckIsQuiet(w, g.trace);
          if Check(w, g.trace).Go? {
            RetainedTail(w, Check(w, g.trace).trace, path, intent);
          }
        }
      }
    }
  }

  lemma RetainedTail(w: World, t: Trace, path: Path, intent: Intent)
    requires Bounded(t)
    ensures var r := StartAndVet(w, t, path, intent);
            Acquires(t, r.trace, r.Go?, if r.Go? then r.value else [])
  {
    hide StartAccess, CheckHolding, Held;
    StartAccessLaw(w, t, path, intent.ReadOnly());
    var s := StartAccess(w, t, path, intent.ReadOnly());
    if s.Go? {
      var handles := s.value.1;
      CheckHoldingLaw(w, s.trace, handles);
      DropLaw(t, s.trace, handles);
      var c := CheckHolding(w, s.trace, handles);
      if c.Go? {
        CheckHoldingLaw(w, c.trace, handles);
        DropLaw(t, c.trace, handles);
        assert HandleSet([]) == {};
      }
    }
  }

  lemma AccessEntryLaw(w: World, t: Trace, e: Entry)
    requires Bounded(t)
    ensures var r := AccessEntry(w, t, e);
            Acquires(t, r.trace, r.Go?, if r.Go? then r.value.handles else [])
    ensures AccessEntry(w, t, e).Go? ==> AccessEntry(w, t, e).value.path == e.path
  {
    hide Check, GateVolume, RefreshPermissions, RetainedAccess, Held;
    CheckIsQuiet(w, t);
    if Check(w, t).Go? {
      var t1 := Check(w, t).trace;
      GateIsQuiet(w, t1, e.path, e.intent, e.volume);
      var g := GateVolume(w, t1, e.path, e.intent, e.volume);
      if g.Go? {
        CheckIsQuiet(w, g.trace);
        if Check(w, g.trace).Go? {
          var t2 := Check(w, g.trace).trace;
          RefreshIsQuiet(w, t2);
          var f := RefreshPermissions(w, t2);
          if f.Go? {
            CheckIsQuiet(w, f.trace);
            if Check(w, f.trace).Go? {
              var t3 := Check(w, f.trace).trace;
              HeldSnoc(t3, Evaluate(e.path, e.intent));
              var t4 := t3 + [Evaluate(e.path, e.intent)];
              CheckIsQuiet(w, t4);
              if Check(w, t4).Go? {
                var t5 := Check(w, t4).trace;
                CheckIsQuiet(w, t5);
                assert HandleSet([]) == {};
                if Check(w, t5).Go? {
                  RetainedAccessLaw(w, Check(w, t5).trace, e.path, e.intent);
                }
              }
            }
          }
        }
      }
    }
  }

  lemma {:induction false} HandlesSnoc(guards: seq<Guard>, g: Guard)
    ensures Handles(guards + [g]) == Handles(guards) + g.handles
  {
    if guards == [] {
      assert guards + [g] == [g] && [g][1..] == [];
    } else {
      assert (guards + [g])[1..] == guards[1..] + [g];
      HandlesSnoc(guards[1..], g);
    }
  }

  /** What the loop maintains: the guards taken so far hold exactly what is held
      beyond the handles the caller already had. */
  predicate Owns(base: set<nat>, t: Trace, guards: seq<Guard>) {
    && Bounded(t) && Held(t) == base + HandleSet(Handles(guards)) && base !! HandleSet(Handles(guards))
  }

  lemma {:induction false} AccessFromLaw(w: World, t: Trace, entries: seq<Entry>, guards: seq<Guard>, base: set<nat>)
    requires Owns(base, t, guards)
    ensures
      var r := AccessFrom(w, t, entries, guards);
      && t <= r.trace
      && (r.Fail? ==> Held(r.trace) == base)
      && (r.Go? ==>
            && Held(r.trace) == base + HandleSet(Handles(r.value))
            && |r.value| == |guards| + |entries| && guards <= r.value
            && forall i :: 0 <= i < |entries| ==> r.value[|guards| + i].path == entries[i].path)
    decreases |entries|
  {
    hide CheckHolding, AccessEntry, Held, Handles;
    CheckHoldingLaw(w, t, Handles(guards));
    var c := CheckHolding(w, t, Handles(guards));
    if c.Go? && entries != [] {
      AccessEntryLaw(w, c.trace, entries[0]);
      var a := AccessEntry(w, c.trace, entries[0]);
      if a.Fail? {
        HeldReleases(a.trace, Handles(guards));
      } else {
        HandlesSnoc(guards, a.value);
        var more := guards + [a.value];
        assert HandleSet(Handles(more)) == HandleSet(Handles(guards)) + HandleSet(a.value.handles);
        AccessFromLaw(w, a.trace, entries[1..], more, base);
        var r := AccessFrom(w, a.trace, entries[1..], more);
        if r.Go? {
          forall i | 0 <= i < |entries| ensures r.value[|guards| + i].path == entries[i].path {
            if i > 0 {
              assert r.value[|more| + (i - 1)].path == entries[1..][i - 1].path;
            } else {
              assert more[|guards|] == a.value;
            }
          }
        }
      }
    }
  }

  /** For any entries and any adversary the access loop either returns one guard
      per entry, in order, holding exactly the accesses of those guards, or fails
      holding nothing: every access it started has been released. */
  lemma AccessAllOrNothing(w: World, t: Trace, entries: seq<Entry>)
    requires Bounded(t)
    ensures
      var r := AccessAll(w, t, entries);
      && t <= r.trace
      && (r.Fail? ==> Held(r.trace) == Held(t))
      && (r.Go? ==>
            && Held(r.trace) == Held(t) + HandleSet(Handles(r.value))
            && |r.value| == |entries| && forall i :: 0 <= i < |entries| ==> r.value[i].path == entries[i].path)
  {
    hide Held, AccessFrom;
    assert HandleSet([]) == {};
    AccessFromLaw(w, t, entries, [], Held(t));
  }

  // ----- What a gate is worth -----

  /** A volume on which the path may be touched for the intent: mounted, reachable,
      its interfaces answering, and not read-only for a write or an operation unless
      it is the system root and the evaluation of the path allows it. */
  predicate Usable(v: Volume, intent: Intent, rootAllows: bool) {
    && v.mounted && v.reachable != Some(false) && v.apiAvailable
    && (intent in {Write, Operate} && v.readOnly ==> v.isSystemRoot && rootAllows)
  }

  /** A gate passes if and only if there is no containing volume or it is usable, as
      evaluated where the gate stands. */
  lemma GatePassesIff(w: World, t: Trace, path: Path, intent: Intent, v: Option<Volume>)
    ensures GateVolume(w, t, path, intent, v).Go? <==>
            v.None? || Usable(v.value, intent, w.evaluate(path, intent, |t|).action == Allow)
    ensures GateVolume(w, t, path, intent, v).Fail? ==> GateVolume(w, t, path, intent, v).error == PermissionDenied
  {
  }

  /** Which block is named: the first of the four that applies. */
  lemma BlockIsNamed(v: Volume, intent: Intent, rootAllows: bool)
    ensures var b := VolumeBlock(Some(v), intent, rootAllows);
            && (b == Some(Unmounted) <==> !v.mounted)
            && (b == Some(Unreachable) <==> v.mounted && v.reachable == Some(false))
            && (b == Some(ApiUnavailable) <==> v.mounted && v.reachable != Some(false) && !v.apiAvailable)
            && (b == Some(ReadOnlyVolume) <==>
                  v.mounted && v.reachable != Some(false) && v.apiAvailable
                  && intent in {Write, Operate} && v.readOnly && !(v.isSystemRoot && rootAllows))
            && (b == None <==> Usable(v, intent, rootAllows))
    ensures VolumeBlock(None, intent, rootAllows) == None
  {
  }

  // ----- What a guard is worth -----

  /** The effects added between two traces hold no failed poll. */
  predicate Passing(t: Trace, t': Trace) {
    t <= t' && forall i :: |t| <= i < |t'| ==> t'[i] != Poll(false)
  }

  lemma StepsAreClean(w: World, t: Trace, path: Path, intent: Intent, v: Option<Volume>, held: seq<nat>)
    ensures Check(w, t).Go? ==> Passing(t, Check(w, t).trace)
    ensures CheckHolding(w, t, held).Go? ==> Passing(t, CheckHolding(w, t, held).trace)
    ensures DiscoverVolume(w, t, path).Go? ==> Passing(t, DiscoverVolume(w, t, path).trace)
    ensures RefreshPermissions(w, t).Go? ==>
              var f := RefreshPermissions(w, t).trace;
              Passing(t, f) && |f| > |t| && f[|t|] == Refresh(true)
    ensures GateVolume(w, t, path, intent, v).Go? ==>
              var g := GateVolume(w, t, path, intent, v).trace;
              Passing(t, g) && |g| > |t| && g[|g| - 1] == Gate(path, intent, false)
  {
  }

  predicate StartedFor(w: World, from: nat, t: Trace, path: Path, readOnly: bool, handle: nat, look: nat) {
    && from <= look < handle < |t| && t[look] == Lookup(path, readOnly)
    && w.bookmark(path, readOnly, look) == Access(false, true) && t[handle] == Started(handle)
  }

  /** The bookmark store itself was gated before the lookup. */
  predicate StoreGated(from: nat, t: Trace, store: nat, look: nat) {
    from <= store < look && store < |t| && t[store] == Gate(BOOKMARK_STORE, Read, false)
  }

  lemma VettedAccess(w: World, t: Trace, path: Path, intent: Intent) returns (look: nat)
    requires StartAndVet(w, t, path, intent).Go?
    ensures var r := StartAndVet(w, t, path, intent);
            && Passing(t, r.trace) && |r.value| == 1
            && StartedFor(w, |t|, r.trace, path, intent.ReadOnly(), r.value[0], look)
  {
    var t1 := Check(w, t).trace;
    look := |t1|;
    assert Passing(t, t1);
  }

  lemma CleanJoin(t: Trace, t': Trace, t'': Trace)
    requires Passing(t, t') && Passing(t', t'')
    ensures Passing(t, t'')
  {
    forall i | |t| <= i < |t''| ensures t''[i] != Poll(false) {
      assert i < |t'| ==> t''[i] == t'[i];
    }
  }

  lemma CleanGrows(t: Trace, t': Trace)
    requires Passing(t, t')
    ensures t <= t' && |t| <= |t'|
  {
  }

  lemma RetainedVetted(w: World, t: Trace, path: Path, intent: Intent) returns (store: nat, look: nat)
    requires RetainedAccess(w, t, path, intent).Go?
    ensures StoreGated(|t|, RetainedAccess(w, t, path, intent).trace, store, look)
    ensures var r := RetainedAccess(w, t, path, intent);
            && Passing(t, r.trace) && |r.value| == 1
            && StartedFor(w, |t|, r.trace, path, intent.ReadOnly(), r.value[0], look)
  {
    hide Check, DiscoverVolume, GateVolume, StartAccess, CheckHolding, Passing, StartedFor;
    var t1 := Check(w, t).trace;
    var t2 := Check(w, t1).trace;
    var d := DiscoverVolume(w, t2, BOOKMARK_STORE);
    var t3 := Check(w, d.trace).trace;
    var g := GateVolume(w, t3, BOOKMARK_STORE, Read, d.value);
    var t4 := Check(w, g.trace).trace;
    assert Passing(t, t4) by {
      StepsAreClean(w, t, path, intent, None, []);
      StepsAreClean(w, t1, path, intent, None, []);
      CleanJoin(t, t1, t2);
      StepsAreClean(w, t2, BOOKMARK_STORE, intent, None, []);
      CleanJoin(t, t2, d.trace);
      StepsAreClean(w, d.trace, path, intent, None, []);
      CleanJoin(t, d.trace, t3);
      StepsAreClean(w, t3, BOOKMARK_STORE, Read, d.value, []);
      CleanJoin(t, t3, g.trace);
      StepsAreClean(w, g.trace, path, intent, None, []);
      CleanJoin(t, g.trace, t4);
    }
    assert |t| <= |t3| < |g.trace| <= |t4| && g.trace <= t4
           && g.trace[|g.trace| - 1] == Gate(BOOKMARK_STORE, Read, false) by {
      StepsAreClean(w, t, path, intent, None, []);
      StepsAreClean(w, t1, path, intent, None, []);
      StepsAreClean(w, t2, BOOKMARK_STORE, intent, None, []);
      StepsAreClean(w, d.trace, path, intent, None, []);
      StepsAreClean(w, t3, BOOKMARK_STORE, Read, d.value, []);
      StepsAreClean(w, g.trace, path, intent, None, []);
      CleanGrows(t, t1);
      CleanGrows(t1, t2);
      CleanGrows(t2, d.trace);
      CleanGrows(d.trace, t3);
      CleanGrows(g.trace, t4);
    }
    look := VettedAccess(w, t4, path, intent);
    store := |g.trace| - 1;
    var r := RetainedAccess(w, t, path, intent);
    assert |t4| <= look && t4 <= r.trace by {
      StartedAfter(w, |t4|, r.trace, path, intent.ReadOnly(), r.value[0], look);
      CleanGrows(t4, r.trace);
    }
    CleanJoin(t, t4, r.trace);
    StartedEarlier(w, |t|, |t4|, r.trace, path, intent.ReadOnly(), r.value[0], look);
  }

  lemma StartedAfter(w: World, from: nat, t: Trace, path: Path, readOnly: bool, handle: nat, look: nat)
    requires StartedFor(w, from, t, path, readOnly, handle, look)
    ensures from <= look
  {
  }

  lemma StartedEarlier(w: World, from: nat, later: nat, t: Trace, path: Path, readOnly: bool, handle: nat, look: nat)
    requires from <= later && StartedFor(w, later, t, path, readOnly, handle, look)
    ensures StartedFor(w, from, t, path, readOnly, handle, look)
  {
  }

  /** The volume was usable where the gate stands; for a read-only system root that is
      an evaluation right before it. */
  predicate UsableAt(w: World, t: Trace, e: Entry, v: Volume, gate: nat)
    requires gate < |t|
  {
    && v.mounted && v.reachable != Some(false) && v.apiAvailable
    && (e.intent in {Write, Operate} && v.readOnly ==>
          && v.isSystemRoot && gate > 0 && t[gate - 1] == Evaluate(e.path, e.intent)
          && w.evaluate(e.path, e.intent, gate - 1).action == Allow)
  }

  /** The positions at which a grant passed its gate, its refresh and its
      evaluation, in this order, and what the evaluation demanded. */
  predicate GrantedAt(w: World, from: nat, t: Trace, e: Entry, handles: seq<nat>, gate: nat, refresh: nat, eval: nat,
                      store: nat, look: nat) {
    && from <= gate < refresh < eval < |t|
    && t[gate] == Gate(e.path, e.intent, false) && t[refresh] == Refresh(true) && t[eval] == Evaluate(e.path, e.intent)
    && w.evaluate(e.path, e.intent, eval).action == Allow
    && (e.volume.Some? ==> UsableAt(w, t, e, e.volume.value, gate))
    && (if w.evaluate(e.path, e.intent, eval).bookmarkRequired
        then |handles| == 1 && StoreGated(eval, t, store, look)
             && StartedFor(w, eval, t, e.path, e.intent !in {Write, Operate}, handles[0], look)
        else handles == [])
  }

  /** The preflight of one entry from its evaluation on. */
  function Evaluated(w: World, t: Trace, e: Entry): Out<Guard> {
    var evaluation := w.evaluate(e.path, e.intent, |t|);
    var t := t + [Evaluate(e.path, e.intent)];
    var (t, _) :- Check(w, t);
    if evaluation.action != Allow then Fail(t, PermissionDenied)
    else if !evaluation.bookmarkRequired then Go(t, Guard(e.path, []))
    else
      var (t, _) :- Check(w, t);
      var (t, handles) :- RetainedAccess(w, t, e.path, e.intent);
      Go(t, Guard(e.path, handles))
  }

  lemma GateUsable(w: World, t: Trace, e: Entry)
    requires GateVolume(w, t, e.path, e.intent, e.volume).Go? && e.volume.Some?
    ensures var g := GateVolume(w, t, e.path, e.intent, e.volume).trace;
            UsableAt(w, g, e, e.volume.value, |g| - 1)
  {
  }

  lemma UsableStays(w: World, t: Trace, t': Trace, e: Entry, v: Volume, gate: nat)
    requires gate < |t| && t <= t' && UsableAt(w, t, e, v, gate)
    ensures UsableAt(w, t', e, v, gate)
  {
    assert gate > 0 ==> t'[gate - 1] == t[gate - 1];
  }

  /** A guard is granted only after the volume gate passed, the permissions were
      refreshed and the evaluation allowed the path, in that order, with no failed
      poll anywhere; and where a bookmark is required it holds exactly one started,
      non-stale access whose mode fits the intent, looked up behind a passing gate of
      the bookmark store. */
  lemma GuardIsEarned(w: World, t: Trace, e: Entry) returns (gate: nat, refresh: nat, eval: nat, store: nat, look: nat)
    requires AccessEntry(w, t, e).Go?
    ensures Passing(t, AccessEntry(w, t, e).trace)
    ensures GrantedAt(w, |t|, AccessEntry(w, t, e).trace, e, AccessEntry(w, t, e).value.handles,
                      gate, refresh, eval, store, look)
  {
    hide Check, GateVolume, RefreshPermissions, RetainedAccess;
    var t1 := Check(w, t).trace;
    var g := GateVolume(w, t1, e.path, e.intent, e.volume);
    var t2 := Check(w, g.trace).trace;
    var f := RefreshPermissions(w, t2);
    var t3 := Check(w, f.trace).trace;
    refresh, eval := |t2|, |t3|;
    var r := AccessEntry(w, t, e);
    assert r == Evaluated(w, t3, e);
    store, look := EvaluatedVetted(w, t3, e);
    StepsAreClean(w, t, e.path, e.intent, None, []);
    StepsAreClean(w, t1, e.path, e.intent, e.volume, []);
    gate := |g.trace| - 1;
    assert Passing(g.trace, t2) && Passing(t2, f.trace) && |f.trace| > |t2| && f.trace[refresh] == Refresh(true)
        && Passing(f.trace, t3) by {
      StepsAreClean(w, g.trace, e.path, e.intent, None, []);
      StepsAreClean(w, t2, e.path, e.intent, None, []);
      StepsAreClean(w, f.trace, e.path, e.intent, None, []);
    }
    if e.volume.Some? {
      GateUsable(w, t1, e);
    }
    hide Evaluated, AccessEntry, UsableAt;
    CleanJoin(t, t1, g.trace);
    CleanJoin(t, g.trace, t2);
    CleanJoin(t, t2, f.trace);
    CleanJoin(t, f.trace, t3);
    CleanJoin(t, t3, r.trace);
    assert |t| <= |t1| && g.trace <= r.trace;
    if e.volume.Some? {
      UsableStays(w, g.trace, r.trace, e, e.volume.value, gate);
    }
    assert r.trace[gate] == g.trace[gate] && r.trace[refresh] == f.trace[refresh];
  }

  /** The part of a grant from its evaluation on. */
  lemma EvaluatedVetted(w: World, t: Trace, e: Entry) returns (store: nat, look: nat)
    requires Evaluated(w, t, e).Go?
    ensures var r, ev := Evaluated(w, t, e), w.evaluate(e.path, e.intent, |t|);
            && Passing(t, r.trace) && ev.action == Allow
            && |t| < |r.trace| && r.trace[|t|] == Evaluate(e.path, e.intent)
            && (if ev.bookmarkRequired
                then |r.value.handles| == 1 && StoreGated(|t|, r.trace, store, look)
                     && StartedFor(w, |t|, r.trace, e.path, e.intent.ReadOnly(), r.value.handles[0], look)
                else r.value.handles == [])
  {
    hide Check, RetainedAccess, StartedFor;
    var ev, t1 := w.evaluate(e.path, e.intent, |t|), t + [Evaluate(e.path, e.intent)];
    var t2, r := Check(w, t1).trace, Evaluated(w, t, e);
    store, look := 0, 0;
    assert Passing(t, t1);
    StepsAreClean(w, t1, e.path, e.intent, None, []);
    CleanJoin(t, t1, t2);
    if ev.bookmarkRequired {
      var t3 := Check(w, t2).trace;
      StepsAreClean(w, t2, e.path, e.intent, None, []);
      store, look := RetainedVetted(w, t3, e.path, e.intent);
      CleanJoin(t1, t2, t3);
      CleanJoin(t1, t3, r.trace);
      CleanJoin(t, t1, r.trace);
      StartedEarlier(w, |t|, |t3|, r.trace, e.path, e.intent.ReadOnly(), r.value.handles[0], look);
    }
    assert r.trace[|t|] == t1[|t|];
  }

  // ----- When the loop goes through -----

  /** The surroundings of one entry refuse nothing: its volume is usable, its path is
      allowed, and where a bookmark is required a fresh access starts. */
  ghost predicate Grants(w: World, e: Entry) {
    && (e.volume.Some? ==>
          forall n :: Usable(e.volume.value, e.intent, w.evaluate(e.path, e.intent, n).action == Allow))
    && (forall n :: w.evaluate(e.path, e.intent, n).action == Allow)
    && (var readOnly := e.intent !in {Write, Operate};
        forall n :: w.bookmark(e.path, readOnly, n) == Access(false, true))
  }

  /** No poll fails, the bookmark store is on a usable volume, and permissions refresh. */
  ghost predicate Calm(w: World) {
    && (forall n :: w.allow(n) && w.refreshes(n) && w.discovers(BOOKMARK_STORE, n))
    && forall n :: w.volumeOf(BOOKMARK_STORE, n).Some? ==> Usable(w.volumeOf(BOOKMARK_STORE, n).value, Read, false)
  }

  lemma CalmRetains(w: World, t: Trace, e: Entry)
    requires Calm(w) && Grants(w, e)
    ensures RetainedAccess(w, t, e.path, e.intent).Go?
  {
    hide VolumeBlock, ConsultsRoot;
    var t1 := t + [Poll(true)] + [Poll(true)];
    var v := w.volumeOf(BOOKMARK_STORE, |t1|);
    var t2 := t1 + [Discover(BOOKMARK_STORE, true)] + [Poll(true)];
    GatePassesIff(w, t2, BOOKMARK_STORE, Read, v);
  }

  lemma CalmGrants(w: World, t: Trace, e: Entry)
    requires Calm(w) && Grants(w, e)
    ensures AccessEntry(w, t, e).Go?
  {
    hide GateVolume, RetainedAccess, Usable;
    var t1 := t + [Poll(true)];
    GatePassesIff(w, t1, e.path, e.intent, e.volume);
    assert Check(w, t) == Go(t1, ());
    var g := GateVolume(w, t1, e.path, e.intent, e.volume).trace;
    var t2 := g + [Poll(true)] + [Refresh(true)] + [Poll(true)] + [Evaluate(e.path, e.intent)] + [Poll(true)];
    CalmRetains(w, t2 + [Poll(true)], e);
  }

  /** Where nothing is refused, every entry is granted. */
  lemma {:induction false} CalmLoopGoes(w: World, t: Trace, entries: seq<Entry>, guards: seq<Guard>)
    requires Calm(w) && forall e :: e in entries ==> Grants(w, e)
    ensures AccessFrom(w, t, entries, guards).Go?
    decreases |entries|
  {
    hide AccessEntry, Grants;
    if entries != [] {
      var t1 := t + [Poll(true)];
      CalmGrants(w, t1, entries[0]);
      var a := AccessEntry(w, t1, entries[0]);
      CalmLoopGoes(w, a.trace, entries[1..], guards + [a.value]);
    }
  }

  // ----- Failing at the first bad entry -----

  /** The trace and guards after all of these entries have been granted. */
  function AfterGrants(w: World, t: Trace, entries: seq<Entry>, guards: seq<Guard>): Option<(Trace, seq<Guard>)>
    decreases |entries|
  {
    if entries == [] then Some((t, guards))
    else
      match CheckHolding(w, t, Handles(guards))
      case Fail(_, _) => None
      case Go(t, _) =>
        match AccessEntry(w, t, entries[0])
        case Fail(_, _) => None
        case Go(t, guard) => AfterGrants(w, t, entries[1..], guards + [guard])
  }

  /** The only effects on an entry's own path. */
  predicate TouchesOnly(t: Trace, t': Trace, path: Option<Path>) {
    t <= t' && forall i :: |t| <= i < |t'| && (t'[i].Evaluate? || t'[i].Lookup?) ==> Some(t'[i].path) == path
  }

  lemma {:induction false} ReleasesTouchNothing(handles: seq<nat>)
    ensures forall e :: e in Releases(handles) ==> e.Released?
  {
    if handles != [] {
      ReleasesTouchNothing(handles[1..]);
    }
  }

  lemma AppendReleases(t: Trace, t': Trace, handles: seq<nat>, path: Option<Path>)
    requires TouchesOnly(t, t', path)
    ensures TouchesOnly(t, t' + Releases(handles), path)
  {
    ReleasesTouchNothing(handles);
    var r := Releases(handles);
    forall i | |t'| <= i < |t' + r| ensures (t' + r)[i].Released? {
      assert (t' + r)[i] == r[i - |t'|];
      assert r[i - |t'|] in r;
    }
  }

  lemma CheckHoldingTouchesNothing(w: World, t: Trace, held: seq<nat>)
    ensures TouchesOnly(t, CheckHolding(w, t, held).trace, None)
  {
    AppendReleases(t, t + [Poll(false)], held, None);
  }

  lemma TouchesJoin(t: Trace, t': Trace, t'': Trace, path: Option<Path>)
    requires TouchesOnly(t, t', path) && TouchesOnly(t', t'', path)
    ensures TouchesOnly(t, t'', path)
  {
    forall i | |t| <= i < |t''| && (t''[i].Evaluate? || t''[i].Lookup?) ensures Some(t''[i].path) == path {
      assert i < |t'| ==> t''[i] == t'[i];
    }
  }

  lemma TouchesNothing(t: Trace, t': Trace, path: Option<Path>)
    requires TouchesOnly(t, t', None)
    ensures TouchesOnly(t, t', path)
  {
  }

  lemma CheckTouches(w: World, t: Trace, path: Option<Path>)
    ensures TouchesOnly(t, Check(w, t).trace, path)
  {
  }

  lemma GateTouches(w: World, t: Trace, path: Path, intent: Intent, v: Option<Volume>)
    ensures TouchesOnly(t, GateVolume(w, t, path, intent, v).trace,
                        if ConsultsRoot(v, intent) then Some(path) else None)
  {
    hide VolumeBlock, ConsultsRoot;
  }

  lemma StartTouches(w: World, t: Trace, path: Path, readOnly: bool)
    ensures TouchesOnly(t, StartAccess(w, t, path, readOnly).trace, Some(path))
  {
    hide Check, CheckHolding;
    CheckTouches(w, t, Some(path));
    if Check(w, t).Go? {
      var t1 := Check(w, t).trace + [Lookup(path, readOnly)];
      assert TouchesOnly(t, t1, Some(path));
      CheckTouches(w, t1, Some(path));
      var t2 := Check(w, t1).trace;
      TouchesJoin(t, t1, t2, Some(path));
      CheckHoldingTouchesNothing(w, t2, []);
      CheckHoldingTouchesNothing(w, t2 + [Started(|t2|)], [|t2|]);
    }
  }

  lemma VetTouches(w: World, t: Trace, path: Path, intent: Intent)
    ensures TouchesOnly(t, StartAndVet(w, t, path, intent).trace, Some(path))
  {
    hide StartAccess, CheckHolding;
    StartTouches(w, t, path, intent.ReadOnly());
    var s := StartAccess(w, t, path, intent.ReadOnly());
    if s.Go? {
      var handles := s.value.1;
      CheckHoldingTouchesNothing(w, s.trace, handles);
      var c := CheckHolding(w, s.trace, handles);
      AppendReleases(t, c.trace, handles, Some(path));
      CheckHoldingTouchesNothing(w, c.trace, handles);
    }
  }

  lemma RetainedTouches(w: World, t: Trace, path: Path, intent: Intent)
    ensures TouchesOnly(t, RetainedAccess(w, t, path, intent).trace, Some(path))
  {
    hide Check, DiscoverVolume, GateVolume, StartAccess, CheckHolding, TouchesOnly;
    var own := Some(path);
    var c := Check(w, t);
    CheckTouches(w, t, own);
    if c.Go? {
      CheckTouches(w, c.trace, own);
      TouchesJoin(t, c.trace, Check(w, c.trace).trace, own);
      if Check(w, c.trace).Go? {
        var t2 := Check(w, c.trace).trace;
        StoreTouches(w, t2, path, intent);
        TouchesJoin(t, t2, StorePart(w, t2, path, intent).trace, own);
      }
    }
  }

  lemma DiscoverTouches(w: World, t: Trace, at: Path, path: Option<Path>)
    ensures TouchesOnly(t, DiscoverVolume(w, t, at).trace, path)
  {
  }

  lemma StoreTouches(w: World, t: Trace, path: Path, intent: Intent)
    ensures TouchesOnly(t, StorePart(w, t, path, intent).trace, Some(path))
  {
    assert !Read.Mutating();
    hide Check, DiscoverVolume, GateVolume, StartAndVet, TouchesOnly;
    var own := Some(path);
    var d := DiscoverVolume(w, t, BOOKMARK_STORE);
    DiscoverTouches(w, t, BOOKMARK_STORE, own);
    if d.Go? {
      var c := Check(w, d.trace);
      CheckTouches(w, d.trace, own);
      TouchesJoin(t, d.trace, c.trace, own);
      if c.Go? {
        var g := GateVolume(w, c.trace, BOOKMARK_STORE, Read, d.value);
        GateTouches(w, c.trace, BOOKMARK_STORE, Read, d.value);
        TouchesNothing(c.trace, g.trace, own);
        TouchesJoin(t, c.trace, g.trace, own);
        if g.Go? {
          var c2 := Check(w, g.trace);
          CheckTouches(w, g.trace, own);
          TouchesJoin(t, g.trace, c2.trace, own);
          if c2.Go? {
            VetTouches(w, c2.trace, path, intent);
            TouchesJoin(t, c2.trace, StartAndVet(w, c2.trace, path, intent).trace, own);
          }
        }
      }
    }
  }

  lemma EvaluatedTouches(w: World, t: Trace, e: Entry)
    ensures TouchesOnly(t, Evaluated(w, t, e).trace, Some(e.path))
  {
    hide Check, RetainedAccess;
    var own, t1 := Some(e.path), t + [Evaluate(e.path, e.intent)];
    assert TouchesOnly(t, t1, own);
    hide TouchesOnly;
    var c := Check(w, t1);
    CheckTouches(w, t1, own);
    TouchesJoin(t, t1, c.trace, own);
    if c.Go? {
      var c2 := Check(w, c.trace);
      CheckTouches(w, c.trace, own);
      TouchesJoin(t, c.trace, c2.trace, own);
      RetainedTouches(w, c2.trace, e.path, e.intent);
      TouchesJoin(t, c2.trace, RetainedAccess(w, c2.trace, e.path, e.intent).trace, own);
    }
  }

  lemma RefreshTouches(w: World, t: Trace, path: Option<Path>)
    ensures TouchesOnly(t, RefreshPermissions(w, t).trace, path)
  {
  }

  lemma EntryTouches(w: World, t: Trace, e: Entry)
    ensures TouchesOnly(t, AccessEntry(w, t, e).trace, Some(e.path))
  {
    hide Check, GateVolume, RefreshPermissions, RetainedAccess, TouchesOnly;
    var own, c := Some(e.path), Check(w, t);
    CheckTouches(w, t, own);
    if c.Go? {
      var g := GateVolume(w, c.trace, e.path, e.intent, e.volume);
      GateTouches(w, c.trace, e.path, e.intent, e.volume);
      if !ConsultsRoot(e.volume, e.intent) {
        TouchesNothing(c.trace, g.trace, own);
      }
      TouchesJoin(t, c.trace, g.trace, own);
      if g.Go? {
        var c2 := Check(w, g.trace);
        CheckTouches(w, g.trace, own);
        TouchesJoin(t, g.trace, c2.trace, own);
        if c2.Go? {
          var f := RefreshPermissions(w, c2.trace);
          RefreshTouches(w, c2.trace, own);
          TouchesJoin(t, c2.trace, f.trace, own);
          if f.Go? {
            var c3 := Check(w, f.trace);
            CheckTouches(w, f.trace, own);
            TouchesJoin(t, f.trace, c3.trace, own);
            EvaluatedTouches(w, c3.trace, e);
            TouchesJoin(t, c3.trace, Evaluated(w, c3.trace, e).trace, own);
          }
        }
      }
    }
  }

  /** A failing loop fails at a definite entry `k`: the entries before it were all
      granted, entry `k` was not (past the last entry it is the final poll that
      failed), and from there on nothing but entry `k` was evaluated or looked up. */
  lemma {:induction false} FailsAtFirstBadEntry(w: World, t: Trace, entries: seq<Entry>, guards: seq<Guard>)
    returns (k: nat)
    requires AccessFrom(w, t, entries, guards).Fail?
    ensures k <= |entries| && AfterGrants(w, t, entries[..k], guards).Some?
    ensures k < |entries| ==> AfterGrants(w, t, entries[..k + 1], guards).None?
    ensures TouchesOnly(AfterGrants(w, t, entries[..k], guards).value.0, AccessFrom(w, t, entries, guards).trace,
                        if k < |entries| then Some(entries[k].path) else None)
    decreases |entries|
  {
    hide CheckHolding, AccessEntry, Handles;
    k := 0;
    CheckHoldingTouchesNothing(w, t, Handles(guards));
    var c := CheckHolding(w, t, Handles(guards));
    if c.Go? && entries != [] {
      var a := AccessEntry(w, c.trace, entries[0]);
      if a.Fail? {
        EntryTouches(w, c.trace, entries[0]);
        AppendReleases(t, a.trace, Handles(guards), Some(entries[0].path));
      } else {
        var j := FailsAtFirstBadEntry(w, a.trace, entries[1..], guards + [a.value]);
        k := j + 1;
        assert entries[..k][1..] == entries[1..][..j];
        if k < |entries| {
          assert entries[..k + 1][1..] == entries[1..][..j + 1];
        }
      }
    }
  }
}
