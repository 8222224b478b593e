// The cancellable access protocol: every guard is the end of a chain of polls,
// volume gate, permission refresh, evaluation and, where one is required, a
// security-scoped bookmark access. Each function maps the effects so far to the
// effects after it, so that an adversary may answer every effect as it likes.
module Access {
  import opened Text
  import opened Intents
  import opened Paths

  datatype Volume = Volume(mounted: bool, reachable: Option<bool>, apiAvailable: bool, readOnly: bool,
                           isSystemRoot: bool)

  datatype Action = Allow | Prompt | Degrade | Deny

  /** The evaluation of a path: the decision and whether it must be backed by a
      retained bookmark. */
  datatype Evaluation = Evaluation(action: Action, bookmarkRequired: bool)

  /** Resolving a bookmark and starting its access. */
  datatype Bookmark = NoRecord | StartRefused | Access(stale: bool, started: bool)

  datatype Event =
    | Poll(ok: bool)
    | Discover(path: Path, ok: bool)
    | Gate(path: Path, intent: Intent, blocked: bool)
    | Refresh(ok: bool)
    | Evaluate(path: Path, intent: Intent)
    | Lookup(path: Path, readOnly: bool)
    | Started(handle: nat)
    | Released(handle: nat)
    | Probe(path: Path, forWrite: bool)

  type Trace = seq<Event>

  datatype Error = ControlFailed | PermissionDenied | HostFailed

  /** A step either goes on or fails, and keeps the trace either way. */
  datatype Out<+T> = Go(trace: Trace, value: T) | Fail(trace: Trace, error: Error) {
    predicate IsFailure() { Fail? }
    function PropagateFailure<U>(): Out<U>
      requires Fail?
    {
      Fail(trace, error)
    }
    function Extract(): (Trace, T)
      requires Go?
    {
      (trace, value)
    }
  }

  /** The surroundings, as answers to each effect; the number is the length of
      the trace, so the same question may be answered differently later. */
  datatype World = World(
    allow: nat -> bool,
    discovers: (Path, nat) -> bool,
    volumeOf: (Path, nat) -> Option<Volume>,
    evaluate: (Path, Intent, nat) -> Evaluation,
    refreshes: nat -> bool,
    bookmark: (Path, bool, nat) -> Bookmark,
    metadata: (Path, nat) -> Metadata)

  datatype Metadata = Directory | OtherFile | NotFound | Unavailable

  const BOOKMARK_STORE: Path := Path(true, ["security-bookmarks"])

  // ----- Steps -----

  function Check(w: World, t: Trace): Out<()> {
    if w.allow(|t|) then Go(t + [Poll(true)], ()) else Fail(t + [Poll(false)], ControlFailed)
  }

  function DiscoverVolume(w: World, t: Trace, path: Path): Out<Option<Volume>> {
    var ok := w.discovers(path, |t|);
    if ok then Go(t + [Discover(path, true)], w.volumeOf(path, |t|)) else Fail(t + [Discover(path, false)], HostFailed)
  }

  datatype Block = Unmounted | Unreachable | ApiUnavailable | ReadOnlyVolume

  /** The volume's verdict; `rootAllows` is the evaluation that only a read-only
      system root consults. */
  function VolumeBlock(v: Option<Volume>, intent: Intent, rootAllows: bool): Option<Block> {
    match v
    case None => None
    case Some(v) =>
      if !v.mounted then Some(Unmounted)
      else if v.reachable == Some(false) then Some(Unreachable)
      else if !v.apiAvailable then Some(ApiUnavailable)
      else if intent.Mutating() && v.readOnly && !(v.isSystemRoot && rootAllows) then Some(ReadOnlyVolume)
      else None
  }

  predicate ConsultsRoot(v: Option<Volume>, intent: Intent) {
    v.Some? && v.value.mounted && v.value.reachable != Some(false) && v.value.apiAvailable
    && intent.Mutating() && v.value.readOnly && v.value.isSystemRoot
  }

  function GateVolume(w: World, t: Trace, path: Path, intent: Intent, v: Option<Volume>): Out<()> {
    var t1 := if ConsultsRoot(v, intent) then t + [Evaluate(path, intent)] else t;
    var blocked := VolumeBlock(v, intent, w.evaluate(path, intent, |t|).action == Allow).Some?;
    if blocked then Fail(t1 + [Gate(path, intent, true)], PermissionDenied)
    else Go(t1 + [Gate(path, intent, false)], ())
  }

  function RefreshPermissions(w: World, t: Trace): Out<()> {
    if w.refreshes(|t|) then Go(t + [Refresh(true)], ()) else Fail(t + [Refresh(false)], HostFailed)
  }

  /** A poll made while a started access is held: a failure releases it. */
  function CheckHolding(w: World, t: Trace, held: seq<nat>): Out<()> {
    if w.allow(|t|) then Go(t + [Poll(true)], ()) else Fail(t + [Poll(false)] + Releases(held), ControlFailed)
  }

  function Releases(handles: seq<nat>): Trace {
    if handles == [] then [] else [Released(handles[0])] + Releases(handles[1..])
  }

  /** Resolves a bookmark for a path and starts its access. */
  function StartAccess(w: World, t: Trace, path: Path, readOnly: bool): Out<(Bookmark, seq<nat>)> {
    var (t, _) :- Check(w, t);
    var b := w.bookmark(path, readOnly, |t|);
    var (t, _) :- Check(w, t + [Lookup(path, readOnly)]);
    match b
    case NoRecord => Go(t, (b, []))
    case StartRefused => Fail(t, PermissionDenied)
    case Access(stale, started) =>
      var handles := if started then [|t|] else [];
      var t := if started then t + [Started(|t|)] else t;
      var (t, _) :- CheckHolding(w, t, handles);
      Go(t, (b, handles))
  }

  function RetainedAccess(w: World, t: Trace, path: Path, intent: Intent): Out<seq<nat>> {
    var (t, _) :- Check(w, t);
    var (t, _) :- Check(w, t);
    var (t, v) :- DiscoverVolume(w, t, BOOKMARK_STORE);
    var (t, _) :- Check(w, t);
    var (t, _) :- GateVolume(w, t, BOOKMARK_STORE, Read, v);
    var (t, _) :- Check(w, t);
    var (t, found) :- StartAccess(w, t, path, intent.ReadOnly());
    var (t, _) :- CheckHolding(w, t, found.1);
    match found.0
    case Access(stale, started) =>
      if stale || !started then Fail(t + Releases(found.1), PermissionDenied)
      else
        var (t, _) :- CheckHolding(w, t, found.1);
        Go(t, found.1)
    case _ => Fail(t, PermissionDenied)
  }

  datatype Guard = Guard(path: Path, handles: seq<nat>)

  /** An entry of an access report: the path, what is wanted, and the volume that
      was discovered for it when the report was built. */
  datatype Entry = Entry(path: Path, intent: Intent, volume: Option<Volume>)

  /** The preflight of one entry: the only place a guard is made. */
  function AccessEntry(w: World, t: Trace, e: Entry): Out<Guard> {
    var (t, _) :- Check(w, t);
    var (t, _) :- GateVolume(w, t, e.path, e.intent, e.volume);
    var (t, _) :- Check(w, t);
    var (t, _) :- RefreshPermissions(w, t);
    var (t, _) :- Check(w, t);
    var evaluation := w.evaluate(e.path, e.intent, |t|);
    var t := t + [Evaluate(e.path, e.intent)];
    var (t, _) :- Check(w, t);
    if evaluation.action != Allow then Fail(t, PermissionDenied)
    else if !evaluation.bookmarkRequired then Go(t, Guard(e.path, []))
    else
      var (t, _) :- Check(w, t);
      var (t, handles) :- RetainedAccess(w, t, e.path, e.intent);
      Go(t, Guard(e.path, handles))
  }

  function Handles(guards: seq<Guard>): seq<nat> {
    if guards == [] then [] else guards[0].handles + Handles(guards[1..])
  }

  /** The access loop: a poll and an access per entry, a final poll; on any failure
      the guards taken so far are dropped in order. */
  function AccessFrom(w: World, t: Trace, entries: seq<Entry>, guards: seq<Guard>): Out<seq<Guard>>
    decreases |entries|
  {
    var (t, _) :- CheckHolding(w, t, Handles(guards));
    if entries == [] then Go(t, guards)
    else
      match AccessEntry(w, t, entries[0])
      case Fail(t, error) => Fail(t + Releases(Handles(guards)), error)
      case Go(t, guard) => AccessFrom(w, t, entries[1..], guards + [guard])
  }

  function AccessAll(w: World, t: Trace, entries: seq<Entry>): Out<seq<Guard>> {
    AccessFrom(w, t, entries, [])
  }

  /** The access loop as it runs, against the trace it leaves. */
  class Session {
    const world: World
    var trace: Trace

    constructor (world: World)
      ensures this.world == world && trace == []
    {
      this.world := world;
      trace := [];
    }

    method Drop(guards: seq<Guard>)
      modifies this
      ensures trace == old(trace) + Releases(Handles(guards))
    {
      var handles := Handles(guards);
      for i := 0 to |handles|
        invariant trace + Releases(handles[i..]) == old(trace) + Releases(handles)
      {
        trace := trace + [Released(handles[i])];
        assert handles[i..][1..] == handles[i + 1..];
      }
      assert handles[|handles|..] == [];
    }

    method AccessChecked(entries: seq<Entry>) returns (r: Out<seq<Guard>>)
      modifies this
      ensures r == AccessAll(world, old(trace), entries) && trace == r.trace
    {
      var guards: seq<Guard> := [];
      for i := 0 to |entries|
        invariant AccessAll(world, old(trace), entries) == AccessFrom(world, trace, entries[i..], guards)
      {
        assert entries[i..][1..] == entries[i + 1..];
        var ok := world.allow(|trace|);
        trace := trace + [Poll(ok)];
        if !ok {
          Drop(guards);
          return Fail(trace, ControlFailed);
        }
        var one := AccessEntry(world, trace, entries[i]);
        trace := one.trace;
        if one.Fail? {
          Drop(guards);
          return Fail(trace, one.error);
        }
        guards := guards + [one.value];
      }
      var ok := world.allow(|trace|);
      trace := trace + [Poll(ok)];
      if !ok {
        Drop(guards);
        return Fail(trace, ControlFailed);
      }
      return Go(trace, guards);
    }
  }
}
