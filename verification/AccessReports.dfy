// The access-report constructors: write targets are probed only behind a passing
// gate of their parent's volume, and nothing follows a failed poll.
module AccessReports {
  import opened Text
  import opened Intents
  import opened Paths
  import opened Utf8
  import opened Access

  // ----- Steps -----

  /** The containing volume of a path, between two polls. */
  function VolumeOf(w: World, t: Trace, path: Path): Out<Option<Volume>> {
    var (t, _) :- Check(w, t);
    var (t, v) :- DiscoverVolume(w, t, path);
    var (t, _) :- Check(w, t);
    Go(t, v)
  }

  /** `entry_checked`: the volume of a path is discovered once and kept. */
  function EntryChecked(w: World, t: Trace, path: Path, intent: Intent): Out<Entry> {
    var (t, v) :- VolumeOf(w, t, path);
    Go(t, Entry(path, intent, v))
  }

  function PreflightTarget(w: World, t: Trace, path: Path): Out<()> {
    var (t, v) :- VolumeOf(w, t, ParentOrCwd(path));
    GateVolume(w, t, ParentOrCwd(path), Write, v)
  }

  predicate NameFits(path: Path) {
    path.names == [] || |Encode(path.names[|path.names| - 1])| <= 255
  }

  /** The path to ask for write access: the target if it is a directory, else its
      parent. `checkName` is the content commands' limit on new file names. */
  function ProbeTarget(w: World, t: Trace, path: Path, checkName: bool): Out<Path> {
    var m := w.metadata(path, |t|);
    var t := t + [Probe(path, true)];
    match m
    case Directory => Go(t, path)
    case Unavailable => Fail(t, HostFailed)
    case _ => if checkName && !NameFits(path) then Fail(t, HostFailed) else Go(t, ParentOrCwd(path))
  }

  function CheckedWriteProbe(w: World, t: Trace, path: Path, checkName: bool): Out<Path> {
    var (t, _) :- Check(w, t);
    var (t, _) :- PreflightTarget(w, t, path);
    var (t, _) :- Check(w, t);
    var (t, probe) :- ProbeTarget(w, t, path, checkName);
    var (t, _) :- Check(w, t);
    Go(t, probe)
  }

  /** A write entry of the content commands: polls around the probe. */
  function WriteEntry(w: World, t: Trace, path: Path): Out<Entry> {
    var (t, _) :- Check(w, t);
    WriteTail(w, t, path)
  }

  /** The same after its first poll. */
  function WriteTail(w: World, t: Trace, path: Path): Out<Entry> {
    var (t, probe) :- CheckedWriteProbe(w, t, path, true);
    var (t, _) :- Check(w, t);
    EntryChecked(w, t, probe, Write)
  }

  /** A write entry of the index commands. */
  function IndexWriteEntry(w: World, t: Trace, path: Path): Out<Entry> {
    var (t, probe) :- CheckedWriteProbe(w, t, path, false);
    EntryChecked(w, t, probe, Write)
  }

  function ReadEntry(w: World, t: Trace, path: Path, intent: Intent): Out<Entry> {
    var (t, _) :- Check(w, t);
    EntryChecked(w, t, path, intent)
  }

  /** The recognition cache is probed without a preflight: it is not a write target. */
  function OptionalRead(w: World, t: Trace, path: Path): Out<seq<Entry>> {
    var (t, _) :- Check(w, t);
    OptionalTail(w, t, path)
  }

  /** The same after its first poll. */
  function OptionalTail(w: World, t: Trace, path: Path): Out<seq<Entry>> {
    var (t, _) :- Check(w, t);
    var m := w.metadata(path, |t|);
    var t := t + [Probe(path, false)];
    if m == Unavailable then Fail(t, HostFailed)
    else
      var (t, _) :- Check(w, t);
      if m == NotFound then Go(t, [])
      else
        var (t, e) :- ReadEntry(w, t, path, Read);
        Go(t, [e])
  }

  function EntriesOf(r: Out<Entry>): Out<seq<Entry>> {
    match r
    case Go(t, e) => Go(t, [e])
    case Fail(t, error) => Fail(t, error)
  }

  // ----- Lists of any length -----

  /** One request for an entry. */
  datatype Want =
    | WantRead(path: Path, intent: Intent)
    | WantWrite(path: Path)
    | WantOptional(path: Path)
    | WantIndexRoot(path: Path)
    | WantIndexWrite(path: Path)

  function Fulfil(w: World, t: Trace, want: Want): Out<seq<Entry>> {
    match want
    case WantRead(path, intent) =>
      var (t, e) :- ReadEntry(w, t, path, intent);
      Go(t, [e])
    case WantWrite(path) =>
      var (t, e) :- WriteEntry(w, t, path);
      Go(t, [e])
    case WantOptional(path) => OptionalRead(w, t, path)
    case WantIndexRoot(path) =>
      var (t, e) :- EntryChecked(w, t, path, Index);
      Go(t, [e])
    case WantIndexWrite(path) =>
      var (t, e) :- IndexWriteEntry(w, t, path);
      Go(t, [e])
  }

  function FulfilAll(w: World, t: Trace, wants: seq<Want>, entries: seq<Entry>): Out<seq<Entry>>
    decreases |wants|
  {
    if wants == [] then Go(t, entries)
    else
      var (t, more) :- Fulfil(w, t, wants[0]);
      FulfilAll(w, t, wants[1..], entries + more)
  }

  /** A session that builds a report, effect by effect. */
  class ReportSession {
    const world: World
    var trace: Trace
    var entries: seq<Entry>

    constructor (world: World)
      ensures this.world == world && trace == [] && entries == []
    {
      this.world := world;
      trace, entries := [], [];
    }

    method Poll() returns (ok: bool)
      modifies this`trace
      ensures trace == Check(world, old(trace)).trace && ok == Check(world, old(trace)).Go?
    {
      ok := world.allow(|trace|);
      trace := trace + [Event.Poll(ok)];
    }

    /** The containing volume of a path, between two polls. */
    method VolumeChecked(path: Path) returns (r: Out<Option<Volume>>)
      modifies this`trace
      ensures r == VolumeOf(world, old(trace), path) && trace == r.trace
    {
      var ok := Poll();
      if !ok {
        return Fail(trace, ControlFailed);
      }
      ok := world.discovers(path, |trace|);
      var v := world.volumeOf(path, |trace|);
      trace := trace + [Discover(path, ok)];
      if !ok {
        return Fail(trace, HostFailed);
      }
      ok := Poll();
      r := if ok then Go(trace, v) else Fail(trace, ControlFailed);
    }

    /** Pushes the entry of a path with the volume discovered for it. */
    method PushChecked(path: Path, intent: Intent) returns (failed: Option<Error>)
      modifies this
      ensures Ends(old(trace), old(entries), EntriesOf(EntryChecked(world, old(trace), path, intent)), failed)
    {
      var v := VolumeChecked(path);
      match v {
        case Fail(_, error) => failed := Some(error);
        case Go(_, volume) =>
          entries := entries + [Entry(path, intent, volume)];
          failed := None;
      }
    }

    /** The gate of a target's parent, then the target's own probe. */
    method ProbeChecked(path: Path, checkName: bool) returns (r: Out<Path>)
      modifies this`trace
      ensures r == CheckedWriteProbe(world, old(trace), path, checkName) && trace == r.trace
    {
      var ok := Poll();
      if !ok {
        return Fail(trace, ControlFailed);
      }
      var parent := ParentOrCwd(path);
      var v := VolumeChecked(parent);
      if v.Fail? {
        return Fail(v.trace, v.error);
      }
      var gate := GateVolume(world, trace, parent, Write, v.value);
      trace := gate.trace;
      if gate.Fail? {
        return Fail(trace, gate.error);
      }
      ok := Poll();
      if !ok {
        return Fail(trace, ControlFailed);
      }
      var m := world.metadata(path, |trace|);
      trace := trace + [Probe(path, true)];
      if m == Unavailable || (m != Directory && checkName && !NameFits(path)) {
        return Fail(trace, HostFailed);
      }
      ok := Poll();
      r := if ok then Go(trace, if m == Directory then path else parent) else Fail(trace, ControlFailed);
    }

    /** The outcome of a push, against the result it stands for. */
    ghost predicate Ends(before: Trace, had: seq<Entry>, r: Out<seq<Entry>>, failed: Option<Error>)
      reads this
    {
      match r
      case Go(t, more) => failed == None && trace == t && entries == had + more
      case Fail(t, error) => failed == Some(error) && trace == t && entries == had
    }

    method PushWrite(path: Path) returns (failed: Option<Error>)
      modifies this
      ensures Ends(old(trace), old(entries), EntriesOf(WriteEntry(world, old(trace), path)), failed)
    {
      var ok := Poll();
      if !ok {
        return Some(ControlFailed);
      }
      var probe := ProbeChecked(path, true);
      if probe.Fail? {
        return Some(probe.error);
      }
      ok := Poll();
      if !ok {
        return Some(ControlFailed);
      }
      failed := PushChecked(probe.value, Write);
    }

    method PushOptional(path: Path) returns (failed: Option<Error>)
      modifies this
      ensures Ends(old(trace), old(entries), OptionalRead(world, old(trace), path), failed)
    {
      var ok := Poll();
      if ok {
        ok := Poll();
      }
      if !ok {
        return Some(ControlFailed);
      }
      var m := world.metadata(path, |trace|);
      trace := trace + [Probe(path, false)];
      if m == Unavailable {
        return Some(HostFailed);
      }
      ok := Poll();
      if ok && m != NotFound {
        ok := Poll();
      }
      if !ok {
        return Some(ControlFailed);
      }
      if m == NotFound {
        return None;
      }
      failed := PushChecked(path, Read);
    }

    /** One request, whatever its kind. */
    method Push(want: Want) returns (failed: Option<Error>)
      modifies this
      ensures Ends(old(trace), old(entries), Fulfil(world, old(trace), want), failed)
    {
      hide EntryChecked, CheckedWriteProbe, OptionalRead;
      match want {
        case WantRead(path, intent) =>
          var ok := Poll();
          if !ok {
            return Some(ControlFailed);
          }
          failed := PushChecked(path, intent);
        case WantWrite(path) => failed := PushWrite(path);
        case WantOptional(path) => failed := PushOptional(path);
        case WantIndexRoot(path) => failed := PushChecked(path, Index);
        case WantIndexWrite(path) =>
          var probe := ProbeChecked(path, false);
          if probe.Fail? {
            return Some(probe.error);
          }
          failed := PushChecked(probe.value, Write);
      }
    }

    method PushAll(wants: seq<Want>) returns (failed: Option<Error>)
      modifies this
      ensures match FulfilAll(world, old(trace), wants, old(entries))
              case Go(t, all) => failed == None && trace == t && entries == all
              case Fail(t, error) => failed == Some(error) && trace == t
    {
      for i := 0 to |wants|
        invariant FulfilAll(world, old(trace), wants, old(entries)) == FulfilAll(world, trace, wants[i..], entries)
      {
        hide Fulfil;
        assert wants[i..][1..] == wants[i + 1..];
        failed := Push(wants[i]);
        if failed.Some? {
          return;
        }
      }
      assert wants[|wants|..] == [];
      failed := None;
    }
  }

  function Reading(paths: seq<Path>): seq<Want> {
    seq(|paths|, i requires 0 <= i < |paths| => WantRead(paths[i], Read))
  }

  /** The segment report: an optional manifest, the output archive, every segment. */
  function SegmentWants(manifest: Option<Path>, output: Path, segments: seq<Path>): seq<Want> {
    (if manifest.Some? then [WantRead(manifest.value, Read)] else []) + [WantWrite(output)] + Reading(segments)
  }

  /** The background job's report: the root, its write targets, the optional queue,
      cache and journal. */
  function JobWants(root: Path, targets: seq<Path>, queue: Option<Path>, cache: Option<Path>,
                    journal: Option<Path>): seq<Want> {
    [WantRead(root, Index)] + Writing(targets)
    + (if queue.Some? then [WantWrite(queue.value)] else [])
    + (if cache.Some? then [WantOptional(cache.value)] else [])
    + (if journal.Some? then [WantWrite(journal.value)] else [])
  }

  function Writing(paths: seq<Path>): seq<Want> {
    seq(|paths|, i requires 0 <= i < |paths| => WantWrite(paths[i]))
  }

  /** The index commands' root and write targets. */
  function IndexWants(root: Path, writes: seq<Path>): seq<Want> {
    [WantIndexRoot(root)] + seq(|writes|, i requires 0 <= i < |writes| => WantIndexWrite(writes[i]))
  }

  // ----- Ordering -----

  /** Every probe of a write target comes after the discovery and a passing `Write`
      gate of its parent's volume, in that order. */
  predicate GatedAt(t: Trace, i: nat)
    requires i < |t|
  {
    t[i].Probe? && t[i].forWrite ==>
      exists d, g :: 0 <= d < g < i && t[d] == Discover(ParentOrCwd(t[i].path), true)
                     && t[g] == Gate(ParentOrCwd(t[i].path), Write, false)
  }

  predicate ProbesGated(t: Trace) {
    forall i :: 0 <= i < |t| ==> GatedAt(t, i)
  }

  predicate AllPollsPassed(t: Trace) {
    forall i :: 0 <= i < |t| ==> t[i] != Poll(false)
  }

  /** Nothing at all follows a failed poll. */
  predicate StopsAtFailedPoll(t: Trace) {
    forall i :: 0 <= i < |t| - 1 ==> t[i] != Poll(false)
  }

  predicate Orderly<T>(r: Out<T>) {
    ProbesGated(r.trace) && (if r.Go? then AllPollsPassed(r.trace) else StopsAtFailedPoll(r.trace))
  }

  predicate Sound(t: Trace) {
    ProbesGated(t) && AllPollsPassed(t)
  }

  lemma Append(t: Trace, e: Event)
    requires Sound(t) && !(e.Probe? && e.forWrite)
    ensures ProbesGated(t + [e]) && StopsAtFailedPoll(t + [e])
    ensures e != Poll(false) ==> Sound(t + [e])
  {
    var t' := t + [e];
    forall i | 0 <= i < |t'| ensures GatedAt(t', i) {
      if i < |t| && t[i].Probe? && t[i].forWrite {
        assert GatedAt(t, i);
        var d, g :| 0 <= d < g < i && t[d] == Discover(ParentOrCwd(t[i].path), true)
                    && t[g] == Gate(ParentOrCwd(t[i].path), Write, false);
        assert t'[d] == t[d] && t'[g] == t[g];
      }
    }
  }

  lemma AppendGatedProbe(t: Trace, path: Path, d: nat, g: nat)
    requires Sound(t) && d < g < |t|
    requires t[d] == Discover(ParentOrCwd(path), true) && t[g] == Gate(ParentOrCwd(path), Write, false)
    ensures Sound(t + [Probe(path, true)])
  {
    var t' := t + [Probe(path, true)];
    forall i | 0 <= i < |t'| ensures GatedAt(t', i) {
      if i < |t| && t[i].Probe? && t[i].forWrite {
        assert GatedAt(t, i);
        var d0, g0 :| 0 <= d0 < g0 < i && t[d0] == Discover(ParentOrCwd(t[i].path), true)
                      && t[g0] == Gate(ParentOrCwd(t[i].path), Write, false);
        assert t'[d0] == t[d0] && t'[g0] == t[g0];
      } else if i == |t| {
        assert t'[d] == t[d] && t'[g] == t[g];
      }
    }
  }

  lemma StepsAreOrderly(w: World, t: Trace, path: Path, intent: Intent, v: Option<Volume>)
    requires Sound(t)
    ensures Orderly(Check(w, t)) && t <= Check(w, t).trace
    ensures Orderly(DiscoverVolume(w, t, path)) && t <= DiscoverVolume(w, t, path).trace
    ensures DiscoverVolume(w, t, path).Go? ==> DiscoverVolume(w, t, path).trace == t + [Discover(path, true)]
    ensures Orderly(GateVolume(w, t, path, intent, v)) && t <= GateVolume(w, t, path, intent, v).trace
    ensures GateVolume(w, t, path, intent, v).Go? ==>
              var g := GateVolume(w, t, path, intent, v).trace;
              |g| > |t| && g[|g| - 1] == Gate(path, intent, false)
  {
    Append(t, Poll(w.allow(|t|)));
    Append(t, Discover(path, w.discovers(path, |t|)));
    Append(t, Evaluate(path, intent));
    var t1 := if ConsultsRoot(v, intent) then t + [Evaluate(path, intent)] else t;
    Append(t1, Gate(path, intent, true));
    Append(t1, Gate(path, intent, false));
  }

  lemma PreflightTargetOrderly(w: World, t: Trace, path: Path) returns (d: nat)
    requires Sound(t)
    ensures var r := PreflightTarget(w, t, path);
            && Orderly(r) && t <= r.trace
            && (r.Go? ==> d < |r.trace| - 1 && r.trace[d] == Discover(ParentOrCwd(path), true)
                          && r.trace[|r.trace| - 1] == Gate(ParentOrCwd(path), Write, false))
  {
    hide Check, DiscoverVolume, GateVolume, ProbesGated, AllPollsPassed, StopsAtFailedPoll;
    var parent := ParentOrCwd(path);
    d := 0;
    StepsAreOrderly(w, t, parent, Write, None);
    var c := Check(w, t);
    if c.Go? {
      StepsAreOrderly(w, c.trace, parent, Write, None);
      var v := DiscoverVolume(w, c.trace, parent);
      d := |c.trace|;
      if v.Go? {
        StepsAreOrderly(w, v.trace, parent, Write, None);
        var c2 := Check(w, v.trace);
        if c2.Go? {
          StepsAreOrderly(w, c2.trace, parent, Write, v.value);
          assert v.trace[d] == Discover(parent, true);
        }
      }
    }
  }

  lemma CheckedWriteProbeOrderly(w: World, t: Trace, path: Path, checkName: bool)
    requires Sound(t)
    ensures Orderly(CheckedWriteProbe(w, t, path, checkName)) && t <= CheckedWriteProbe(w, t, path, checkName).trace
  {
    hide Check, PreflightTarget, ProbesGated, AllPollsPassed, StopsAtFailedPoll;
    StepsAreOrderly(w, t, path, Write, None);
    var c := Check(w, t);
    if c.Go? {
      var d := PreflightTargetOrderly(w, c.trace, path);
      var p := PreflightTarget(w, c.trace, path);
      if p.Go? {
        StepsAreOrderly(w, p.trace, path, Write, None);
        var c2 := Check(w, p.trace);
        if c2.Go? {
          assert c2.trace[d] == p.trace[d] && c2.trace[|p.trace| - 1] == p.trace[|p.trace| - 1];
          AppendGatedProbe(c2.trace, path, d, |p.trace| - 1);
          SoundIsOrderly(c2.trace + [Probe(path, true)]);
          StepsAreOrderly(w, c2.trace + [Probe(path, true)], path, Write, None);
        }
      }
    }
  }

  lemma SoundIsOrderly(t: Trace)
    requires Sound(t)
    ensures StopsAtFailedPoll(t)
  {
  }

  lemma EntryCheckedOrderly(w: World, t: Trace, path: Path, intent: Intent)
    requires Sound(t)
    ensures Orderly(EntryChecked(w, t, path, intent)) && t <= EntryChecked(w, t, path, intent).trace
  {
    hide Check, DiscoverVolume, ProbesGated, AllPollsPassed, StopsAtFailedPoll;
    StepsAreOrderly(w, t, path, intent, None);
    var c := Check(w, t);
    if c.Go? {
      StepsAreOrderly(w, c.trace, path, intent, None);
      var v := DiscoverVolume(w, c.trace, path);
      if v.Go? {
        StepsAreOrderly(w, v.trace, path, intent, None);
      }
    }
  }

  lemma FulfilOrderly(w: World, t: Trace, want: Want)
    requires Sound(t)
    ensures Orderly(Fulfil(w, t, want)) && t <= Fulfil(w, t, want).trace
  {
    hide Check, CheckedWriteProbe, EntryChecked, ProbesGated, AllPollsPassed, StopsAtFailedPoll;
    var path := want.path;
    match want {
      case WantIndexRoot(_) => EntryCheckedOrderly(w, t, path, Index);
      case WantIndexWrite(_) =>
        CheckedWriteProbeOrderly(w, t, path, false);
        var p := CheckedWriteProbe(w, t, path, false);
        if p.Go? {
          EntryCheckedOrderly(w, p.trace, p.value, Write);
        }
      case _ =>
        StepsAreOrderly(w, t, path, Write, None);
        var c := Check(w, t);
        if c.Go? {
          PolledOrderly(w, c.trace, want);
        }
    }
  }

  /** The content-style wants after their first poll. */
  lemma PolledOrderly(w: World, t: Trace, want: Want)
    requires Sound(t)
    ensures match want
            case WantRead(path, intent) => Orderly(EntryChecked(w, t, path, intent))
                && t <= EntryChecked(w, t, path, intent).trace
            case WantWrite(path) => Orderly(WriteTail(w, t, path)) && t <= WriteTail(w, t, path).trace
            case WantOptional(path) => Orderly(OptionalTail(w, t, path)) && t <= OptionalTail(w, t, path).trace
            case _ => true
  {
    hide Check, CheckedWriteProbe, EntryChecked, ProbesGated, AllPollsPassed, StopsAtFailedPoll;
    var path := want.path;
    match want {
      case WantRead(_, intent) => EntryCheckedOrderly(w, t, path, intent);
      case WantWrite(_) =>
        CheckedWriteProbeOrderly(w, t, path, true);
        var p := CheckedWriteProbe(w, t, path, true);
        if p.Go? {
          StepsAreOrderly(w, p.trace, path, Write, None);
          var c2 := Check(w, p.trace);
          if c2.Go? {
            EntryCheckedOrderly(w, c2.trace, p.value, Write);
          }
        }
      case WantOptional(_) => OptionalOrderly(w, t, path);
      case _ =>
    }
  }

  lemma OptionalOrderly(w: World, t: Trace, path: Path)
    requires Sound(t)
    ensures Orderly(OptionalTail(w, t, path)) && t <= OptionalTail(w, t, path).trace
  {
    hide Check, EntryChecked, ProbesGated, AllPollsPassed, StopsAtFailedPoll;
    StepsAreOrderly(w, t, path, Read, None);
    var c := Check(w, t);
    if c.Go? {
      var t1 := c.trace + [Probe(path, false)];
      Append(c.trace, Probe(path, false));
      StepsAreOrderly(w, t1, path, Read, None);
      var c1 := Check(w, t1);
      if c1.Go? {
        StepsAreOrderly(w, c1.trace, path, Read, None);
        var c2 := Check(w, c1.trace);
        if c2.Go? {
          EntryCheckedOrderly(w, c2.trace, path, Read);
        }
      }
    }
  }

  /** For every report, however many segments or write targets it lists, and every
      adversary: no write target is probed before the discovery and a passing gate
      of its parent's volume, and no effect follows a failed poll. */
  lemma {:induction false} ReportsAreOrderly(w: World, t: Trace, wants: seq<Want>, entries: seq<Entry>)
    requires Sound(t)
    ensures Orderly(FulfilAll(w, t, wants, entries)) && t <= FulfilAll(w, t, wants, entries).trace
    decreases |wants|
  {
    if wants != [] {
      hide Fulfil, ProbesGated, AllPollsPassed, StopsAtFailedPoll;
      FulfilOrderly(w, t, wants[0]);
      var r := Fulfil(w, t, wants[0]);
      if r.Go? {
        ReportsAreOrderly(w, r.trace, wants[1..], entries + r.value);
      }
    }
  }

  // ----- What the entries are -----

  /** A write entry that stands for a target: the target itself if its probe met a
      directory there, and its parent if it met anything else. The content commands
      then also hold the new name to 255 bytes. */
  predicate Targets(w: World, t: Trace, e: Entry, path: Path, checkName: bool) {
    e.intent == Write && exists n :: 0 <= n < |t| && ProbedAt(w, t, n, e, path, checkName)
  }

  predicate ProbedAt(w: World, t: Trace, n: nat, e: Entry, path: Path, checkName: bool)
    requires n < |t|
  {
    var m := w.metadata(path, n);
    && t[n] == Probe(path, true)
    && !m.Unavailable?
    && e.path == (if m.Directory? then path else ParentOrCwd(path))
    && (checkName && !m.Directory? && path.names != [] ==> |Encode(path.names[|path.names| - 1])| <= 255)
  }

  predicate Names(e: Entry, path: Path, intent: Intent) {
    e.path == path && e.intent == intent
  }

  /** The entry a want stands for. */
  predicate Answers(w: World, t: Trace, e: Entry, want: Want) {
    match want
    case WantRead(path, intent) => Names(e, path, intent)
    case WantWrite(path) => Targets(w, t, e, path, true)
    case WantOptional(path) => Names(e, path, Read)
    case WantIndexRoot(path) => Names(e, path, Index)
    case WantIndexWrite(path) => Targets(w, t, e, path, false)
  }

  lemma TargetsStay(w: World, t: Trace, t': Trace, e: Entry, path: Path, checkName: bool)
    requires Targets(w, t, e, path, checkName) && t <= t'
    ensures Targets(w, t', e, path, checkName)
  {
    var n :| 0 <= n < |t| && ProbedAt(w, t, n, e, path, checkName);
    assert ProbedAt(w, t', n, e, path, checkName);
  }

  lemma AnswersStay(w: World, t: Trace, t': Trace, e: Entry, want: Want)
    requires Answers(w, t, e, want) && t <= t'
    ensures Answers(w, t', e, want)
  {
    hide Targets;
    match want
    case WantWrite(path) => TargetsStay(w, t, t', e, path, true);
    case WantIndexWrite(path) => TargetsStay(w, t, t', e, path, false);
    case _ =>
  }

  lemma ProbeIsTargeted(w: World, t: Trace, path: Path, checkName: bool, e: Entry)
    requires var p := CheckedWriteProbe(w, t, path, checkName); p.Go? && Names(e, p.value, Write)
    ensures Targets(w, CheckedWriteProbe(w, t, path, checkName).trace, e, path, checkName)
  {
    hide PreflightTarget;
    var before := Check(w, PreflightTarget(w, Check(w, t).trace, path).trace).trace;
    assert ProbedAt(w, CheckedWriteProbe(w, t, path, checkName).trace, |before|, e, path, checkName);
  }

  lemma FulfilAnswers(w: World, t: Trace, want: Want)
    requires Fulfil(w, t, want).Go?
    ensures t <= Fulfil(w, t, want).trace
    ensures var es := Fulfil(w, t, want).value;
            && |es| <= 1
            && (|es| == 1 ==> Answers(w, Fulfil(w, t, want).trace, es[0], want))
            && (!want.WantOptional? ==> |es| == 1)
  {
    FulfilGates(w, t, want);
    var r := Fulfil(w, t, want);
    match want
    case WantWrite(path) =>
      hide CheckedWriteProbe, EntryChecked, Targets;
      var p := CheckedWriteProbe(w, Check(w, t).trace, path, true);
      var c := Check(w, p.trace);
      EntryNames(w, c.trace, p.value, Write);
      ProbeIsTargeted(w, Check(w, t).trace, path, true, r.value[0]);
      TargetsStay(w, p.trace, r.trace, r.value[0], path, true);
    case WantIndexWrite(path) =>
      hide CheckedWriteProbe, EntryChecked, Targets;
      var p := CheckedWriteProbe(w, t, path, false);
      EntryNames(w, p.trace, p.value, Write);
      ProbeIsTargeted(w, t, path, false, r.value[0]);
      TargetsStay(w, p.trace, r.trace, r.value[0], path, false);
    case _ =>
  }

  lemma EntryNames(w: World, t: Trace, path: Path, intent: Intent)
    requires EntryChecked(w, t, path, intent).Go?
    ensures Names(EntryChecked(w, t, path, intent).value, path, intent)
    ensures t <= EntryChecked(w, t, path, intent).trace
  {
  }

  predicate ListedFrom(w: World, t: Trace, all: seq<Entry>, n: nat, wants: seq<Want>) {
    |all| == n + |wants| && forall i :: 0 <= i < |wants| ==> Answers(w, t, all[n + i], wants[i])
  }

  lemma ListedFromStep(w: World, t: Trace, all: seq<Entry>, n: nat, wants: seq<Want>)
    requires wants != [] && ListedFrom(w, t, all, n + 1, wants[1..]) && Answers(w, t, all[n], wants[0])
    ensures ListedFrom(w, t, all, n, wants)
  {
    hide Answers;
    forall i | 0 <= i < |wants| ensures Answers(w, t, all[n + i], wants[i]) {
      if i > 0 {
        assert wants[1..][i - 1] == wants[i];
        assert all[n + 1 + (i - 1)] == all[n + i];
      }
    }
  }

  /** Without optional wants a finished report has one entry per want, in order. */
  lemma {:induction false} ReportListsEveryWant(w: World, t: Trace, wants: seq<Want>, entries: seq<Entry>)
    requires FulfilAll(w, t, wants, entries).Go?
    requires forall i :: 0 <= i < |wants| ==> !wants[i].WantOptional?
    ensures var r := FulfilAll(w, t, wants, entries);
            t <= r.trace && entries <= r.value && ListedFrom(w, r.trace, r.value, |entries|, wants)
    decreases |wants|
  {
    if wants != [] {
      hide Fulfil, Answers, ListedFrom;
      FulfilAnswers(w, t, wants[0]);
      var r := Fulfil(w, t, wants[0]);
      var more := entries + r.value;
      ReportListsEveryWant(w, r.trace, wants[1..], more);
      var end := FulfilAll(w, t, wants, entries);
      assert end.value[|entries|] == more[|entries|];
      AnswersStay(w, r.trace, end.trace, r.value[0], wants[0]);
      ListedFromStep(w, end.trace, end.value, |entries|, wants);
    } else {
      hide Answers;
    }
  }

  /** The volume an entry carries is the one discovered for its own path. */
  predicate Discovered(w: World, t: Trace, e: Entry) {
    exists d :: 0 <= d < |t| && t[d] == Discover(e.path, true) && e.volume == w.volumeOf(e.path, d)
  }

  lemma DiscoveredStays(w: World, t: Trace, t': Trace, e: Entry)
    requires Discovered(w, t, e) && t <= t'
    ensures Discovered(w, t', e)
  {
    var d :| 0 <= d < |t| && t[d] == Discover(e.path, true) && e.volume == w.volumeOf(e.path, d);
    assert t'[d] == t[d];
  }

  lemma EntryIsDiscovered(w: World, t: Trace, path: Path, intent: Intent)
    requires EntryChecked(w, t, path, intent).Go?
    ensures Discovered(w, EntryChecked(w, t, path, intent).trace, EntryChecked(w, t, path, intent).value)
  {
    var r := EntryChecked(w, t, path, intent);
    assert r.trace[|t| + 1] == Discover(path, true);
  }

  lemma FulfilDiscovers(w: World, t: Trace, want: Want)
    requires Fulfil(w, t, want).Go?
    ensures forall e :: e in Fulfil(w, t, want).value ==> Discovered(w, Fulfil(w, t, want).trace, e)
  {
    hide Check, CheckedWriteProbe, EntryChecked, Discovered;
    var path := want.path;
    match want {
      case WantRead(_, intent) => EntryIsDiscovered(w, Check(w, t).trace, path, intent);
      case WantIndexRoot(_) => EntryIsDiscovered(w, t, path, Index);
      case WantIndexWrite(_) =>
        var p := CheckedWriteProbe(w, t, path, false);
        EntryIsDiscovered(w, p.trace, p.value, Write);
      case WantWrite(_) =>
        var p := CheckedWriteProbe(w, Check(w, t).trace, path, true);
        EntryIsDiscovered(w, Check(w, p.trace).trace, p.value, Write);
      case WantOptional(_) =>
        if Fulfil(w, t, want).value != [] {
          var probed := Check(w, Check(w, t).trace).trace + [Probe(path, false)];
          EntryIsDiscovered(w, Check(w, Check(w, probed).trace).trace, path, Read);
        }
    }
  }

  /** So every gate of the access loop judges a volume that was really discovered
      for the path it guards. */
  lemma {:induction false} ReportVolumesAreDiscovered(w: World, t: Trace, wants: seq<Want>, entries: seq<Entry>)
    requires Sound(t) && FulfilAll(w, t, wants, entries).Go?
    requires forall e :: e in entries ==> Discovered(w, t, e)
    ensures var r := FulfilAll(w, t, wants, entries); forall e :: e in r.value ==> Discovered(w, r.trace, e)
    decreases |wants|
  {
    if wants != [] {
      hide Fulfil, Discovered, ProbesGated, AllPollsPassed;
      var r := Fulfil(w, t, wants[0]);
      FulfilOrderly(w, t, wants[0]);
      FulfilDiscovers(w, t, wants[0]);
      forall e | e in entries ensures Discovered(w, r.trace, e) {
        DiscoveredStays(w, t, r.trace, e);
      }
      ReportVolumesAreDiscovered(w, r.trace, wants[1..], entries + r.value);
    }
  }

  // ----- The three constructors -----

  function SegmentReport(w: World, manifest: Option<Path>, output: Path, segments: seq<Path>): Out<seq<Entry>> {
    FulfilAll(w, [], SegmentWants(manifest, output, segments), [])
  }

  function JobReport(w: World, root: Path, targets: seq<Path>, queue: Option<Path>, cache: Option<Path>,
                     journal: Option<Path>)
    : Out<seq<Entry>>
  {
    FulfilAll(w, [], JobWants(root, targets, queue, cache, journal), [])
  }

  function IndexReport(w: World, root: Path, writes: seq<Path>): Out<seq<Entry>> {
    FulfilAll(w, [], IndexWants(root, writes), [])
  }

  /** Every report the three constructors build is orderly, for any number of
      segments and write targets. */
  lemma ConstructorsAreOrderly(w: World, manifest: Option<Path>, output: Path, segments: seq<Path>, root: Path,
                               targets: seq<Path>, queue: Option<Path>, cache: Option<Path>, journal: Option<Path>)
    ensures Orderly(SegmentReport(w, manifest, output, segments))
    ensures Orderly(JobReport(w, root, targets, queue, cache, journal))
    ensures Orderly(IndexReport(w, root, targets))
  {
    hide FulfilAll, SegmentWants, JobWants, IndexWants, Orderly;
    assert Sound([]);
    ReportsAreOrderly(w, [], SegmentWants(manifest, output, segments), []);
    ReportsAreOrderly(w, [], JobWants(root, targets, queue, cache, journal), []);
    ReportsAreOrderly(w, [], IndexWants(root, targets), []);
  }

  /** A finished segment report: the manifest if there is one, the output archive or
      its parent, then every segment in its place. */
  lemma SegmentReportEntries(w: World, manifest: Option<Path>, output: Path, segments: seq<Path>)
    requires SegmentReport(w, manifest, output, segments).Go?
    ensures var r, m := SegmentReport(w, manifest, output, segments), if manifest.Some? then 1 else 0;
            && |r.value| == m + 1 + |segments|
            && (manifest.Some? ==> Names(r.value[0], manifest.value, Read))
            && Targets(w, r.trace, r.value[m], output, true)
            && forall i :: 0 <= i < |segments| ==> Names(r.value[m + 1 + i], segments[i], Read)
  {
    hide FulfilAll, Targets;
    var r, wants := SegmentReport(w, manifest, output, segments), SegmentWants(manifest, output, segments);
    var m := if manifest.Some? then 1 else 0;
    ReportListsEveryWant(w, [], wants, []);
    assert forall i :: 0 <= i < |wants| ==> Answers(w, r.trace, r.value[0 + i], wants[i]);
    assert wants[m] == WantWrite(output) && Answers(w, r.trace, r.value[m], wants[m]);
    assert manifest.Some? ==> wants[0] == WantRead(manifest.value, Read);
    forall i | 0 <= i < |segments| ensures Names(r.value[m + 1 + i], segments[i], Read) {
      assert wants[m + 1 + i] == WantRead(segments[i], Read);
      assert Answers(w, r.trace, r.value[0 + (m + 1 + i)], wants[m + 1 + i]);
    }
  }

  /** A finished index report: the root, then every target or its parent. */
  lemma IndexReportEntries(w: World, root: Path, writes: seq<Path>)
    requires IndexReport(w, root, writes).Go?
    ensures var r := IndexReport(w, root, writes);
            && |r.value| == 1 + |writes|
            && Names(r.value[0], root, Index)
            && forall i :: 0 <= i < |writes| ==> Targets(w, r.trace, r.value[1 + i], writes[i], false)
  {
    hide FulfilAll, Targets;
    var r, wants := IndexReport(w, root, writes), IndexWants(root, writes);
    ReportListsEveryWant(w, [], wants, []);
    assert wants[0] == WantIndexRoot(root) && Answers(w, r.trace, r.value[0 + 0], wants[0]);
    forall i | 0 <= i < |writes| ensures Targets(w, r.trace, r.value[1 + i], writes[i], false) {
      assert wants[1 + i] == WantIndexWrite(writes[i]);
      assert Answers(w, r.trace, r.value[0 + (1 + i)], wants[1 + i]);
    }
  }

  // ----- Every look at the outside is between two polls -----

  /** A discovery or a probe. */
  predicate Looks(e: Event) { e.Discover? || e.Probe? }

  /** The added effects look at the outside directly after a passed poll and directly
      before another poll, and probe for reading nothing but these paths. */
  predicate Tidy(t: Trace, t': Trace, peeked: set<Path>) {
    t <= t' && forall i :: |t| <= i < |t'| ==> TidyAt(t', |t|, i, peeked)
  }

  predicate TidyAt(t: Trace, from: nat, i: nat, peeked: set<Path>)
    requires from <= i < |t|
  {
    && (Looks(t[i]) ==> from < i && t[i - 1] == Poll(true) && (i + 1 < |t| ==> t[i + 1].Poll?))
    && (t[i].Probe? && !t[i].forWrite ==> t[i].path in peeked)
  }

  /** The added effects do not end with a look. */
  predicate Closed(t: Trace, t': Trace) {
    |t| <= |t'| && (|t| < |t'| ==> !Looks(t'[|t'| - 1]))
  }

  lemma TidyJoin(t: Trace, t': Trace, t'': Trace, peeked: set<Path>)
    requires Tidy(t, t', peeked) && Closed(t, t') && Tidy(t', t'', peeked)
    ensures Tidy(t, t'', peeked)
    ensures Closed(t', t'') ==> Closed(t, t'')
  {
    forall i | |t| <= i < |t''| ensures TidyAt(t'', |t|, i, peeked) {
      if i < |t'| {
        assert TidyAt(t', |t|, i, peeked) && t''[i] == t'[i];
        assert i > 0 ==> t''[i - 1] == t'[i - 1];
        assert i + 1 < |t'| ==> t''[i + 1] == t'[i + 1];
      } else {
        assert TidyAt(t'', |t'|, i, peeked);
      }
    }
  }

  lemma CheckTidy(w: World, t: Trace, peeked: set<Path>)
    ensures Tidy(t, Check(w, t).trace, peeked) && Closed(t, Check(w, t).trace)
  {
  }

  lemma VolumeTidy(w: World, t: Trace, path: Path, peeked: set<Path>)
    ensures Tidy(t, VolumeOf(w, t, path).trace, peeked)
    ensures VolumeOf(w, t, path).Go? ==> Closed(t, VolumeOf(w, t, path).trace)
  {
  }

  lemma GateTidy(w: World, t: Trace, path: Path, intent: Intent, v: Option<Volume>, peeked: set<Path>)
    ensures Tidy(t, GateVolume(w, t, path, intent, v).trace, peeked)
    ensures Closed(t, GateVolume(w, t, path, intent, v).trace)
  {
    hide VolumeBlock, ConsultsRoot;
  }

  lemma EntryTidy(w: World, t: Trace, path: Path, intent: Intent, peeked: set<Path>)
    ensures Tidy(t, EntryChecked(w, t, path, intent).trace, peeked)
    ensures EntryChecked(w, t, path, intent).Go? ==> Closed(t, EntryChecked(w, t, path, intent).trace)
  {
    hide VolumeOf, Tidy, Closed;
    VolumeTidy(w, t, path, peeked);
  }

  lemma PreflightTidy(w: World, t: Trace, path: Path, peeked: set<Path>)
    ensures Tidy(t, PreflightTarget(w, t, path).trace, peeked)
    ensures PreflightTarget(w, t, path).Go? ==> Closed(t, PreflightTarget(w, t, path).trace)
  {
    hide VolumeOf, GateVolume, Tidy, Closed;
    var v := VolumeOf(w, t, ParentOrCwd(path));
    VolumeTidy(w, t, ParentOrCwd(path), peeked);
    if v.Go? {
      var g := GateVolume(w, v.trace, ParentOrCwd(path), Write, v.value);
      GateTidy(w, v.trace, ParentOrCwd(path), Write, v.value, peeked);
      TidyJoin(t, v.trace, g.trace, peeked);
    }
  }

  /** A poll, a probe, and a poll if the probe went well. */
  lemma LookTidy(w: World, t: Trace, look: Event, peeked: set<Path>)
    requires look.Probe? && (look.forWrite || look.path in peeked)
    ensures var c := Check(w, t);
            c.Go? ==> var p := c.trace + [look];
                      && Tidy(t, p, peeked)
                      && Tidy(t, Check(w, p).trace, peeked) && Closed(t, Check(w, p).trace)
  {
  }

  lemma ProbeTidy(w: World, t: Trace, path: Path, checkName: bool, peeked: set<Path>)
    ensures Tidy(t, CheckedWriteProbe(w, t, path, checkName).trace, peeked)
    ensures CheckedWriteProbe(w, t, path, checkName).Go? ==>
              Closed(t, CheckedWriteProbe(w, t, path, checkName).trace)
  {
    hide PreflightTarget, NameFits, Tidy, Closed;
    var c := Check(w, t);
    CheckTidy(w, t, peeked);
    if c.Go? {
      var g := PreflightTarget(w, c.trace, path);
      PreflightTidy(w, c.trace, path, peeked);
      TidyJoin(t, c.trace, g.trace, peeked);
      if g.Go? {
        CheckTidy(w, g.trace, peeked);
        LookTidy(w, g.trace, Probe(path, true), peeked);
        TidyJoin(t, g.trace, CheckedWriteProbe(w, t, path, checkName).trace, peeked);
      }
    }
  }

  /** What a want may probe for reading. */
  function Peeks(want: Want): set<Path> {
    if want.WantOptional? then {want.path} else {}
  }

  lemma FulfilTidy(w: World, t: Trace, want: Want, peeked: set<Path>)
    requires Peeks(want) <= peeked
    ensures Tidy(t, Fulfil(w, t, want).trace, peeked)
    ensures Fulfil(w, t, want).Go? ==> Closed(t, Fulfil(w, t, want).trace)
  {
    hide CheckedWriteProbe, EntryChecked, Tidy, Closed;
    var path := want.path;
    var c := Check(w, t);
    CheckTidy(w, t, peeked);
    match want {
      case WantIndexRoot(_) => EntryTidy(w, t, path, Index, peeked);
      case WantIndexWrite(_) =>
        var p := CheckedWriteProbe(w, t, path, false);
        ProbeTidy(w, t, path, false, peeked);
        if p.Go? {
          ThenEntry(w, t, p.trace, p.value, Write, peeked);
        }
      case WantRead(_, intent) =>
        if c.Go? {
          ThenEntry(w, t, c.trace, path, intent, peeked);
        }
      case WantWrite(_) =>
        if c.Go? {
          var p := CheckedWriteProbe(w, c.trace, path, true);
          ProbeTidy(w, c.trace, path, true, peeked);
          TidyJoin(t, c.trace, p.trace, peeked);
          if p.Go? {
            ThenPolledEntry(w, t, p.trace, p.value, Write, peeked);
          }
        }
      case WantOptional(_) =>
        if c.Go? {
          PeekTidy(w, c.trace, path, peeked);
          TidyJoin(t, c.trace, OptionalTail(w, c.trace, path).trace, peeked);
        }
    }
  }

  lemma ThenEntry(w: World, t: Trace, t': Trace, path: Path, intent: Intent, peeked: set<Path>)
    requires Tidy(t, t', peeked) && Closed(t, t')
    ensures Tidy(t, EntryChecked(w, t', path, intent).trace, peeked)
    ensures EntryChecked(w, t', path, intent).Go? ==> Closed(t, EntryChecked(w, t', path, intent).trace)
  {
    hide EntryChecked, Tidy, Closed;
    EntryTidy(w, t', path, intent, peeked);
    TidyJoin(t, t', EntryChecked(w, t', path, intent).trace, peeked);
  }

  lemma ThenPolledEntry(w: World, t: Trace, t': Trace, path: Path, intent: Intent, peeked: set<Path>)
    requires Tidy(t, t', peeked) && Closed(t, t')
    ensures Tidy(t, ReadEntry(w, t', path, intent).trace, peeked)
    ensures ReadEntry(w, t', path, intent).Go? ==> Closed(t, ReadEntry(w, t', path, intent).trace)
  {
    hide EntryChecked, Tidy, Closed;
    CheckTidy(w, t', peeked);
    TidyJoin(t, t', Check(w, t').trace, peeked);
    if Check(w, t').Go? {
      ThenEntry(w, t, Check(w, t').trace, path, intent, peeked);
    }
  }

  lemma PeekTidy(w: World, t: Trace, path: Path, peeked: set<Path>)
    requires path in peeked
    ensures Tidy(t, OptionalTail(w, t, path).trace, peeked)
    ensures OptionalTail(w, t, path).Go? ==> Closed(t, OptionalTail(w, t, path).trace)
  {
    hide EntryChecked, ReadEntry, Tidy, Closed;
    var c := Check(w, t);
    CheckTidy(w, t, peeked);
    LookTidy(w, t, Probe(path, false), peeked);
    if c.Go? {
      var probed := c.trace + [Probe(path, false)];
      if Check(w, probed).Go? {
        ThenPolledEntry(w, t, Check(w, probed).trace, path, Read, peeked);
      }
    }
  }

  /** A report looks at the outside only between two polls, and probes nothing for
      reading but what is optional. */
  lemma {:induction false} ReportIsTidy(w: World, t: Trace, wants: seq<Want>, entries: seq<Entry>, peeked: set<Path>)
    requires forall i :: 0 <= i < |wants| ==> Peeks(wants[i]) <= peeked
    ensures Tidy(t, FulfilAll(w, t, wants, entries).trace, peeked)
    ensures FulfilAll(w, t, wants, entries).Go? ==> Closed(t, FulfilAll(w, t, wants, entries).trace)
    decreases |wants|
  {
    if wants != [] {
      hide Fulfil, Tidy, Closed;
      var r := Fulfil(w, t, wants[0]);
      FulfilTidy(w, t, wants[0], peeked);
      if r.Go? {
        ReportIsTidy(w, r.trace, wants[1..], entries + r.value, peeked);
        TidyJoin(t, r.trace, FulfilAll(w, r.trace, wants[1..], entries + r.value).trace, peeked);
      }
    }
  }

  // ----- The probe without a gate -----

  /** The volumes a request gates: a write target's parent's. */
  function Gated(want: Want): set<Path> {
    match want
    case WantWrite(path) => {ParentOrCwd(path)}
    case WantIndexWrite(path) => {ParentOrCwd(path)}
    case _ => {}
  }

  /** The added effects gate nothing but these paths. */
  predicate GatesOnly(t: Trace, t': Trace, paths: set<Path>) {
    t <= t' && forall i :: |t| <= i < |t'| && t'[i].Gate? ==> t'[i].path in paths
  }

  lemma GatesJoin(t: Trace, t': Trace, t'': Trace, paths: set<Path>)
    requires GatesOnly(t, t', paths) && GatesOnly(t', t'', paths)
    ensures GatesOnly(t, t'', paths)
  {
    forall i | |t| <= i < |t''| && t''[i].Gate? ensures t''[i].path in paths {
      assert i < |t'| ==> t''[i] == t'[i];
    }
  }

  lemma GatesWiden(t: Trace, t': Trace, paths: set<Path>, more: set<Path>)
    requires GatesOnly(t, t', paths) && paths <= more
    ensures GatesOnly(t, t', more)
  {
  }

  lemma CheckGates(w: World, t: Trace, paths: set<Path>)
    ensures GatesOnly(t, Check(w, t).trace, paths)
  {
  }

  lemma EntryGates(w: World, t: Trace, path: Path, intent: Intent, paths: set<Path>)
    ensures GatesOnly(t, EntryChecked(w, t, path, intent).trace, paths)
  {
  }

  lemma PreflightGates(w: World, t: Trace, path: Path)
    ensures GatesOnly(t, PreflightTarget(w, t, path).trace, {ParentOrCwd(path)})
  {
    hide VolumeBlock, ConsultsRoot;
  }

  lemma ProbeTargetGates(w: World, t: Trace, path: Path, checkName: bool, paths: set<Path>)
    ensures GatesOnly(t, ProbeTarget(w, t, path, checkName).trace, paths)
  {
    hide NameFits;
  }

  lemma ProbeGates(w: World, t: Trace, path: Path, checkName: bool)
    ensures GatesOnly(t, CheckedWriteProbe(w, t, path, checkName).trace, {ParentOrCwd(path)})
  {
    hide Check, PreflightTarget, ProbeTarget, GatesOnly;
    var own, c := {ParentOrCwd(path)}, Check(w, t);
    CheckGates(w, t, own);
    if c.Go? {
      var g := PreflightTarget(w, c.trace, path);
      PreflightGates(w, c.trace, path);
      GatesJoin(t, c.trace, g.trace, own);
      if g.Go? {
        var c2 := Check(w, g.trace);
        CheckGates(w, g.trace, own);
        GatesJoin(t, g.trace, c2.trace, own);
        if c2.Go? {
          var p := ProbeTarget(w, c2.trace, path, checkName);
          ProbeTargetGates(w, c2.trace, path, checkName, own);
          GatesJoin(t, c2.trace, p.trace, own);
          if p.Go? {
            CheckGates(w, p.trace, own);
            GatesJoin(t, p.trace, Check(w, p.trace).trace, own);
          }
        }
      }
    }
  }

  lemma FulfilGates(w: World, t: Trace, want: Want)
    ensures GatesOnly(t, Fulfil(w, t, want).trace, Gated(want))
  {
    hide Check, CheckedWriteProbe, EntryChecked, GatesOnly;
    var path, own := want.path, Gated(want);
    match want {
      case WantIndexRoot(_) => EntryGates(w, t, path, Index, own);
      case WantIndexWrite(_) =>
        var p := CheckedWriteProbe(w, t, path, false);
        ProbeGates(w, t, path, false);
        if p.Go? {
          EntryGates(w, p.trace, p.value, Write, own);
          GatesJoin(t, p.trace, EntryChecked(w, p.trace, p.value, Write).trace, own);
        }
      case WantWrite(_) => WriteGates(w, t, path);
      case WantOptional(_) => OptionalGates(w, t, path, own);
      case WantRead(_, intent) =>
        var c := Check(w, t);
        CheckGates(w, t, own);
        if c.Go? {
          EntryGates(w, c.trace, path, intent, own);
          GatesJoin(t, c.trace, EntryChecked(w, c.trace, path, intent).trace, own);
        }
    }
  }

  lemma WriteGates(w: World, t: Trace, path: Path)
    ensures GatesOnly(t, WriteEntry(w, t, path).trace, {ParentOrCwd(path)})
  {
    hide Check, CheckedWriteProbe, EntryChecked, GatesOnly;
    var own, c := {ParentOrCwd(path)}, Check(w, t);
    CheckGates(w, t, own);
    if c.Go? {
      var p := CheckedWriteProbe(w, c.trace, path, true);
      ProbeGates(w, c.trace, path, true);
      GatesJoin(t, c.trace, p.trace, own);
      if p.Go? {
        var c2 := Check(w, p.trace);
        CheckGates(w, p.trace, own);
        GatesJoin(t, p.trace, c2.trace, own);
        if c2.Go? {
          EntryGates(w, c2.trace, p.value, Write, own);
          GatesJoin(t, c2.trace, EntryChecked(w, c2.trace, p.value, Write).trace, own);
        }
      }
    }
  }

  lemma OptionalGates(w: World, t: Trace, path: Path, paths: set<Path>)
    ensures GatesOnly(t, OptionalRead(w, t, path).trace, paths)
  {
    hide EntryChecked;
    var c := Check(w, t);
    if c.Go? && Check(w, c.trace).Go? {
      var t1 := Check(w, c.trace).trace + [Probe(path, false)];
      assert GatesOnly(t, t1, paths);
      hide GatesOnly;
      var c1 := Check(w, t1);
      CheckGates(w, t1, paths);
      GatesJoin(t, t1, c1.trace, paths);
      if c1.Go? {
        var c2 := Check(w, c1.trace);
        CheckGates(w, c1.trace, paths);
        GatesJoin(t, c1.trace, c2.trace, paths);
        if c2.Go? {
          EntryGates(w, c2.trace, path, Read, paths);
          GatesJoin(t, c2.trace, EntryChecked(w, c2.trace, path, Read).trace, paths);
        }
      }
    }
  }

  function AllGated(wants: seq<Want>): set<Path> {
    if wants == [] then {} else Gated(wants[0]) + AllGated(wants[1..])
  }

  /** A report gates nothing but the parents of its write targets. */
  lemma {:induction false} ReportGates(w: World, t: Trace, wants: seq<Want>, entries: seq<Entry>)
    ensures GatesOnly(t, FulfilAll(w, t, wants, entries).trace, AllGated(wants))
    decreases |wants|
  {
    if wants != [] {
      hide Fulfil, GatesOnly, Gated;
      var r := Fulfil(w, t, wants[0]);
      FulfilGates(w, t, wants[0]);
      GatesWiden(t, r.trace, Gated(wants[0]), AllGated(wants));
      if r.Go? {
        var all := FulfilAll(w, r.trace, wants[1..], entries + r.value).trace;
        ReportGates(w, r.trace, wants[1..], entries + r.value);
        GatesWiden(r.trace, all, AllGated(wants[1..]), AllGated(wants));
        GatesJoin(t, r.trace, all, AllGated(wants));
      }
    }
  }

  /** A passing `Write` gate of the path is among the added effects. */
  predicate PassedGate(t: Trace, t': Trace, path: Path) {
    exists i :: |t| <= i < |t'| && t'[i] == Gate(path, Write, false)
  }

  lemma PassedStays(t: Trace, from: Trace, to: Trace, end: Trace, path: Path)
    requires PassedGate(from, to, path) && t <= from && to <= end
    ensures PassedGate(t, end, path)
  {
    var i :| |from| <= i < |to| && to[i] == Gate(path, Write, false);
    assert end[i] == to[i];
  }

  lemma PreflightPasses(w: World, t: Trace, path: Path)
    requires PreflightTarget(w, t, path).Go?
    ensures PassedGate(t, PreflightTarget(w, t, path).trace, ParentOrCwd(path))
  {
    hide VolumeBlock, ConsultsRoot;
    var g := PreflightTarget(w, t, path).trace;
    assert g[|g| - 1] == Gate(ParentOrCwd(path), Write, false);
  }

  lemma ProbePasses(w: World, t: Trace, path: Path, checkName: bool)
    requires CheckedWriteProbe(w, t, path, checkName).Go?
    ensures PassedGate(t, CheckedWriteProbe(w, t, path, checkName).trace, ParentOrCwd(path))
  {
    hide Check, PreflightTarget, ProbeTarget, PassedGate;
    var own, c := {ParentOrCwd(path)}, Check(w, t).trace;
    var g := PreflightTarget(w, c, path).trace;
    var c2 := Check(w, g).trace;
    var p := ProbeTarget(w, c2, path, checkName).trace;
    PreflightPasses(w, c, path);
    CheckGates(w, t, own);
    CheckGates(w, g, own);
    ProbeTargetGates(w, c2, path, checkName, own);
    CheckGates(w, p, own);
    PassedStays(t, c, g, Check(w, p).trace, ParentOrCwd(path));
  }

  /** A fulfilled request for a write target passed the gate of its parent. */
  lemma FulfilPasses(w: World, t: Trace, want: Want, path: Path)
    requires Fulfil(w, t, want).Go? && path in Gated(want)
    ensures PassedGate(t, Fulfil(w, t, want).trace, path)
  {
    hide Check, CheckedWriteProbe, EntryChecked, PassedGate;
    match want {
      case WantIndexWrite(target) =>
        var p := CheckedWriteProbe(w, t, target, false);
        ProbePasses(w, t, target, false);
        EntryGates(w, p.trace, p.value, Write, {});
        PassedStays(t, t, p.trace, EntryChecked(w, p.trace, p.value, Write).trace, path);
      case WantWrite(target) =>
        var c := Check(w, t).trace;
        var p := CheckedWriteProbe(w, c, target, true);
        var c2 := Check(w, p.trace).trace;
        ProbePasses(w, c, target, true);
        CheckGates(w, t, {});
        CheckGates(w, p.trace, {});
        EntryGates(w, c2, p.value, Write, {});
        PassedStays(t, c, p.trace, EntryChecked(w, c2, p.value, Write).trace, path);
      case _ =>
    }
  }

  /** A finished report passed the gate of every write target's parent. */
  lemma {:induction false} ReportPasses(w: World, t: Trace, wants: seq<Want>, entries: seq<Entry>, path: Path)
    requires FulfilAll(w, t, wants, entries).Go? && path in AllGated(wants)
    ensures PassedGate(t, FulfilAll(w, t, wants, entries).trace, path)
    decreases |wants|
  {
    hide Fulfil, Gated, PassedGate;
    var r, rest := Fulfil(w, t, wants[0]), wants[1..];
    var all := FulfilAll(w, r.trace, rest, entries + r.value).trace;
    FulfilGates(w, t, wants[0]);
    ReportGates(w, r.trace, rest, entries + r.value);
    if path in Gated(wants[0]) {
      FulfilPasses(w, t, wants[0], path);
      PassedStays(t, t, r.trace, all, path);
    } else {
      ReportPasses(w, r.trace, rest, entries + r.value, path);
      PassedStays(t, r.trace, all, all, path);
    }
  }

  lemma {:induction false} FulfilInTwo(w: World, t: Trace, a: seq<Want>, b: seq<Want>, entries: seq<Entry>)
    ensures FulfilAll(w, t, a + b, entries) ==
            match FulfilAll(w, t, a, entries)
            case Fail(t', error) => Fail(t', error)
            case Go(t', es) => FulfilAll(w, t', b, es)
    decreases |a|
  {
    hide Fulfil;
    if a == [] {
      assert a + b == b;
    } else {
      assert (a + b)[1..] == a[1..] + b && (a + b)[0] == a[0];
      var r := Fulfil(w, t, a[0]);
      if r.Go? {
        FulfilInTwo(w, r.trace, a[1..], b, entries + r.value);
      }
    }
  }

  lemma {:induction false} WritingGates(paths: seq<Path>)
    ensures AllGated(Writing(paths)) == set p | p in paths :: ParentOrCwd(p)
  {
    if paths != [] {
      WritingGates(paths[1..]);
      assert Writing(paths)[1..] == Writing(paths[1..]);
      assert forall p :: p in paths <==> p == paths[0] || p in paths[1..];
    }
  }

  lemma {:induction false} GatedConcat(a: seq<Want>, b: seq<Want>)
    ensures AllGated(a + b) == AllGated(a) + AllGated(b)
  {
    if a == [] {
      assert a + b == b;
    } else {
      assert (a + b)[1..] == a[1..] + b;
      GatedConcat(a[1..], b);
    }
  }

  /** The surroundings refuse nothing, and every path is a directory on no volume. */
  const FRIENDLY: World :=
    World(_ => true, (_, _) => true, (_, _) => None, (_, _, _) => Evaluation(Allow, false), _ => true,
          (_, _, _) => NoRecord, (_, _) => Directory)

  lemma {:induction false} FriendlyGoes(t: Trace, wants: seq<Want>, entries: seq<Entry>)
    ensures FulfilAll(FRIENDLY, t, wants, entries).Go?
    decreases |wants|
  {
    if wants != [] {
      FriendlyFulfils(t, wants[0]);
      hide Fulfil;
      FriendlyGoes(Fulfil(FRIENDLY, t, wants[0]).trace, wants[1..], entries + Fulfil(FRIENDLY, t, wants[0]).value);
    }
  }

  lemma FriendlyFulfils(t: Trace, want: Want)
    ensures Fulfil(FRIENDLY, t, want).Go?
  {
    hide NameFits;
  }

  /** What a job report asks for before the recognition cache. */
  function BeforeCache(root: Path, targets: seq<Path>, queue: Option<Path>): seq<Want> {
    [WantRead(root, Index)] + Writing(targets) + (if queue.Some? then [WantWrite(queue.value)] else [])
  }

  /** The directories of the write targets and of the queue. */
  function TargetDirectories(targets: seq<Path>, queue: Option<Path>): set<Path> {
    (set p | p in targets :: ParentOrCwd(p)) + (if queue.Some? then {ParentOrCwd(queue.value)} else {})
  }

  lemma BeforeCacheGates(root: Path, targets: seq<Path>, queue: Option<Path>)
    ensures AllGated(BeforeCache(root, targets, queue)) == TargetDirectories(targets, queue)
  {
    var read, last := [WantRead(root, Index)], if queue.Some? then [WantWrite(queue.value)] else [];
    GatedConcat(read, Writing(targets));
    GatedConcat(read + Writing(targets), last);
    WritingGates(targets);
    assert read[1..] == [] && AllGated(read) == {};
    assert last != [] ==> last[1..] == [];
  }

  lemma JobWantsSplit(root: Path, targets: seq<Path>, queue: Option<Path>, cache: Path, journal: Option<Path>)
    ensures JobWants(root, targets, queue, Some(cache), journal) ==
            BeforeCache(root, targets, queue) + ([WantOptional(cache)]
              + (if journal.Some? then [WantWrite(journal.value)] else []))
  {
  }

  /** Any job report that gets as far as its recognition cache probes it having gated
      exactly the parents of the write targets and of the queue. So the directory of
      the cache was gated before the probe if and only if it is one of these. */
  lemma CacheProbe(w: World, root: Path, targets: seq<Path>, queue: Option<Path>, cache: Path, journal: Option<Path>)
    returns (n: nat)
    requires var before := FulfilAll(w, [], BeforeCache(root, targets, queue), []);
             before.Go? && w.allow(|before.trace|) && w.allow(|before.trace| + 1)
    ensures var t := JobReport(w, root, targets, queue, Some(cache), journal).trace;
            && n < |t| && t[n] == Probe(cache, false)
            && (forall i :: 0 <= i < n && t[i].Gate? ==> t[i].path in TargetDirectories(targets, queue))
            && forall p :: PassedGate([], t[..n], p) <==> p in TargetDirectories(targets, queue)
  {
    hide JobWants, BeforeCache, FulfilAll, GatesOnly, EntryChecked, TargetDirectories;
    BeforeCacheGates(root, targets, queue);
    var wants := BeforeCache(root, targets, queue);
    var tail := if journal.Some? then [WantWrite(journal.value)] else [];
    var before := FulfilAll(w, [], wants, []);
    n := |before.trace| + 2;
    JobWantsSplit(root, targets, queue, cache, journal);
    FulfilInTwo(w, [], wants, [WantOptional(cache)] + tail, []);
    FulfilFirst(w, before.trace, WantOptional(cache), tail, before.value);
    ReportGates(w, [], wants, []);
    var t := JobReport(w, root, targets, queue, Some(cache), journal).trace;
    var probed := before.trace + [Poll(true)] + [Poll(true)] + [Probe(cache, false)];
    OptionalProbes(w, before.trace, cache);
    assert probed <= t;
    assert t[n] == probed[n];
    GatesBefore(before.trace, probed, t, n, AllGated(wants));
    forall p | p in AllGated(wants) ensures PassedGate([], t[..n], p) {
      ReportPasses(w, [], wants, [], p);
      hide PassedGate;
      assert before.trace <= t[..n];
      PassedStays([], [], before.trace, t[..n], p);
    }
  }

  /** A finished job report: the root, the write targets and the queue or their
      parents, the cache if and only if its probe, the only probe for reading, found
      it, and last the journal or its parent. */
  lemma JobReportEntries(w: World, root: Path, targets: seq<Path>, queue: Option<Path>, cache: Option<Path>,
                         journal: Option<Path>)
    returns (n: nat)
    requires JobReport(w, root, targets, queue, cache, journal).Go?
    ensures var r := JobReport(w, root, targets, queue, cache, journal);
            var b := 1 + |targets| + Count(queue);
            var found := if cache.Some? && w.metadata(cache.value, n) != NotFound then 1 else 0;
            && |r.value| == b + found + Count(journal)
            && Names(r.value[0], root, Index)
            && (forall i :: 0 <= i < |targets| ==> Targets(w, r.trace, r.value[1 + i], targets[i], true))
            && (queue.Some? ==> Targets(w, r.trace, r.value[1 + |targets|], queue.value, true))
            && (found == 1 ==> Names(r.value[b], cache.value, Read))
            && (journal.Some? ==> Targets(w, r.trace, r.value[b + found], journal.value, true))
            && (cache.Some? ==> n < |r.trace| && r.trace[n] == Probe(cache.value, false))
            && forall i, p :: 0 <= i < |r.trace| && r.trace[i] == Probe(p, false) ==> i == n && cache == Some(p)
  {
    hide FulfilAll, Fulfil, Targets, Tidy, ListedFrom;
    var r, b := JobReport(w, root, targets, queue, cache, journal), 1 + |targets| + Count(queue);
    var wants, middle := BeforeCache(root, targets, queue), if cache.Some? then [WantOptional(cache.value)] else [];
    var tail := if journal.Some? then [WantWrite(journal.value)] else [];
    assert JobWants(root, targets, queue, cache, journal) == wants + (middle + tail);
    FulfilInTwo(w, [], wants, middle + tail, []);
    var before := FulfilAll(w, [], wants, []);
    FulfilInTwo(w, before.trace, middle, tail, before.value);
    var mid := FulfilAll(w, before.trace, middle, before.value);
    ReportListsEveryWant(w, [], wants, []);
    ReportListsEveryWant(w, mid.trace, tail, mid.value);
    ReportIsTidy(w, [], wants, [], {});
    ReportIsTidy(w, mid.trace, tail, mid.value, {});
    n := |before.trace| + 2;
    MiddleOfJob(w, before.trace, cache, before.value);
    JobPeeksOnce(before.trace, mid.trace, r.trace, cache, n);
    BeforeCacheEntries(w, before.trace, before.value, root, targets, queue);
    assert before.value <= mid.value <= r.value;
    assert forall i :: 0 <= i < b ==> r.value[i] == before.value[i];
    TailEntry(w, r.trace, r.value, |mid.value|, journal);
    forall i | 0 <= i < |targets| ensures Targets(w, r.trace, r.value[1 + i], targets[i], true) {
      assert r.value[1 + i] == before.value[1 + i];
      TargetsStay(w, before.trace, r.trace, r.value[1 + i], targets[i], true);
    }
    if queue.Some? {
      TargetsStay(w, before.trace, r.trace, r.value[1 + |targets|], queue.value, true);
    }
  }

  function Count(path: Option<Path>): nat { if path.Some? then 1 else 0 }

  lemma BeforeCacheEntries(w: World, t: Trace, es: seq<Entry>, root: Path, targets: seq<Path>, queue: Option<Path>)
    requires ListedFrom(w, t, es, 0, BeforeCache(root, targets, queue))
    ensures |es| == 1 + |targets| + Count(queue) && Names(es[0], root, Index)
    ensures forall i :: 0 <= i < |targets| ==> Targets(w, t, es[1 + i], targets[i], true)
    ensures queue.Some? ==> Targets(w, t, es[1 + |targets|], queue.value, true)
  {
    hide Targets;
    var wants := BeforeCache(root, targets, queue);
    assert wants[0] == WantRead(root, Index) && Answers(w, t, es[0 + 0], wants[0]);
    forall i | 0 <= i < |targets| ensures Targets(w, t, es[1 + i], targets[i], true) {
      assert wants[1 + i] == WantWrite(targets[i]) && Answers(w, t, es[0 + (1 + i)], wants[1 + i]);
    }
    var last := 1 + |targets|;
    if queue.Some? {
      assert wants[last] == WantWrite(queue.value) && Answers(w, t, es[0 + last], wants[last]);
    }
  }

  lemma TailEntry(w: World, t: Trace, es: seq<Entry>, n: nat, journal: Option<Path>)
    requires ListedFrom(w, t, es, n, if journal.Some? then [WantWrite(journal.value)] else [])
    ensures |es| == n + Count(journal)
    ensures journal.Some? ==> Targets(w, t, es[n], journal.value, true)
  {
    hide Targets;
    if journal.Some? {
      var wants := [WantWrite(journal.value)];
      assert Answers(w, t, es[n + 0], wants[0]);
    }
  }

  /** The cache's part of a job report: its probe comes third, and its entry follows
      if and only if the probe found something. */
  lemma MiddleOfJob(w: World, t: Trace, cache: Option<Path>, entries: seq<Entry>)
    requires FulfilAll(w, t, if cache.Some? then [WantOptional(cache.value)] else [], entries).Go?
    ensures var r := FulfilAll(w, t, if cache.Some? then [WantOptional(cache.value)] else [], entries);
            && t <= r.trace && entries <= r.value
            && (cache.None? ==> r.trace == t && r.value == entries)
            && (cache.Some? ==>
                  var n := |t| + 2;
                  && n < |r.trace| && r.trace[n] == Probe(cache.value, false)
                  && |r.value| == |entries| + (if w.metadata(cache.value, n) != NotFound then 1 else 0)
                  && (w.metadata(cache.value, n) != NotFound ==> Names(r.value[|entries|], cache.value, Read))
                  && forall i :: |t| <= i < |r.trace| && i != n ==> !r.trace[i].Probe?)
  {
    if cache.Some? {
      hide EntryChecked;
      var want := WantOptional(cache.value);
      assert [want][1..] == [];
      var r := Fulfil(w, t, want);
      var probed := t + [Poll(true)] + [Poll(true)] + [Probe(cache.value, false)];
      if r.value != [] {
        var p := probed + [Poll(true)] + [Poll(true)];
        assert r == EntriesOf(EntryChecked(w, p, cache.value, Read));
        EntryHasNoProbe(w, p, cache.value, Read);
      }
    }
  }

  lemma EntryHasNoProbe(w: World, t: Trace, path: Path, intent: Intent)
    requires EntryChecked(w, t, path, intent).Go?
    ensures var r := EntryChecked(w, t, path, intent);
            && t <= r.trace && Names(r.value, path, intent)
            && forall i :: |t| <= i < |r.trace| ==> !r.trace[i].Probe?
  {
  }

  lemma JobPeeksOnce(before: Trace, mid: Trace, t: Trace, cache: Option<Path>, n: nat)
    requires Tidy([], before, {}) && before <= mid && Tidy(mid, t, {}) && n == |before| + 2
    requires cache.None? ==> mid == before
    requires cache.Some? ==> n < |mid| && mid[n] == Probe(cache.value, false)
    requires forall i :: |before| <= i < |mid| && i != n ==> !mid[i].Probe?
    ensures forall i, p :: 0 <= i < |t| && t[i] == Probe(p, false) ==> i == n && cache == Some(p)
  {
    forall i | 0 <= i < |before| ensures t[i].Probe? ==> t[i].forWrite {
      assert TidyAt(before, 0, i, {}) && t[i] == before[i];
    }
    forall i | |mid| <= i < |t| ensures t[i].Probe? ==> t[i].forWrite {
      assert TidyAt(t, |mid|, i, {});
    }
  }

  lemma OptionalProbes(w: World, t: Trace, cache: Path)
    requires w.allow(|t|) && w.allow(|t| + 1)
    ensures t + [Poll(true)] + [Poll(true)] + [Probe(cache, false)] <= OptionalRead(w, t, cache).trace
  {
  }

  lemma FulfilFirst(w: World, t: Trace, want: Want, tail: seq<Want>, entries: seq<Entry>)
    ensures Fulfil(w, t, want).trace <= FulfilAll(w, t, [want] + tail, entries).trace
  {
    hide Fulfil;
    assert ([want] + tail)[1..] == tail;
    var r := Fulfil(w, t, want);
    if r.Go? {
      ReportGates(w, r.trace, tail, entries + r.value);
    }
  }

  lemma GatesBefore(before: Trace, probed: Trace, t: Trace, n: nat, paths: set<Path>)
    requires GatesOnly([], before, paths) && n == |before| + 2 && |probed| == n + 1
    requires before <= probed <= t && !probed[|before|].Gate? && !probed[|before| + 1].Gate?
    ensures forall i :: 0 <= i < n && t[i].Gate? ==> t[i].path in paths
  {
    forall i | 0 <= i < n && t[i].Gate? ensures t[i].path in paths {
      assert t[i] == probed[i];
      assert i < |before| ==> probed[i] == before[i];
    }
  }

  /** So the recognition cache is not a gated probe: with write targets in other
      directories, surroundings that refuse nothing see it probed although neither
      it nor its parent was gated before. */
  lemma CacheProbeIsUngated(root: Path, targets: seq<Path>, cache: Path) returns (n: nat)
    requires forall p :: p in targets ==> ParentOrCwd(p) !in {cache, ParentOrCwd(cache)}
    ensures var t := JobReport(FRIENDLY, root, targets, None, Some(cache), None).trace;
            && n < |t| && t[n] == Probe(cache, false)
            && forall i :: 0 <= i < n && t[i].Gate? ==> t[i].path !in {cache, ParentOrCwd(cache)}
  {
    var wants := BeforeCache(root, targets, None);
    FriendlyGoes([], wants, []);
    hide FulfilAll, JobReport;
    n := CacheProbe(FRIENDLY, root, targets, None, cache, None);
  }
}
