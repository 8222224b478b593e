// Worker admission: the report a worker gets before it starts, the test by which
// callers recognize a volume block in it, and the subject line of a fan-out.
module Admission {
  import opened Text
  import opened Utf8
  import opened Intents
  import opened Access
  import opened AccessLaws

  const MARKER: string := " volume access blocked: "

  /** An admission: whether the file system may be touched, and why. */
  datatype Admission = Admission(canTouch: bool, reason: string)

  function BlockName(b: Block): string {
    match b
    case Unmounted => "unmounted volume "
    case Unreachable => "unreachable volume "
    case ApiUnavailable => "unavailable volume "
    case ReadOnlyVolume => "read-only volume "
  }

  const STARTS: string := " may start with filesystem access"
  const AVOIDS: string := " must avoid file IO" + " and publish metadata-only state"
  const WAITS: string := " must wait for permission" + " prompt orchestration"
  const DENIED: string := " access is denied"

  function Suffix(a: Action): string {
    match a
    case Allow => STARTS
    case Degrade => AVOIDS
    case Prompt => WAITS
    case Deny => DENIED
  }

  /** The admission of a worker. A read-only system root is evaluated first, for
      `rootAllows`, and the path once more, for `e`; `detail` describes the volume. */
  function WorkerAdmission(worker: string, v: Option<Volume>, intent: Intent, rootAllows: bool, e: Evaluation,
                           detail: string)
    : Admission
  {
    match VolumeBlock(v, intent, rootAllows)
    case Some(block) => Admission(false, worker + MARKER + BlockName(block) + detail)
    case None => Admission(e.action == Allow, worker + Suffix(e.action))
  }

  /** How callers recognize that a volume blocked the worker. */
  predicate BlockedByVolume(a: Admission) {
    !a.canTouch && Contains(a.reason, MARKER)
  }

  // ----- Refusals and the marker -----

  lemma MarkerShape()
    ensures |MARKER| == 24
    ensures forall j :: 0 <= j < 23 && MARKER[j] == ' ' ==> j in {0, 7, 14}
    ensures MARKER[0] == ' ' && MARKER[1] == 'v' && MARKER[8] == 'a' && MARKER[15] == 'b' && MARKER[23] == ' '
  {
  }

  /** No suffix of a refusal repeats the start of the marker. */
  predicate RefusalShape(s: string) {
    && |s| >= 17 && s[0] == ' ' && (s[1] == 'm' || (s[1] == 'a' && s[8] == 'i'))
    && forall k :: 1 <= k < |s| - 1 && s[k] == ' ' ==> s[k + 1] != 'v'
  }

  lemma ShapeOfTwo(a: string, b: string)
    requires RefusalShape(a) && forall k :: 0 <= k < |b| - 1 && b[k] == ' ' ==> b[k + 1] != 'v'
    requires b != [] && b[0] == ' ' && a[|a| - 1] != ' '
    ensures RefusalShape(a + b)
  {
    var s := a + b;
    assert forall k :: 0 <= k < |a| ==> s[k] == a[k];
    assert forall k :: |a| <= k < |s| ==> s[k] == b[k - |a|];
  }

  lemma SuffixShape(a: Action)
    requires a != Allow
    ensures RefusalShape(Suffix(a))
  {
    match a {
      case Degrade => ShapeOfTwo(" must avoid file IO", " and publish metadata-only state");
      case Prompt => ShapeOfTwo(" must wait for permission", " prompt orchestration");
      case Deny => assert RefusalShape(DENIED);
    }
  }

  /** A refusal that is not the volume's names the marker only if the worker's own
      name brings it. */
  lemma RefusalHoldsMarker(worker: string, a: Action)
    requires a != Allow
    ensures Contains(worker + Suffix(a), MARKER) <==> Contains(worker + " ", MARKER)
  {
    MarkerShape();
    SuffixShape(a);
    TailHoldsMarker(worker, Suffix(a));
  }

  lemma TailHoldsMarker(worker: string, tail: string)
    requires RefusalShape(tail) && |MARKER| == 24
    ensures Contains(worker + tail, MARKER) <==> Contains(worker + " ", MARKER)
  {
    var s, t := worker + tail, worker + " ";
    assert |t| <= |s| && s[..|t|] == t;
    hide RefusalShape, Contains;
    if Contains(t, MARKER) {
      var i := ContainedAt(t, MARKER);
      assert s[i..i + 24] == t[i..i + 24];
      ContainsAt(s, MARKER, i);
    }
    if Contains(s, MARKER) {
      var i := ContainedAt(s, MARKER);
      MarkerEndsEarly(worker, tail, i);
      assert t[i..i + 24] == s[i..i + 24];
      ContainsAt(t, MARKER, i);
    }
  }

  /** The marker neither starts inside such a tail nor runs across its start. */
  lemma MarkerEndsEarly(worker: string, tail: string, i: nat)
    requires RefusalShape(tail) && |MARKER| == 24 && i + 24 <= |worker + tail|
    requires (worker + tail)[i..i + 24] == MARKER
    ensures i + 24 <= |worker| + 1
  {
    var s, n := worker + tail, |worker|;
    MarkerStart(worker, tail, i);
    MarkerShape();
    assert s[n] == tail[0] && s[n + 1] == tail[1] && s[n + 8] == tail[8];
    hide RefusalShape;
    assert forall m :: i <= m < i + 24 ==> s[m] == s[i..i + 24][m - i];
  }

  lemma MarkerStart(worker: string, tail: string, i: nat)
    requires RefusalShape(tail) && |MARKER| == 24 && i + 24 <= |worker + tail|
    requires (worker + tail)[i..i + 24] == MARKER
    ensures i <= |worker| && tail[0] == ' ' && (tail[1] == 'm' || (tail[1] == 'a' && tail[8] == 'i'))
  {
    var s, n := worker + tail, |worker|;
    MarkerShape();
    assert s[i..i + 24][0] == s[i] && s[i..i + 24][1] == s[i + 1];
    assert forall m :: n <= m < |s| ==> s[m] == tail[m - n];
    assert forall m :: n + 1 <= m < |s| - 1 && s[m] == ' ' ==> s[m + 1] != 'v';
  }

  /** A volume that is not usable refuses the admission and is named in its reason. */
  lemma UnusableVolumeRefuses(worker: string, v: Volume, intent: Intent, rootAllows: bool, e: Evaluation,
                              detail: string)
    requires !Usable(v, intent, rootAllows)
    ensures var a := WorkerAdmission(worker, Some(v), intent, rootAllows, e, detail);
            var name := if !v.mounted then "unmounted volume "
                        else if v.reachable == Some(false) then "unreachable volume "
                        else if !v.apiAvailable then "unavailable volume "
                        else "read-only volume ";
            !a.canTouch && a.reason == worker + " volume access blocked: " + name + detail
  {
    BlockIsNamed(v, intent, rootAllows);
    hide VolumeBlock;
  }

  /** Otherwise the decision on the path is the answer. */
  lemma UsableVolumeDecides(worker: string, v: Option<Volume>, intent: Intent, rootAllows: bool, e: Evaluation,
                            detail: string)
    requires v.Some? ==> Usable(v.value, intent, rootAllows)
    ensures var a := WorkerAdmission(worker, v, intent, rootAllows, e, detail);
            && (a.canTouch <==> e.action == Allow)
            && a.reason == worker + match e.action
               case Allow => " may start with filesystem access"
               case Degrade => " must avoid file IO" + " and publish metadata-only state"
               case Prompt => " must wait for permission" + " prompt orchestration"
               case Deny => " access is denied"
  {
    if v.Some? {
      BlockIsNamed(v.value, intent, rootAllows);
    }
    hide VolumeBlock;
  }

  /** When callers see a volume block: exactly when the containing volume is not
      usable for the path and intent, or when a refusal of another kind carries a
      worker name that spells the marker out. */
  lemma AdmissionSeesVolumeBlock(worker: string, v: Option<Volume>, intent: Intent, rootAllows: bool, e: Evaluation,
                                 detail: string)
    ensures BlockedByVolume(WorkerAdmission(worker, v, intent, rootAllows, e, detail)) <==>
            (v.Some? && !Usable(v.value, intent, rootAllows)) || (e.action != Allow && Contains(worker + " ", MARKER))
  {
    if v.Some? {
      BlockIsNamed(v.value, intent, rootAllows);
    }
    match VolumeBlock(v, intent, rootAllows) {
      case Some(block) =>
        var reason := worker + MARKER + BlockName(block) + detail;
        assert reason[|worker|..|worker| + |MARKER|] == MARKER;
        ContainsAt(reason, MARKER, |worker|);
      case None =>
        if e.action != Allow {
          RefusalHoldsMarker(worker, e.action);
        }
    }
  }

  /** A worker name that fools the test although no volume is involved. */
  lemma MarkerCanBeSpoofed() returns (worker: string, e: Evaluation)
    ensures BlockedByVolume(WorkerAdmission(worker, None, Read, true, e, ""))
  {
    worker, e := MARKER, Evaluation(Deny, false);
    assert (worker + " ")[0..24] == MARKER;
    ContainsAt(worker + " ", MARKER, 0);
    AdmissionSeesVolumeBlock(worker, None, Read, true, e, "");
  }

  /** The gate of a preflight and the admission evaluate a read-only system root each
      for themselves. For a worker whose name does not spell the marker they agree on
      whether the volume blocks exactly if those two evaluations do, and always where
      no such root is consulted. */
  lemma PreflightAgreesWithAdmission(w: World, t: Trace, worker: string, entry: Entry, rootAllows: bool,
                                     e: Evaluation, detail: string)
    requires !Contains(worker + " ", MARKER)
    ensures (GateVolume(w, t, entry.path, entry.intent, entry.volume).Fail? <==>
             BlockedByVolume(WorkerAdmission(worker, entry.volume, entry.intent, rootAllows, e, detail)))
            <==>
            (ReadOnlyRoot(entry) ==> rootAllows == (w.evaluate(entry.path, entry.intent, |t|).action == Allow))
  {
    AdmissionSeesVolumeBlock(worker, entry.volume, entry.intent, rootAllows, e, detail);
    GatePassesIff(w, t, entry.path, entry.intent, entry.volume);
    hide GateVolume, WorkerAdmission, BlockedByVolume;
  }

  /** A write or an operation on a system root that is read-only and otherwise fine. */
  predicate ReadOnlyRoot(entry: Entry) {
    && entry.volume.Some? && entry.intent in {Write, Operate}
    && entry.volume.value.mounted && entry.volume.value.reachable != Some(false) && entry.volume.value.apiAvailable
    && entry.volume.value.readOnly && entry.volume.value.isSystemRoot
  }

  // ----- The fan-out subject -----

  const SUBJECT: string := "worker-admission-fanout"
  const MAX_SUBJECT: nat := 160

  datatype Request = Request(worker: string, intent: Intent)

  function Part(r: Request): string { ";" + r.worker + ":" + r.intent.Name() }

  function Parts(rs: seq<Request>): string {
    if rs == [] then [] else Parts(rs[..|rs| - 1]) + Part(rs[|rs| - 1])
  }

  lemma PartsSnoc(rs: seq<Request>, k: nat)
    requires k < |rs|
    ensures SUBJECT + Parts(rs[..k + 1]) == SUBJECT + Parts(rs[..k]) + Part(rs[k])
  {
    assert rs[..k + 1][..k] == rs[..k];
  }

  predicate Fits(rs: seq<Request>, k: nat)
    requires k <= |rs|
  {
    |Encode(SUBJECT + Parts(rs[..k]))| <= 160
  }

  /** The subject keeps the longest run of leading requests that fits, and says so
      when it drops some. */
  method FanoutSubject(rs: seq<Request>) returns (subject: string, kept: nat)
    ensures kept <= |rs| && subject == SUBJECT + Parts(rs[..kept]) + (if kept < |rs| then ";..." else "")
    ensures Fits(rs, kept) && (kept < |rs| ==> !Fits(rs, kept + 1))
    ensures |Encode(subject)| <= 160 + 4
  {
    hide Encode, Part;
    subject, kept := SUBJECT, 0;
    EncodeAscii(";...");
    SubjectFits();
    assert rs[..0] == [] && SUBJECT + Parts([]) == SUBJECT;
    while kept < |rs|
      invariant kept <= |rs| && subject == SUBJECT + Parts(rs[..kept]) && Fits(rs, kept)
    {
      var candidate := Part(rs[kept]);
      EncodeConcat(subject, candidate);
      PartsSnoc(rs, kept);
      if |Encode(subject)| + |Encode(candidate)| > MAX_SUBJECT {
        EncodeConcat(subject, ";...");
        subject := subject + ";...";
        return;
      }
      subject := subject + candidate;
      kept := kept + 1;
    }
  }

  lemma SubjectIsPlain()
    ensures SUBJECT == "worker-admission-fanout" && Absent(SUBJECT, ';')
  {
  }

  function Label(r: Request): string { r.worker + ":" + r.intent.Name() }

  function Labels(rs: seq<Request>): seq<string> {
    seq(|rs|, i requires 0 <= i < |rs| => Label(rs[i]))
  }

  lemma LabelHasNoSemicolon(r: Request)
    requires Absent(r.worker, ';')
    ensures Absent(Label(r), ';')
  {
    assert Absent(r.intent.Name(), ';');
  }

  /** What the parts say: cut at its semicolons, a subject is its name and then one
      worker and intent per kept request, in their order, as long as no worker's name
      holds a semicolon. */
  lemma SubjectSplits(subject: string, rs: seq<Request>)
    requires Absent(subject, ';') && forall i :: 0 <= i < |rs| ==> Absent(rs[i].worker, ';')
    ensures Split(subject + Parts(rs), ';') == [subject] + Labels(rs)
  {
    PartsJoin(subject, rs);
    hide Label, Absent, Split, Join;
    var cells := [subject] + Labels(rs);
    forall i | 0 <= i < |cells| ensures Absent(cells[i], ';') {
      if i > 0 {
        LabelHasNoSemicolon(rs[i - 1]);
      }
    }
    SplitJoin(cells, ';');
  }

  lemma {:induction false} PartsJoin(subject: string, rs: seq<Request>)
    ensures subject + Parts(rs) == Join([subject] + Labels(rs), ";")
  {
    if rs == [] {
      assert subject + Parts(rs) == subject && [subject] + Labels(rs) == [subject];
    } else {
      hide Label, Labels, Join, Part;
      var n := |rs| - 1;
      var front := rs[..n];
      PartsJoin(subject, front);
      LabelsSnoc(subject, rs);
      JoinSnoc([subject] + Labels(front), Label(rs[n]), ";");
      PartAppended(subject, Parts(front), rs[n]);
    }
  }

  lemma LabelsSnoc(subject: string, rs: seq<Request>)
    requires rs != []
    ensures [subject] + Labels(rs) == [subject] + Labels(rs[..|rs| - 1]) + [Label(rs[|rs| - 1])]
  {
    hide Label;
  }

  lemma PartAppended(subject: string, parts: string, r: Request)
    ensures subject + (parts + Part(r)) == (subject + parts) + ";" + Label(r)
  {
    hide Intent.Name;
    var tail := r.worker + ":" + r.intent.Name();
    assert Part(r) == ";" + tail;
    assert subject + (parts + (";" + tail)) == ((subject + parts) + ";") + tail;
  }

  lemma SubjectFits()
    ensures |Encode(SUBJECT)| <= MAX_SUBJECT
  {
    hide Encode;
    EncodeAscii(SUBJECT);
  }
}
