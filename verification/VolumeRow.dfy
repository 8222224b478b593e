// The volume-access row the index commands print: one line, tab-separated,
// with every free-text column escaped so that it can be read back.
module VolumeRow {
  import opened Text
  import opened Intents

  datatype Kind = System | Internal | External | Removable | DiskImage | NetworkKind | UnknownKind {
    function Name(): string {
      match this
      case System => "system"
      case Internal => "internal"
      case External => "external"
      case Removable => "removable"
      case DiskImage => "disk-image"
      case NetworkKind => "network"
      case UnknownKind => "unknown"
    }
  }

  datatype Mount = Mounted | Unmounted | Stale {
    function Name(): string {
      match this
      case Mounted => "mounted"
      case Unmounted => "unmounted"
      case Stale => "stale"
    }
  }

  datatype ApiStatus = Available | Missing | Unavailable {
    function Name(): string {
      match this
      case Available => "available"
      case Missing => "missing"
      case Unavailable => "unavailable"
    }
  }

  datatype Volume = Volume(
    id: nat, stableIdentity: string, kind: Kind, mount: Mount, reachable: Option<bool>,
    writable: bool, readOnly: bool, root: string, labelText: string,
    nativeStatus: Option<ApiStatus>, nativeReason: Option<string>,
    resourceStatus: Option<ApiStatus>, resourceReason: Option<string>,
    mountStatus: Option<ApiStatus>, mountReason: Option<string>)

  function BoolName(b: bool): string { if b then "true" else "false" }

  function OptionalBool(b: Option<bool>): string {
    match b
    case None => "-"
    case Some(v) => BoolName(v)
  }

  function OptionalStatus(s: Option<ApiStatus>): string {
    match s
    case None => "-"
    case Some(v) => v.Name()
  }

  /** The escaped text, unless there is none or it is blank. */
  function OptionalString(s: Option<string>): string {
    if s.Some? && Trim(EscapeField(s.value)) != [] then EscapeField(s.value) else "-"
  }

  const VOLUME_NAMES: seq<string> :=
    ["volume-id=", "stable-id=", "class=", "mount=", "reachable=",
     "writable=", "read-only=", "volume-root=", "volume-label=", "volume-native-status=",
     "volume-native-reason=", "volume-resource-status=", "volume-resource-reason=",
     "volume-mount-status=", "volume-mount-reason=", "reason="]

  function VolumeValues(v: Option<Volume>): (values: seq<string>)
    ensures |values| == |VOLUME_NAMES|
  {
    match v
    case None => ["-", "-", "-", "-", "-", "-", "-", "-", "-", "-", "-", "-", "-", "-", "-", "no-containing-volume"]
    case Some(v) =>
      [Dec(v.id), EscapeField(v.stableIdentity), v.kind.Name(), v.mount.Name(), OptionalBool(v.reachable),
       BoolName(v.writable), BoolName(v.readOnly), EscapeField(v.root), EscapeField(v.labelText),
       OptionalStatus(v.nativeStatus), OptionalString(v.nativeReason),
       OptionalStatus(v.resourceStatus), OptionalString(v.resourceReason),
       OptionalStatus(v.mountStatus), OptionalString(v.mountReason), "cached-volume-report"]
  }

  /** The sixteen volume columns, the same names in both branches. */
  function VolumeCells(v: Option<Volume>): (cells: seq<string>)
    ensures |cells| == 16
    ensures forall i :: 0 <= i < 16 ==> cells[i] == VOLUME_NAMES[i] + VolumeValues(v)[i]
  {
    seq(16, i requires 0 <= i < 16 => VOLUME_NAMES[i] + VolumeValues(v)[i])
  }

  function HeadCells(prefix: string, worker: string, role: Option<string>, path: string, intent: Intent): seq<string> {
    [EscapeField(prefix), "worker=" + EscapeField(worker)]
    + (if role.Some? then ["role=" + EscapeField(role.value)] else [])
    + ["path=" + EscapeField(path), "intent=" + intent.Name()]
  }

  function Row(prefix: string, worker: string, role: Option<string>, path: string, intent: Intent,
               v: Option<Volume>): string {
    Join(HeadCells(prefix, worker, role, path, intent) + VolumeCells(v), "\t")
  }

  // ----- Reading a row back -----

  lemma CleanConcat(a: string, b: string)
    requires Clean(a) && Clean(b)
    ensures Clean(a + b)
  {
  }

  lemma CleanField(name: string, s: string)
    requires Clean(name)
    ensures Clean(name + EscapeField(s))
  {
    EscapeFieldRoundTrip(s);
  }

  lemma OptionalClean(s: Option<string>)
    ensures Clean(OptionalString(s))
  {
    if s.Some? {
      EscapeFieldRoundTrip(s.value);
    }
  }

  lemma NamesClean(i: nat)
    requires i < |VOLUME_NAMES|
    ensures Clean(VOLUME_NAMES[i])
  {
    if i < 5 {
      FirstNamesClean(i);
    } else if i < 10 {
      MiddleNamesClean(i);
    } else {
      LastNamesClean(i);
    }
  }

  lemma FirstNamesClean(i: nat)
    requires i < 5
    ensures Clean(VOLUME_NAMES[i])
  {
    assert Clean("volume-id=") && Clean("stable-id=") && Clean("class=") && Clean("mount=") && Clean("reachable=");
    hide Clean;
  }

  lemma MiddleNamesClean(i: nat)
    requires 5 <= i < 10
    ensures Clean(VOLUME_NAMES[i])
  {
    assert Clean("writable=") && Clean("read-only=") && Clean("volume-root=") && Clean("volume-label=");
    assert Clean("volume-native-status=");
    hide Clean;
  }

  lemma LastNamesClean(i: nat)
    requires 10 <= i < |VOLUME_NAMES|
    ensures Clean(VOLUME_NAMES[i])
  {
    assert Clean("volume-native-reason=") && Clean("volume-resource-status=") && Clean("volume-resource-reason=");
    assert Clean("volume-mount-status=") && Clean("volume-mount-reason=") && Clean("reason=");
    hide Clean;
  }

  lemma FixedTextsClean(v: Volume)
    ensures Clean("-") && Clean("no-containing-volume") && Clean("cached-volume-report")
    ensures Clean(Dec(v.id)) && Clean(v.mount.Name())
    ensures Clean(OptionalBool(v.reachable)) && Clean(BoolName(v.writable)) && Clean(BoolName(v.readOnly))
  {
    hide Dec;
  }

  lemma KindClean(k: Kind)
    ensures Clean(k.Name())
  {
  }

  lemma StatusClean(s: Option<ApiStatus>)
    ensures Clean(OptionalStatus(s))
  {
  }

  lemma ValuesClean(v: Option<Volume>, i: nat)
    requires i < |VOLUME_NAMES|
    ensures Clean(VolumeValues(v)[i])
  {
    hide EscapeField, OptionalString, OptionalStatus, OptionalBool, BoolName, Dec;
    if v.Some? {
      var w := v.value;
      FixedTextsClean(w);
      KindClean(w.kind);
      EscapeFieldRoundTrip(w.stableIdentity);
      EscapeFieldRoundTrip(w.root);
      EscapeFieldRoundTrip(w.labelText);
      OptionalClean(w.nativeReason);
      OptionalClean(w.resourceReason);
      OptionalClean(w.mountReason);
      StatusClean(w.nativeStatus);
      StatusClean(w.resourceStatus);
      StatusClean(w.mountStatus);
      assert Clean(EscapeField(w.stableIdentity)) && Clean(EscapeField(w.root)) && Clean(EscapeField(w.labelText));
      hide Clean;
      assert Clean(VolumeValues(v)[i]);
    } else {
      assert Clean("-") && Clean("no-containing-volume");
      hide Clean;
      assert Clean(VolumeValues(v)[i]);
    }
  }

  lemma VolumeCellsClean(v: Option<Volume>)
    ensures forall c :: c in VolumeCells(v) ==> Clean(c)
  {
    hide VolumeValues, VolumeCells, Clean;
    forall i | 0 <= i < 16 ensures Clean(VolumeCells(v)[i]) {
      NamesClean(i);
      ValuesClean(v, i);
      CleanConcat(VOLUME_NAMES[i], VolumeValues(v)[i]);
    }
  }

  lemma HeadCellsClean(prefix: string, worker: string, role: Option<string>, path: string, intent: Intent)
    ensures |HeadCells(prefix, worker, role, path, intent)| == if role.Some? then 5 else 4
    ensures forall c :: c in HeadCells(prefix, worker, role, path, intent) ==> Clean(c)
  {
    hide EscapeField;
    EscapeFieldRoundTrip(prefix);
    CleanField("worker=", worker);
    if role.Some? {
      CleanField("role=", role.value);
    }
    CleanField("path=", path);
    CleanConcat("intent=", intent.Name());
  }

  /** Whatever the texts hold, a row is one line and splits into 20 columns, 21
      with a role, which are the cells that were printed. */
  lemma RowSplits(prefix: string, worker: string, role: Option<string>, path: string, intent: Intent, v: Option<Volume>)
    ensures Split(Row(prefix, worker, role, path, intent, v), '\t') ==
            HeadCells(prefix, worker, role, path, intent) + VolumeCells(v)
    ensures |Split(Row(prefix, worker, role, path, intent, v), '\t')| == if role.Some? then 21 else 20
    ensures Absent(Row(prefix, worker, role, path, intent, v), '\n')
            && Absent(Row(prefix, worker, role, path, intent, v), '\r')
  {
    hide HeadCells, VolumeCells;
    HeadCellsClean(prefix, worker, role, path, intent);
    VolumeCellsClean(v);
    var cells := HeadCells(prefix, worker, role, path, intent) + VolumeCells(v);
    forall i | 0 <= i < |cells| ensures Clean(cells[i]) {
    }
    SplitJoin(cells, '\t');
    JoinAbsent(cells, "\t", '\n');
    JoinAbsent(cells, "\t", '\r');
  }

  lemma {:induction false} JoinAbsent(parts: seq<string>, sep: string, c: char)
    requires Absent(sep, c) && forall i :: 0 <= i < |parts| ==> Absent(parts[i], c)
    ensures Absent(Join(parts, sep), c)
  {
    if |parts| > 1 {
      JoinAbsent(parts[1..], sep, c);
    }
  }

  /** A text that is blank once it is escaped: the escape makes tabs and line ends
      visible, so only other whitespace counts. */
  predicate BlankCell(s: string) {
    Blank(s) && Clean(s)
  }

  lemma {:induction false} EscapedBlank(s: string)
    ensures Blank(EscapeEach(s)) <==> BlankCell(s)
  {
    if s != [] {
      EscapedBlank(s[1..]);
      var head, rest := EscapeChar(s[0]), EscapeEach(s[1..]);
      assert Blank(head + rest) <==> Blank(head) && Blank(rest) by {
        assert forall i :: 0 <= i < |head| ==> (head + rest)[i] == head[i];
        assert forall i :: 0 <= i < |rest| ==> (head + rest)[|head| + i] == rest[i];
      }
      assert Blank(head) <==> IsWhitespace(s[0]) && Clean([s[0]]) by {
        assert |head| > 1 ==> head[0] == '\\';
        assert [s[0]][0] == s[0];
      }
      assert BlankCell(s) <==> IsWhitespace(s[0]) && Clean([s[0]]) && BlankCell(s[1..]) by {
        assert forall i :: 1 <= i < |s| ==> s[i] == s[1..][i - 1];
        assert [s[0]][0] == s[0];
      }
    }
  }

  /** The reason columns are not injective: exactly the missing reasons, those made
      of whitespace other than tabs and line ends, and the literal "-" print as "-";
      every other reason reads back. */
  lemma ReasonColumn(s: Option<string>)
    ensures OptionalString(s) == "-" <==> s.None? || BlankCell(s.value) || s.value == "-"
    ensures OptionalString(s) != "-" ==> s.Some? && Unescape(OptionalString(s)) == s.value
  {
    if s.Some? {
      EscapeFieldRoundTrip(s.value);
      EscapeFieldRoundTrip("-");
      ChainIsOnePass(s.value);
      EscapedBlank(s.value);
      TrimIsEmptyIff(EscapeField(s.value));
      assert EscapeField("-") == "-" by {
        EscapeOneChar('-');
      }
    }
  }

  // ----- What a reader of the row learns -----

  function ReadBool(s: string): Option<bool> {
    if s == "true" then Some(true) else if s == "false" then Some(false) else None
  }

  function ReadKind(s: string): Option<Kind> {
    if s == "system" then Some(System) else if s == "internal" then Some(Internal)
    else if s == "external" then Some(External) else if s == "removable" then Some(Removable)
    else if s == "disk-image" then Some(DiskImage) else if s == "network" then Some(NetworkKind)
    else if s == "unknown" then Some(UnknownKind) else None
  }

  function ReadMount(s: string): Option<Mount> {
    if s == "mounted" then Some(Mounted) else if s == "unmounted" then Some(Unmounted)
    else if s == "stale" then Some(Stale) else None
  }

  function ReadStatus(s: string): Option<ApiStatus> {
    if s == "available" then Some(Available) else if s == "missing" then Some(Missing)
    else if s == "unavailable" then Some(Unavailable) else None
  }

  function ReadIntent(s: string): Option<Intent> {
    if s == "read" then Some(Read) else if s == "write" then Some(Write) else if s == "index" then Some(Index)
    else if s == "preview" then Some(Preview) else if s == "operate" then Some(Operate) else None
  }

  /** A reason column: a dash, or the reason. */
  predicate Reads(text: string, s: Option<string>) {
    if s.None? || BlankCell(s.value) || s.value == "-" then text == "-" else Unescape(text) == s.value
  }

  /** The `i`-th volume column has this name and holds this text. */
  predicate Holds(cells: seq<string>, i: nat, name: string, text: string) {
    |cells| >= 16 && i < 16 && cells[|cells| - 16 + i] == name + text
  }

  /** The texts of the sixteen volume columns, under their names. */
  predicate Texts(cells: seq<string>, texts: seq<string>)
    requires |texts| == 16
  {
    FirstTexts(cells, texts) && LastTexts(cells, texts)
  }

  predicate FirstTexts(cells: seq<string>, texts: seq<string>)
    requires |texts| == 16
  {
    && Holds(cells, 0, "volume-id=", texts[0]) && Holds(cells, 1, "stable-id=", texts[1])
    && Holds(cells, 2, "class=", texts[2]) && Holds(cells, 3, "mount=", texts[3])
    && Holds(cells, 4, "reachable=", texts[4]) && Holds(cells, 5, "writable=", texts[5])
    && Holds(cells, 6, "read-only=", texts[6]) && Holds(cells, 7, "volume-root=", texts[7])
  }

  predicate LastTexts(cells: seq<string>, texts: seq<string>)
    requires |texts| == 16
  {
    && Holds(cells, 8, "volume-label=", texts[8]) && Holds(cells, 9, "volume-native-status=", texts[9])
    && Holds(cells, 10, "volume-native-reason=", texts[10]) && Holds(cells, 11, "volume-resource-status=", texts[11])
    && Holds(cells, 12, "volume-resource-reason=", texts[12]) && Holds(cells, 13, "volume-mount-status=", texts[13])
    && Holds(cells, 14, "volume-mount-reason=", texts[14]) && Holds(cells, 15, "reason=", texts[15])
  }

  /** The texts of a containing volume. */
  predicate Describes(texts: seq<string>, v: Volume)
    requires |texts| == 16
  {
    && AllDigits(texts[0]) && DigitsValue(texts[0]) == v.id
    && Unescape(texts[1]) == v.stableIdentity
    && ReadKind(texts[2]) == Some(v.kind) && ReadMount(texts[3]) == Some(v.mount)
    && (texts[4] == "-" <==> v.reachable.None?) && ReadBool(texts[4]) == v.reachable
    && ReadBool(texts[5]) == Some(v.writable) && ReadBool(texts[6]) == Some(v.readOnly)
    && Unescape(texts[7]) == v.root && Unescape(texts[8]) == v.labelText
    && (texts[9] == "-" <==> v.nativeStatus.None?) && ReadStatus(texts[9]) == v.nativeStatus
    && Reads(texts[10], v.nativeReason)
    && (texts[11] == "-" <==> v.resourceStatus.None?) && ReadStatus(texts[11]) == v.resourceStatus
    && Reads(texts[12], v.resourceReason)
    && (texts[13] == "-" <==> v.mountStatus.None?) && ReadStatus(texts[13]) == v.mountStatus
    && Reads(texts[14], v.mountReason)
    && texts[15] == "cached-volume-report"
  }

  /** Every column of a row reads back, under its name and counted from the end, where
      the optional role does not shift it: the prefix, worker, role, path and intent, and
      the sixteen columns of the volume; without one these hold a dash each. */
  lemma RowDecodes(prefix: string, worker: string, role: Option<string>, path: string, intent: Intent,
                   v: Option<Volume>)
    returns (texts: seq<string>)
    ensures
      var cells := Split(Row(prefix, worker, role, path, intent, v), '\t');
      var n := |cells|;
      && n == (if role.Some? then 21 else 20) && |texts| == 16
      && Unescape(cells[0]) == prefix
      && Field(cells[1], "worker=", worker)
      && (role.Some? ==> Field(cells[2], "role=", role.value))
      && Field(cells[n - 18], "path=", path)
      && "intent=" <= cells[n - 17] && ReadIntent(cells[n - 17][7..]) == Some(intent)
      && Texts(cells, texts)
      && if v.Some? then Describes(texts, v.value)
         else texts[15] == "no-containing-volume" && forall i :: 0 <= i < 15 ==> texts[i] == "-"
  {
    hide EscapeField, Unescape, Row, Split, FirstTexts, LastTexts, Describes, VolumeCells, VolumeValues, ReadIntent;
    RowSplits(prefix, worker, role, path, intent, v);
    texts := VolumeValues(v);
    var head, cells := HeadCells(prefix, worker, role, path, intent), VolumeCells(v);
    HeadDecodes(prefix, worker, role, path, intent);
    assert forall i :: 0 <= i < |head| ==> (head + cells)[i] == head[i];
    FirstTextsOf(v, head + cells);
    LastTextsOf(v, head + cells);
    if v.Some? {
      ValuesDescribe(v.value);
    } else {
      NoValues();
    }
  }

  /** The cell has this name, and its text decodes to the field. */
  predicate Field(cell: string, name: string, field: string) {
    name <= cell && Unescape(cell[|name|..]) == field
  }

  lemma FieldReads(name: string, field: string)
    ensures Field(name + EscapeField(field), name, field)
  {
    hide EscapeField, Unescape;
    EscapeFieldRoundTrip(field);
    assert (name + EscapeField(field))[|name|..] == EscapeField(field);
  }

  lemma HeadDecodes(prefix: string, worker: string, role: Option<string>, path: string, intent: Intent)
    ensures var cells := HeadCells(prefix, worker, role, path, intent);
            var n := |cells|;
            && n == (if role.Some? then 5 else 4)
            && Unescape(cells[0]) == prefix
            && Field(cells[1], "worker=", worker)
            && (role.Some? ==> Field(cells[2], "role=", role.value))
            && Field(cells[n - 2], "path=", path)
            && "intent=" <= cells[n - 1] && ReadIntent(cells[n - 1][7..]) == Some(intent)
  {
    hide EscapeField, Unescape, Field;
    EscapeFieldRoundTrip(prefix);
    FieldReads("worker=", worker);
    FieldReads("path=", path);
    if role.Some? {
      FieldReads("role=", role.value);
    }
    IntentReads(intent);
    assert ("intent=" + intent.Name())[7..] == intent.Name();
  }

  lemma IntentReads(intent: Intent)
    ensures ReadIntent(intent.Name()) == Some(intent)
  {
    assert "index"[1] == 'n' && "write"[0] == 'w' && "read"[0] == 'r';
    assert "preview"[0] == 'p' && "operate"[0] == 'o';
  }

  lemma FirstTextsOf(v: Option<Volume>, cells: seq<string>)
    requires |cells| >= 16 && cells[|cells| - 16..] == VolumeCells(v)
    ensures FirstTexts(cells, VolumeValues(v))
  {
    hide VolumeValues, VolumeCells;
    var n := |cells| - 16;
    assert forall i :: 0 <= i < 16 ==> cells[n + i] == cells[n..][i];
  }

  lemma LastTextsOf(v: Option<Volume>, cells: seq<string>)
    requires |cells| >= 16 && cells[|cells| - 16..] == VolumeCells(v)
    ensures LastTexts(cells, VolumeValues(v))
  {
    hide VolumeValues, VolumeCells;
    var n := |cells| - 16;
    assert forall i :: 0 <= i < 16 ==> cells[n + i] == cells[n..][i];
  }

  lemma NamesRead(v: Volume)
    ensures ReadKind(v.kind.Name()) == Some(v.kind) && ReadMount(v.mount.Name()) == Some(v.mount)
  {
    assert "internal"[0] == 'i' && "external"[0] == 'e' && "removable"[0] == 'r' && "disk-image"[0] == 'd';
    assert "network"[0] == 'n' && "unknown"[0] == 'u' && "system"[0] == 's';
    assert "mounted"[0] == 'm' && "unmounted"[0] == 'u' && "stale"[0] == 's';
  }

  lemma StatusReads(s: Option<ApiStatus>)
    ensures (OptionalStatus(s) == "-" <==> s.None?) && ReadStatus(OptionalStatus(s)) == s
  {
    assert "available"[0] == 'a' && "missing"[0] == 'm' && "unavailable"[0] == 'u' && "-"[0] == '-';
  }

  lemma BoolReads(b: bool, o: Option<bool>)
    ensures ReadBool(BoolName(b)) == Some(b)
    ensures (OptionalBool(o) == "-" <==> o.None?) && ReadBool(OptionalBool(o)) == o
  {
    assert "true"[0] == 't' && "false"[0] == 'f' && "-"[0] == '-';
  }

  lemma ReasonReads(s: Option<string>)
    ensures Reads(OptionalString(s), s)
  {
    hide OptionalString, Unescape, BlankCell;
    ReasonColumn(s);
  }

  lemma ValuesDescribe(v: Volume)
    ensures Describes(VolumeValues(Some(v)), v)
  {
    hide EscapeField, Unescape, OptionalString, OptionalStatus, OptionalBool, BoolName, Dec, DigitsValue;
    hide Reads, ReadKind, ReadMount, ReadStatus, ReadBool;
    DecValue(v.id);
    NamesRead(v);
    BoolReads(v.writable, v.reachable);
    BoolReads(v.readOnly, v.reachable);
    EscapeFieldRoundTrip(v.stableIdentity);
    EscapeFieldRoundTrip(v.root);
    EscapeFieldRoundTrip(v.labelText);
    StatusReads(v.nativeStatus);
    StatusReads(v.resourceStatus);
    StatusReads(v.mountStatus);
    ReasonReads(v.nativeReason);
    ReasonReads(v.resourceReason);
    ReasonReads(v.mountReason);
  }

  lemma NoValues()
    ensures VolumeValues(None)[15] == "no-containing-volume"
    ensures forall i :: 0 <= i < 15 ==> VolumeValues(None)[i] == "-"
  {
  }
}
