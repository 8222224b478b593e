// The text of the three OCR stores: the candidate queue, the recognition cache and
// the failure quarantine. Rows are `key=value` cells in any order; the recognized
// text is kept as the hexadecimal form of its bytes.
module OcrStores {
  import opened Numbers
  import opened Text
  import opened Utf8
  import opened StoreFormat
  import opened Fingerprint
  import opened OcrRecognition
  import opened OcrWorker
  import opened OcrRuns

  const U64_MAX: nat := 0xFFFF_FFFF_FFFF_FFFF
  const U128_MAX: nat := 0xFFFF_FFFF_FFFF_FFFF_FFFF_FFFF_FFFF_FFFF

  // ----- Hexadecimal text -----

  function HexBytes(bytes: seq<Byte>): string {
    if bytes == [] then [] else [HEX[bytes[0] as int / 16], HEX[bytes[0] as int % 16]] + HexBytes(bytes[1..])
  }

  function Nibble(c: char): Option<nat> {
    if '0' <= c <= '9' then Some(c as int - '0' as int)
    else if 'a' <= c <= 'f' then Some(c as int - 'a' as int + 10)
    else if 'A' <= c <= 'F' then Some(c as int - 'A' as int + 10)
    else None
  }

  function UnhexBytes(s: string): Option<seq<Byte>> {
    if s == [] then Some([])
    else if |s| == 1 then None
    else
      match (Nibble(s[0]), Nibble(s[1]), UnhexBytes(s[2..]))
      case (Some(high), Some(low), Some(rest)) => Some([(high * 16 + low) as Byte] + rest)
      case _ => None
  }

  function UnhexText(s: string): Option<string> {
    match UnhexBytes(s)
    case None => None
    case Some(bytes) => Decode(bytes)
  }

  lemma NibbleOfDigit(d: nat)
    requires d < 16
    ensures Nibble(HEX[d]) == Some(d) && Clean([HEX[d]])
  {
  }

  lemma {:induction false} HexRoundTrip(bytes: seq<Byte>)
    ensures UnhexBytes(HexBytes(bytes)) == Some(bytes) && Clean(HexBytes(bytes))
  {
    if bytes != [] {
      var b := bytes[0] as int;
      HexRoundTrip(bytes[1..]);
      NibbleOfDigit(b / 16);
      NibbleOfDigit(b % 16);
      var s := HexBytes(bytes);
      assert s[2..] == HexBytes(bytes[1..]);
      assert Clean([s[0]]) && Clean([s[1]]);
      assert [s[0]][0] == s[0] && [s[1]][0] == s[1];
      assert bytes == [bytes[0]] + bytes[1..];
    }
  }

  // ----- Reading the cells of a row -----

  datatype RowKind = CandidateRow | RecognitionRow | FailureRow

  datatype Fields = Fields(
    path: Option<string>, kind: Option<OcrKind>, version: Option<nat>, len: Option<nat>, modified: Option<Option<nat>>,
    text: Option<string>, failureKind: Option<Status>, failures: Option<nat>, reason: Option<string>)

  const NO_FIELDS: Fields := Fields(None, None, None, None, None, None, None, None, None)

  function ParseOcrKind(s: string): Option<OcrKind> {
    if s == "image-only-pdf" then Some(ImageOnlyPdf)
    else if s == "screenshot-image" then Some(ScreenshotImage)
    else None
  }

  function ParseFailureKind(s: string): Option<Status> {
    if s == "empty" then Some(Empty)
    else if s == "missing" then Some(Missing)
    else if s == "unsupported" then Some(Unsupported)
    else if s == "failed" then Some(Failed)
    else if s == "unavailable" then Some(Unavailable)
    else None
  }

  function ParseModified(s: string): Option<Option<nat>> {
    if s == "-" then Some(None)
    else match ParseUnsigned(s, U128_MAX) { case None => None case Some(n) => Some(Some(n)) }
  }

  function SetField(row: RowKind, f: Fields, key: string, value: string): Parsed<Fields> {
    if key == "path" then Ok(f.(path := Some(Unescape(value))))
    else if key == "kind" then
      match ParseOcrKind(value) { case None => Err(InvalidField) case some => Ok(f.(kind := some)) }
    else if key == "version" then
      match ParseUnsigned(value, U32_MAX) { case None => Err(InvalidField) case some => Ok(f.(version := some)) }
    else if key == "len" then
      match ParseUnsigned(value, U64_MAX) { case None => Err(InvalidField) case some => Ok(f.(len := some)) }
    else if key == "modified-ns" then
      match ParseModified(value) { case None => Err(InvalidField) case some => Ok(f.(modified := some)) }
    else if row == RecognitionRow && key == "text-hex" then
      match UnhexText(value) { case None => Err(InvalidField) case some => Ok(f.(text := some)) }
    else if row == FailureRow && key == "failure-kind" then
      match ParseFailureKind(value) { case None => Err(InvalidField) case some => Ok(f.(failureKind := some)) }
    else if row == FailureRow && key == "failures" then
      match ParseUnsigned(value, U32_MAX) { case None => Err(InvalidField) case some => Ok(f.(failures := some)) }
    else if row == FailureRow && key == "reason" then Ok(f.(reason := Some(Unescape(value))))
    else Err(UnknownField)
  }

  /** Each cell is split at its first `=`; a later cell overrides an earlier one. */
  function ParseFields(row: RowKind, f: Fields, parts: seq<string>): Parsed<Fields>
    decreases |parts|
  {
    if parts == [] then Ok(f)
    else
      var k := Find(parts[0], '=');
      if k == |parts[0]| then Err(InvalidField)
      else match SetField(row, f, parts[0][..k], parts[0][k + 1..])
        case Err(e) => Err(e)
        case Ok(next) => ParseFields(row, next, parts[1..])
  }

  function CandidateOf(f: Fields): Parsed<OcrCandidate> {
    if f.path.None? || f.kind.None? || f.version.None? || f.len.None? || f.modified.None? then Err(MissingField)
    else Ok(OcrCandidate(f.path.value, f.kind.value, Fingerprint(f.version.value, f.len.value, f.modified.value)))
  }

  function ParseCandidate(parts: seq<string>): Parsed<OcrCandidate> {
    match ParseFields(CandidateRow, NO_FIELDS, parts) { case Err(e) => Err(e) case Ok(f) => CandidateOf(f) }
  }

  function ParseRecognition(parts: seq<string>): Parsed<Recognition> {
    match ParseFields(RecognitionRow, NO_FIELDS, parts)
    case Err(e) => Err(e)
    case Ok(f) =>
      match CandidateOf(f)
      case Err(e) => Err(e)
      case Ok(c) => if f.text.None? then Err(MissingField) else Ok(Recognition(c, f.text.value))
  }

  function ParseFailure(parts: seq<string>): Parsed<FailureEntry> {
    match ParseFields(FailureRow, NO_FIELDS, parts)
    case Err(e) => Err(e)
    case Ok(f) =>
      match CandidateOf(f)
      case Err(e) => Err(e)
      case Ok(c) =>
        if f.failureKind.None? || f.reason.None? || f.failures.None? then Err(MissingField)
        else Ok(FailureEntry(c, f.failureKind.value, f.reason.value, f.failures.value))
  }

  // ----- Printing -----

  function Cell(key: string, value: string): string { key + "=" + value }

  function CandidateCells(c: OcrCandidate): seq<string> {
    [Cell("path", EscapeField(c.path)), Cell("kind", c.kind.Name()),
     Cell("version", Dec(c.fingerprint.extractorVersion)),
     Cell("len", Dec(c.fingerprint.len)), Cell("modified-ns", ModifiedText(c.fingerprint.modifiedNs))]
  }

  function RecognitionCells(r: Recognition): seq<string> {
    CandidateCells(r.candidate) + [Cell("text-hex", HexBytes(Encode(r.text)))]
  }

  function FailureCells(e: FailureEntry): seq<string> {
    CandidateCells(e.candidate)
    + [Cell("failure-kind", e.kind.Name()), Cell("failures", Dec(e.failures)), Cell("reason", EscapeField(e.reason))]
  }

  const QUEUE: Format<OcrCandidate> :=
    Format("gfm-ocr-candidates-v1", "ocr-candidate", 1, false,
           c => CandidateCells(c), parts => ParseCandidate(parts), c => QueueKey(c))

  const CACHE: Format<Recognition> :=
    Format("gfm-ocr-recognition-cache-v1", "ocr-recognition", 1, false,
           r => RecognitionCells(r), parts => ParseRecognition(parts), (r: Recognition) => QueueKey(r.candidate))

  const FAILURES: Format<FailureEntry> :=
    Format("gfm-ocr-failure-quarantine-v1", "ocr-failure", 1, true, e => FailureCells(e), parts => ParseFailure(parts),
           (e: FailureEntry) => QueueKey(e.candidate))

  function ReadQueue(text: string): Parsed<map<string, OcrCandidate>> {
    match ReadText(QUEUE, text) { case Err(e) => Err(e) case Ok(r) => Ok(r.entries) }
  }

  function ReadCache(text: string): Parsed<Cache> {
    match ReadText(CACHE, text) { case Err(e) => Err(e) case Ok(r) => Ok(r.entries) }
  }

  /** Unlike the extraction quarantine, a missing threshold is an error. */
  function ReadFailures(text: string): Parsed<Quarantine> {
    match ReadText(FAILURES, text)
    case Err(e) => Err(e)
    case Ok(r) =>
      if r.threshold.None? then Err(MissingThreshold)
      else Ok(Quarantine(Max(r.threshold.value, 1), r.entries))
  }

  // ----- A row is read back from its cells -----

  /** The source's integer widths. */
  predicate Fits(c: OcrCandidate) {
    c.fingerprint.extractorVersion <= U32_MAX && c.fingerprint.len <= U64_MAX
    && (c.fingerprint.modifiedNs.Some? ==> c.fingerprint.modifiedNs.value <= U128_MAX)
  }

  lemma CellReads(row: RowKind, f: Fields, key: string, value: string, rest: seq<string>, next: Fields)
    requires Absent(key, '=') && SetField(row, f, key, value) == Ok(next)
    ensures ParseFields(row, f, [Cell(key, value)] + rest) == ParseFields(row, next, rest)
  {
    hide SetField;
    FindAfterPiece(key, value, '=');
    var cell := Cell(key, value);
    assert cell == key + ['='] + value;
    assert cell[..|key|] == key && cell[|key| + 1..] == value;
    assert ([cell] + rest)[1..] == rest;
  }

  lemma ModifiedReads(m: Option<nat>)
    requires m.Some? ==> m.value <= U128_MAX
    ensures ParseModified(ModifiedText(m)) == Some(m) && Clean(ModifiedText(m))
  {
    if m.Some? {
      ParseDec(m.value, U128_MAX);
      assert IsDigit(Dec(m.value)[0]);
    }
  }

  lemma KindReads(k: OcrKind)
    ensures ParseOcrKind(k.Name()) == Some(k) && Clean(k.Name())
  {
  }

  lemma FailureKindReads(s: Status)
    ensures s != Recognized ==> ParseFailureKind(s.Name()) == Some(s)
    ensures Clean(s.Name())
  {
  }

  function WithCandidate(f: Fields, c: OcrCandidate): Fields {
    f.(path := Some(c.path), kind := Some(c.kind), version := Some(c.fingerprint.extractorVersion),
       len := Some(c.fingerprint.len), modified := Some(c.fingerprint.modifiedNs))
  }

  lemma CandidateCellsRead(row: RowKind, f: Fields, c: OcrCandidate, rest: seq<string>)
    requires Fits(c)
    ensures ParseFields(row, f, CandidateCells(c) + rest) == ParseFields(row, WithCandidate(f, c), rest)
  {
    hide ParseFields, Unescape, EscapeField, Dec, ParseUnsigned, ModifiedText, ParseModified, Cell;
    var cells, p := CandidateCells(c), c.fingerprint;
    EscapeFieldRoundTrip(c.path);
    KindReads(c.kind);
    ParseDec(p.extractorVersion, U32_MAX);
    ParseDec(p.len, U64_MAX);
    ModifiedReads(p.modifiedNs);
    var f1 := f.(path := Some(c.path));
    var f2 := f1.(kind := Some(c.kind));
    var f3 := f2.(version := Some(p.extractorVersion));
    var f4 := f3.(len := Some(p.len));
    CellReads(row, f, "path", EscapeField(c.path), cells[1..] + rest, f1);
    CellReads(row, f1, "kind", c.kind.Name(), cells[2..] + rest, f2);
    CellReads(row, f2, "version", Dec(p.extractorVersion), cells[3..] + rest, f3);
    CellReads(row, f3, "len", Dec(p.len), cells[4..] + rest, f4);
    CellReads(row, f4, "modified-ns", ModifiedText(p.modifiedNs), rest, WithCandidate(f, c));
    assert cells + rest == [cells[0]] + (cells[1..] + rest);
    assert cells[1..] + rest == [cells[1]] + (cells[2..] + rest);
    assert cells[2..] + rest == [cells[2]] + (cells[3..] + rest);
    assert cells[3..] + rest == [cells[3]] + (cells[4..] + rest);
    assert cells[4..] + rest == [cells[4]] + rest;
  }

  lemma CleanCell(key: string, value: string)
    requires Clean(key) && Clean(value)
    ensures Clean(Cell(key, value))
  {
  }

  lemma CandidateCellsClean(c: OcrCandidate)
    requires Fits(c)
    ensures CleanCells(CandidateCells(c))
  {
    var p := c.fingerprint;
    EscapeFieldRoundTrip(c.path);
    KindReads(c.kind);
    ModifiedReads(p.modifiedNs);
    assert Clean("path") && Clean("kind") && Clean("version") && Clean("len") && Clean("modified-ns");
    assert Clean(EscapeField(c.path)) && Clean(Dec(p.extractorVersion)) && Clean(Dec(p.len));
    hide Clean, Cell, EscapeField, Dec, ModifiedText, OcrKind.Name;
    CleanCell("path", EscapeField(c.path));
    CleanCell("kind", c.kind.Name());
    CleanCell("version", Dec(p.extractorVersion));
    CleanCell("len", Dec(p.len));
    CleanCell("modified-ns", ModifiedText(p.modifiedNs));
  }

  lemma CandidateIsFaithful(c: OcrCandidate)
    requires Fits(c)
    ensures Faithful(QUEUE, c)
  {
    CandidateCellsClean(c);
    CandidateCellsRead(CandidateRow, NO_FIELDS, c, []);
    hide CandidateCells, CleanCells;
    assert CandidateCells(c) + [] == CandidateCells(c);
  }

  lemma TextReads(f: Fields, text: string)
    ensures SetField(RecognitionRow, f, "text-hex", HexBytes(Encode(text))) == Ok(f.(text := Some(text)))
    ensures CleanCells([Cell("text-hex", HexBytes(Encode(text)))])
  {
    hide Encode, Decode, HexBytes, UnhexBytes, Cell;
    HexRoundTrip(Encode(text));
    DecodeEncode(text);
    assert Clean("text-hex");
    hide Clean;
    CleanCell("text-hex", HexBytes(Encode(text)));
    assert "text-hex"[0] == 't' && |"text-hex"| == 8;
  }

  lemma RecognitionIsFaithful(r: Recognition)
    requires Fits(r.candidate)
    ensures Faithful(CACHE, r)
  {
    hide CandidateCells, Clean, Cell, Encode, HexBytes, SetField, Fits;
    var hex := HexBytes(Encode(r.text));
    var f := WithCandidate(NO_FIELDS, r.candidate);
    var tail := [Cell("text-hex", hex)];
    CandidateCellsClean(r.candidate);
    TextReads(f, r.text);
    CandidateCellsRead(RecognitionRow, NO_FIELDS, r.candidate, tail);
    assert Absent("text-hex", '=');
    CellReads(RecognitionRow, f, "text-hex", hex, [], f.(text := Some(r.text)));
    assert tail + [] == tail;
    assert ParseFields(RecognitionRow, f.(text := Some(r.text)), []) == Ok(f.(text := Some(r.text)));
    hide ParseFields;
    assert ParseFields(RecognitionRow, NO_FIELDS, RecognitionCells(r)) == Ok(f.(text := Some(r.text)));
  }

  lemma FailureIsFaithful(e: FailureEntry)
    requires Fits(e.candidate) && e.kind != Recognized && e.failures <= U32_MAX
    ensures Faithful(FAILURES, e)
  {
    FailureTailReads(e);
    CandidateCellsClean(e.candidate);
    hide CandidateCells, Clean, Cell, ParseFields, FailureTail;
    CandidateCellsRead(FailureRow, NO_FIELDS, e.candidate, FailureTail(e));
    assert FailureCells(e) == CandidateCells(e.candidate) + FailureTail(e) by {
      FailureTailCells(e);
    }
  }

  function FailureTail(e: FailureEntry): seq<string> {
    [Cell("failure-kind", e.kind.Name()), Cell("failures", Dec(e.failures)), Cell("reason", EscapeField(e.reason))]
  }

  lemma FailureTailCells(e: FailureEntry)
    ensures FailureCells(e) == CandidateCells(e.candidate) + FailureTail(e)
  {
    hide Cell, CandidateCells;
  }

  lemma FailureFields(f: Fields, e: FailureEntry)
    requires e.kind != Recognized && e.failures <= U32_MAX
    ensures SetField(FailureRow, f, "failure-kind", e.kind.Name()) == Ok(f.(failureKind := Some(e.kind)))
    ensures SetField(FailureRow, f, "failures", Dec(e.failures)) == Ok(f.(failures := Some(e.failures)))
    ensures SetField(FailureRow, f, "reason", EscapeField(e.reason)) == Ok(f.(reason := Some(e.reason)))
  {
    hide Unescape, EscapeField, Dec, ParseUnsigned, Status.Name, ParseFailureKind, ParseOcrKind, UnhexText,
        ParseModified;
    EscapeFieldRoundTrip(e.reason);
    FailureKindReads(e.kind);
    ParseDec(e.failures, U32_MAX);
  }

  lemma FailureTailClean(e: FailureEntry)
    ensures CleanCells(FailureTail(e))
  {
    hide EscapeField, Dec, Cell, Status.Name;
    EscapeFieldRoundTrip(e.reason);
    FailureKindReads(e.kind);
    assert Clean("failure-kind") && Clean("failures") && Clean("reason") && Clean(EscapeField(e.reason))
        && Clean(Dec(e.failures));
    hide Clean;
    CleanCell("failure-kind", e.kind.Name());
    CleanCell("failures", Dec(e.failures));
    CleanCell("reason", EscapeField(e.reason));
  }

  lemma FailureTailReads(e: FailureEntry)
    requires e.kind != Recognized && e.failures <= U32_MAX
    ensures CleanCells(FailureTail(e))
    ensures var f := WithCandidate(NO_FIELDS, e.candidate);
            ParseFields(FailureRow, f, FailureTail(e)) ==
            Ok(f.(failureKind := Some(e.kind), failures := Some(e.failures), reason := Some(e.reason)))
  {
    FailureTailClean(e);
    assert Absent("failure-kind", '=') && Absent("failures", '=') && Absent("reason", '=');
    hide EscapeField, Dec, Cell, Status.Name, SetField, Absent, CleanCells;
    var f, cells := WithCandidate(NO_FIELDS, e.candidate), FailureTail(e);
    var f1 := f.(failureKind := Some(e.kind));
    var f2 := f1.(failures := Some(e.failures));
    var f3 := f2.(reason := Some(e.reason));
    FailureFields(f, e);
    FailureFields(f1, e);
    FailureFields(f2, e);
    CellReads(FailureRow, f, "failure-kind", e.kind.Name(), cells[1..], f1);
    CellReads(FailureRow, f1, "failures", Dec(e.failures), cells[2..], f2);
    CellReads(FailureRow, f2, "reason", EscapeField(e.reason), [], f3);
    assert ParseFields(FailureRow, f3, []) == Ok(f3);
    hide ParseFields;
    assert cells == [cells[0]] + cells[1..];
    assert cells[1..] == [cells[1]] + cells[2..];
    assert cells[2..] == [cells[2]] + [];
  }

  // ----- What any readable text gives -----

  /** The candidates of a queue file, in some order of its keys. */
  function InOrder(m: map<string, OcrCandidate>, order: seq<string>): seq<OcrCandidate>
    requires forall k :: k in order ==> k in m
  {
    seq(|order|, i requires 0 <= i < |order| => m[order[i]])
  }

  /** Whatever a queue file holds, duplicate rows included, a run meets each
      candidate once. */
  lemma ReadQueueIsDistinct(text: string, order: seq<string>)
    requires ReadQueue(text).Ok? && Lists(order, ReadQueue(text).value.Keys)
    ensures Distinct(InOrder(ReadQueue(text).value, order))
  {
    hide ReadText, QueueKey, ParseCandidate;
    ReadingsAreFiled(QUEUE, text);
    var m := ReadQueue(text).value;
    assert forall k :: k in m ==> QueueKey(m[k]) == k;
  }

  /** Whatever a failure file holds, it is one the attempt budget accepts. */
  lemma ReadFailuresIsWellFormed(text: string, cache: Option<Cache>)
    requires ReadFailures(text).Ok?
    ensures WellFormedDisk(Disk(cache, Some(ReadFailures(text).value)))
  {
    hide ReadText;
    ReadingsAreFiled(FAILURES, text);
  }

  // ----- The stores of any sequence of runs -----

  predicate WellFormedCache(cache: Cache) {
    forall k :: k in cache ==> QueueKey(cache[k].candidate) == k && Fits(cache[k].candidate)
  }

  predicate WellFormedFailure(e: FailureEntry, key: string) {
    QueueKey(e.candidate) == key && Fits(e.candidate) && e.kind != Recognized && e.failures <= U32_MAX
  }

  predicate WellFormedFailures(q: Quarantine) {
    1 <= q.threshold <= U32_MAX && forall k :: k in q.entries ==> WellFormedFailure(q.entries[k], k)
  }

  predicate WellFormedStores(cache: Cache, q: Quarantine) {
    WellFormedCache(cache) && WellFormedFailures(q)
  }

  lemma RecordingKeepsWellFormed(s: Sweep, c: OcrCandidate, r: Report, polls: nat, cut: bool)
    requires WellFormedStores(s.cache, s.quarantine) && Fits(c)
    ensures var t := WithReport(s, c, r, polls, cut); WellFormedStores(t.cache, t.quarantine)
  {
    hide QueueKey, Fits;
    if r.status != Recognized {
      var key := QueueKey(c);
      assert WellFormedFailure(FailedEntry(Lookup(s.quarantine.entries, key), c, r), key);
    }
  }

  lemma StepKeepsWellFormed(s: Sweep, c: OcrCandidate, p: Plan)
    requires WellFormedStores(s.cache, s.quarantine) && Fits(c) && Step(s, c, p).Next?
    ensures var t := Step(s, c, p).state; WellFormedStores(t.cache, t.quarantine)
  {
    hide WithReport, QueueKey, Fits, PlainReport, WellFormedFailure;
    var a := p.attempts(c);
    var start := s.polls + 1 + a.accessPolls;
    RecordingKeepsWellFormed(s, c, PlainReport(c, a), start + RecognitionPolls(c, a), s.cut);
    RecordingKeepsWellFormed(s, c, CUT_SHORT, p.cancelAt + 1, true);
  }

  lemma {:induction false} SweepKeepsWellFormed(s: Sweep, queue: seq<OcrCandidate>, p: Plan)
    requires WellFormedStores(s.cache, s.quarantine) && forall c :: c in queue ==> Fits(c)
    requires SweepFrom(s, queue, p).Next?
    ensures var t := SweepFrom(s, queue, p).state; WellFormedStores(t.cache, t.quarantine)
    decreases |queue|
  {
    hide Step, WellFormedStores, Fits;
    if queue != [] {
      StepKeepsWellFormed(s, queue[0], p);
      SweepKeepsWellFormed(Step(s, queue[0], p).state, queue[1..], p);
    }
  }

  predicate WellFormedOcrDisk(d: Disk) {
    WellFormedStores(OpenCache(d), OpenQuarantine(d))
  }

  lemma RunKeepsWellFormed(d: Disk, r: Request)
    requires WellFormedOcrDisk(d) && forall c :: c in r.queue ==> Fits(c)
    ensures WellFormedOcrDisk(Run(d, r.queue, r.plan).disk)
  {
    hide WellFormedCache, WellFormedFailures, SweepFrom, CacheLands, QuarantineLands, Completes;
    if Swept(d, r.queue, r.plan) {
      SweepKeepsWellFormed(Opened(d, r.plan), r.queue, r.plan);
    }
  }

  lemma {:induction false} RunsKeepWellFormed(d: Disk, rs: seq<Request>)
    requires WellFormedOcrDisk(d)
    requires forall i, c :: 0 <= i < |rs| && c in rs[i].queue ==> Fits(c)
    ensures WellFormedOcrDisk(RunAll(d, rs))
    decreases |rs|
  {
    if rs != [] {
      hide Run, WellFormedOcrDisk, Fits;
      RunKeepsWellFormed(d, rs[0]);
      RunsKeepWellFormed(Run(d, rs[0].queue, rs[0].plan).disk, rs[1..]);
    }
  }

  lemma CacheNames()
    ensures OneLine("gfm-ocr-recognition-cache-v1") && Clean("ocr-recognition")
  {
  }

  lemma FailureNames()
    ensures OneLine("gfm-ocr-failure-quarantine-v1") && Clean("ocr-failure")
  {
  }

  lemma RowIsNew(row: string)
    requires row != [] && row[0] == 'o'
    ensures row !in {"schema_version", "failure_threshold", ""}
  {
  }

  lemma CacheFormatIsPlain()
    ensures PlainFormat(CACHE)
  {
    hide OneLine, Clean;
    CacheNames();
    RowIsNew("ocr-recognition");
  }

  lemma FailureFormatIsPlain()
    ensures PlainFormat(FAILURES)
  {
    hide OneLine, Clean;
    FailureNames();
    RowIsNew("ocr-failure");
  }

  lemma CacheReadsBack(cache: Cache, order: seq<string>)
    requires WellFormedCache(cache) && Lists(order, cache.Keys)
    ensures ReadCache(StoreText(CACHE, 0, cache, order)) == Ok(cache)
  {
    hide PlainFormat, ReadText, StoreText, Faithful, QueueKey, Fits, RecognitionCells, ParseRecognition;
    CacheFormatIsPlain();
    forall k | k in cache ensures Faithful(CACHE, cache[k]) {
      RecognitionIsFaithful(cache[k]);
    }
    StoreRoundTrip(CACHE, 0, cache, order);
  }

  lemma FailuresReadBack(q: Quarantine, order: seq<string>)
    requires WellFormedFailures(q) && Lists(order, q.entries.Keys)
    ensures ReadFailures(StoreText(FAILURES, q.threshold, q.entries, order)) == Ok(q)
  {
    hide PlainFormat, ReadText, StoreText, Faithful, QueueKey, Fits, FailureCells, ParseFailure;
    FailureFormatIsPlain();
    forall k | k in q.entries ensures Faithful(FAILURES, q.entries[k]) {
      FailureIsFaithful(q.entries[k]);
    }
    StoreRoundTrip(FAILURES, q.threshold, q.entries, order);
  }

  /** Every pair of stores any sequence of runs can leave, half-persisted pairs
      included, is read back from its text as the values the next run starts from. */
  lemma {:induction false} ReachableStoresReadBack(d: Disk, rs: seq<Request>, cacheOrder: seq<string>,
                                                   order: seq<string>)
    requires WellFormedOcrDisk(d)
    requires forall i, c :: 0 <= i < |rs| && c in rs[i].queue ==> Fits(c)
    requires Lists(cacheOrder, OpenCache(RunAll(d, rs)).Keys)
            && Lists(order, OpenQuarantine(RunAll(d, rs)).entries.Keys)
    ensures ReadCache(StoreText(CACHE, 0, OpenCache(RunAll(d, rs)), cacheOrder)) == Ok(OpenCache(RunAll(d, rs)))
    ensures var q := OpenQuarantine(RunAll(d, rs));
            ReadFailures(StoreText(FAILURES, q.threshold, q.entries, order)) == Ok(q)
  {
    RunsKeepWellFormed(d, rs);
    CacheReadsBack(OpenCache(RunAll(d, rs)), cacheOrder);
    FailuresReadBack(OpenQuarantine(RunAll(d, rs)), order);
  }

  /** The five cells every OCR row begins with. */
  predicate CandidateHolds(cells: seq<string>, row: string, c: OcrCandidate) {
    && |cells| >= 6 && cells[0] == row
    && cells[1] == "path=" + EscapeField(c.path)
    && cells[2] == "kind=" + c.kind.Name()
    && cells[3] == "version=" + Dec(c.fingerprint.extractorVersion)
    && cells[4] == "len=" + Dec(c.fingerprint.len)
    && cells[5] == "modified-ns=" + ModifiedText(c.fingerprint.modifiedNs)
  }

  /** The written cache, line by line: header, schema 1, and one row per recognition with
      its text as hexadecimal bytes. */
  lemma CacheLayout(cache: Cache, order: seq<string>)
    requires WellFormedCache(cache) && forall k :: k in order ==> k in cache
    ensures
      var lines := BufLines(StoreText(CACHE, 0, cache, order));
      && |lines| == 2 + |order|
      && lines[0] == "gfm-ocr-recognition-cache-v1" && lines[1] == "schema_version" + "\t" + Dec(1)
      && forall i :: 0 <= i < |order| ==> RecognitionHolds(Split(lines[2 + i], '\t'), cache[order[i]])
  {
    CacheFormatIsPlain();
    forall k | k in order ensures CleanCells(CACHE.cells(cache[k])) {
      RecognitionIsFaithful(cache[k]);
    }
    hide PlainFormat, Split, BufLines, StoreText, RecognitionCells, RecognitionHolds, Dec;
    StoreLayout(CACHE, 0, cache, order);
    forall i | 0 <= i < |order|
      ensures RecognitionHolds(["ocr-recognition"] + RecognitionCells(cache[order[i]]), cache[order[i]])
    {
      RecognitionCellsHold(cache[order[i]]);
    }
  }

  predicate RecognitionHolds(cells: seq<string>, r: Recognition) {
    && |cells| == 7 && CandidateHolds(cells, "ocr-recognition", r.candidate)
    && cells[6] == "text-hex=" + HexBytes(Encode(r.text))
  }

  lemma RecognitionCellsHold(r: Recognition)
    ensures RecognitionHolds(["ocr-recognition"] + RecognitionCells(r), r)
  {
    hide EscapeField, Dec, HexBytes, Encode, ModifiedText;
  }

  /** The written failure quarantine, line by line: header, schema 1, threshold, and one
      row per failure with its kind, count and reason. */
  lemma FailuresLayout(q: Quarantine, order: seq<string>)
    requires WellFormedFailures(q) && forall k :: k in order ==> k in q.entries
    ensures
      var lines := BufLines(StoreText(FAILURES, q.threshold, q.entries, order));
      && |lines| == 3 + |order|
      && lines[0] == "gfm-ocr-failure-quarantine-v1"
      && lines[1] == "schema_version" + "\t" + Dec(1) && lines[2] == "failure_threshold" + "\t" + Dec(q.threshold)
      && forall i :: 0 <= i < |order| ==> FailureHolds(Split(lines[3 + i], '\t'), q.entries[order[i]])
  {
    FailureFormatIsPlain();
    forall k | k in order ensures CleanCells(FAILURES.cells(q.entries[k])) {
      FailureIsFaithful(q.entries[k]);
    }
    hide PlainFormat, Split, BufLines, StoreText, FailureCells, FailureHolds, Dec;
    StoreLayout(FAILURES, q.threshold, q.entries, order);
    forall i | 0 <= i < |order|
      ensures FailureHolds(["ocr-failure"] + FailureCells(q.entries[order[i]]), q.entries[order[i]])
    {
      FailureCellsHold(q.entries[order[i]]);
    }
  }

  predicate FailureHolds(cells: seq<string>, e: FailureEntry) {
    && |cells| == 9 && CandidateHolds(cells, "ocr-failure", e.candidate)
    && cells[6] == "failure-kind=" + e.kind.Name()
    && cells[7] == "failures=" + Dec(e.failures)
    && cells[8] == "reason=" + EscapeField(e.reason)
  }

  lemma FailureCellsHold(e: FailureEntry)
    ensures FailureHolds(["ocr-failure"] + FailureCells(e), e)
  {
    hide EscapeField, Dec, ModifiedText, Status.Name;
  }

  /** A failure text without a threshold line is refused; otherwise the last one counts,
      and zero reads as one. */
  lemma ReadFailureThreshold(text: string)
    requires ReadText(FAILURES, text).Ok?
    ensures Unnamed(Body(text), "failure_threshold") <==> ReadFailures(text) == Err(MissingThreshold)
    ensures ReadFailures(text).Ok? ==>
              exists n: nat :: EndsWith(Body(text), "failure_threshold", n)
                               && ReadFailures(text).value.threshold == if n == 0 then 1 else n
  {
    hide ReadText, Body, Unnamed, EndsWith;
    ThresholdIs(FAILURES, text);
    var threshold := ReadText(FAILURES, text).value.threshold;
    if threshold.Some? {
      assert EndsWith(Body(text), "failure_threshold", threshold.value);
    }
  }
}
