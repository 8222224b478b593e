// The extraction quarantine: its decisions, and the text it is persisted as.
module QuarantineStore {
  import opened Numbers
  import opened Text
  import opened StoreFormat
  import opened Fingerprint

  datatype FailureKind = Corrupt | Encrypted | Crash | Timeout {
    function Name(): string {
      match this
      case Corrupt => "corrupt"
      case Encrypted => "encrypted"
      case Crash => "crash"
      case Timeout => "timeout"
    }
  }

  function ParseKind(s: string): Option<FailureKind> {
    if s == "corrupt" then Some(Corrupt)
    else if s == "encrypted" then Some(Encrypted)
    else if s == "crash" then Some(Crash)
    else if s == "timeout" then Some(Timeout)
    else None
  }

  datatype Entry = Entry(path: string, cacheKey: string, kind: FailureKind, reason: string, failures: nat)

  datatype Quarantine = Quarantine(threshold: nat, entries: map<string, Entry>)

  function AtLeastOne(n: nat): nat { if n < 1 then 1 else n }

  function NewQuarantine(threshold: nat): Quarantine {
    Quarantine(AtLeastOne(threshold), map[])
  }

  /** The number of recorded failures of a key, zero without an entry. */
  function Failures(q: Quarantine, key: string): nat {
    if key in q.entries then q.entries[key].failures else 0
  }

  predicate Blocked(q: Quarantine, key: string) {
    key in q.entries && q.entries[key].failures >= q.threshold
  }

  function WithFailure(q: Quarantine, path: string, key: string, kind: FailureKind, reason: string): Quarantine {
    var prior := if key in q.entries then q.entries[key] else Entry(path, key, kind, reason, 0);
    q.(entries := q.entries[key := prior.(kind := kind, reason := reason, failures := SaturatingSucc(prior.failures))])
  }

  function WithSuccess(q: Quarantine, key: string): Quarantine {
    q.(entries := q.entries - {key})
  }

  /** The quarantine object the workers update in place. */
  class ExtractionQuarantine {
    var threshold: nat
    var entries: map<string, Entry>

    function Value(): Quarantine
      reads this
    {
      Quarantine(threshold, entries)
    }

    constructor (q: Quarantine)
      ensures Value() == q
    {
      threshold, entries := q.threshold, q.entries;
    }

    method BeforeExtract(key: string) returns (blocked: Option<Entry>)
      ensures blocked.Some? <==> Blocked(Value(), key)
      ensures blocked.Some? ==> blocked.value == entries[key]
    {
      if key in entries && entries[key].failures >= threshold {
        blocked := Some(entries[key]);
      } else {
        blocked := None;
      }
    }

    method RecordFailure(path: string, key: string, kind: FailureKind, reason: string) returns (blocked: Option<Entry>)
      modifies this
      ensures Value() == WithFailure(old(Value()), path, key, kind, reason)
      ensures blocked.Some? <==> Blocked(Value(), key)
      ensures blocked.Some? ==> blocked.value == entries[key]
    {
      if key !in entries {
        entries := entries[key := Entry(path, key, kind, reason, 0)];
      }
      var entry := entries[key];
      entry := entry.(kind := kind, reason := reason, failures := SaturatingSucc(entry.failures));
      entries := entries[key := entry];
      blocked := if entry.failures >= threshold then Some(entry) else None;
    }

    method RecordSuccess(key: string)
      modifies this
      ensures Value() == WithSuccess(old(Value()), key)
    {
      entries := entries - {key};
    }
  }

  // ----- The persisted text -----

  function EntryCells(e: Entry): seq<string> {
    [EscapeField(e.cacheKey), EscapeField(e.path), e.kind.Name(), Dec(e.failures), EscapeField(e.reason)]
  }

  function ParseEntry(parts: seq<string>): Parsed<Entry> {
    if |parts| < 3 then Err(MissingField)
    else match ParseKind(parts[2])
      case None => Err(InvalidField)
      case Some(kind) =>
        match ParseNumber(parts, 3)
        case Err(e) => Err(e)
        case Ok(failures) =>
          if |parts| < 5 then Err(MissingField)
          else Ok(Entry(Unescape(parts[1]), Unescape(parts[0]), kind, Unescape(parts[4]), failures))
  }

  const FORMAT: Format<Entry> :=
    Format("gfm-extraction-quarantine-v1", "entry", 1, true,
           e => EntryCells(e), parts => ParseEntry(parts), (e: Entry) => e.cacheKey)

  function QuarantineText(q: Quarantine, order: seq<string>): string
    requires forall k :: k in order ==> k in q.entries
  {
    StoreText(FORMAT, q.threshold, q.entries, order)
  }

  /** A missing threshold reads as two. */
  function ReadQuarantine(text: string): Parsed<Quarantine> {
    match ReadText(FORMAT, text)
    case Err(e) => Err(e)
    case Ok(r) => Ok(Quarantine(AtLeastOne(if r.threshold.Some? then r.threshold.value else 2), r.entries))
  }

  /** What every quarantine the code builds satisfies. */
  predicate WellFormed(q: Quarantine) {
    && 1 <= q.threshold <= U32_MAX
    && forall k :: k in q.entries ==> q.entries[k].cacheKey == k && q.entries[k].failures <= U32_MAX
  }

  lemma EntryIsFaithful(e: Entry)
    requires e.failures <= U32_MAX
    ensures Faithful(FORMAT, e)
  {
    hide EscapeField, Unescape, Dec, ParseUnsigned;
    EscapeFieldRoundTrip(e.cacheKey);
    EscapeFieldRoundTrip(e.path);
    EscapeFieldRoundTrip(e.reason);
    ParseDec(e.failures, U32_MAX);
    assert Clean(e.kind.Name()) && ParseKind(e.kind.Name()) == Some(e.kind);
    assert Clean(EntryCells(e)[0]) && Clean(EntryCells(e)[1]) && Clean(EntryCells(e)[3]) && Clean(EntryCells(e)[4]);
  }

  lemma FormatIsPlain()
    ensures PlainFormat(FORMAT)
  {
    assert OneLine("gfm-extraction-quarantine-v1") && Clean("entry");
    assert |"entry"| == 5 && |"schema_version"| == 14 && |"failure_threshold"| == 17;
    hide OneLine, Clean;
  }

  /** Writing a quarantine and reading it back gives the same quarantine,
      whatever its paths, keys and reasons hold and in whatever order the entries
      are written; so a store may be treated as the value it holds. */
  lemma QuarantineRoundTrip(q: Quarantine, order: seq<string>)
    requires WellFormed(q) && Lists(order, q.entries.Keys)
    ensures ReadQuarantine(QuarantineText(q, order)) == Ok(q)
  {
    FormatIsPlain();
    hide PlainFormat, Faithful, ReadText, StoreText, EntryCells, ParseEntry;
    forall k | k in q.entries ensures Faithful(FORMAT, q.entries[k]) {
      EntryIsFaithful(q.entries[k]);
    }
    StoreRoundTrip(FORMAT, q.threshold, q.entries, order);
  }

  /** Every operation keeps quarantines writable, and the value a reader
      constructs for a missing store is writable when the threshold fits. */
  lemma OperationsKeepWellFormed(q: Quarantine, path: string, key: string, kind: FailureKind, reason: string,
                                 threshold: nat)
    requires WellFormed(q) && threshold <= U32_MAX
    ensures WellFormed(WithFailure(q, path, key, kind, reason))
    ensures WellFormed(WithSuccess(q, key))
    ensures WellFormed(NewQuarantine(threshold))
  {
  }

  /** The text that is written, line by line: header, schema 1, threshold, and for every
      entry its key, path, kind, count and reason in this order. */
  lemma QuarantineLayout(q: Quarantine, order: seq<string>)
    requires forall k :: k in order ==> k in q.entries && q.entries[k].failures <= U32_MAX
    ensures
      var lines := BufLines(QuarantineText(q, order));
      && |lines| == 3 + |order|
      && lines[0] == "gfm-extraction-quarantine-v1"
      && lines[1] == "schema_version" + "\t" + Dec(1) && lines[2] == "failure_threshold" + "\t" + Dec(q.threshold)
      && forall i :: 0 <= i < |order| ==> RowHolds(Split(lines[3 + i], '\t'), q.entries[order[i]])
  {
    FormatIsPlain();
    forall k | k in order ensures CleanCells(FORMAT.cells(q.entries[k])) {
      EntryIsFaithful(q.entries[k]);
    }
    hide PlainFormat, Split, BufLines, StoreText, EntryCells, RowHolds, Dec;
    StoreLayout(FORMAT, q.threshold, q.entries, order);
    forall i | 0 <= i < |order| ensures RowHolds(["entry"] + EntryCells(q.entries[order[i]]), q.entries[order[i]]) {
      CellsHold(q.entries[order[i]]);
    }
  }

  /** The six cells of an entry's line. */
  predicate RowHolds(cells: seq<string>, e: Entry) {
    && |cells| == 6 && cells[0] == "entry"
    && Unescape(cells[1]) == e.cacheKey && Unescape(cells[2]) == e.path
    && ParseKind(cells[3]) == Some(e.kind) && AllDigits(cells[4]) && DigitsValue(cells[4]) == e.failures
    && Unescape(cells[5]) == e.reason
  }

  lemma CellsHold(e: Entry)
    ensures RowHolds(["entry"] + EntryCells(e), e)
  {
    hide EscapeField, Unescape, Dec, DigitsValue;
    EscapeFieldRoundTrip(e.cacheKey);
    EscapeFieldRoundTrip(e.path);
    EscapeFieldRoundTrip(e.reason);
    DecValue(e.failures);
    assert ParseKind(e.kind.Name()) == Some(e.kind);
  }

  /** What a reader makes of the threshold line: the last one counts, zero reads as one,
      and without one the threshold is two. */
  lemma ReadThreshold(text: string)
    requires ReadQuarantine(text).Ok?
    ensures var t := ReadQuarantine(text).value.threshold;
            && (Unnamed(Body(text), "failure_threshold") ==> t == 2)
            && (!Unnamed(Body(text), "failure_threshold") ==>
                  exists n: nat :: EndsWith(Body(text), "failure_threshold", n) && t == if n == 0 then 1 else n)
  {
    hide ReadText, Body, Unnamed, EndsWith;
    ThresholdIs(FORMAT, text);
    var threshold := ReadText(FORMAT, text).value.threshold;
    if threshold.Some? {
      assert EndsWith(Body(text), "failure_threshold", threshold.value);
    }
  }

  /** Which cells read as an entry, and as which. */
  lemma EntryReadsIff(parts: seq<string>)
    ensures ParseEntry(parts).Ok? <==>
            |parts| >= 5 && ParseUnsigned(parts[3], 0xFFFF_FFFF).Some?
            && parts[2] in ["corrupt", "encrypted", "crash", "timeout"]
    ensures ParseEntry(parts).Ok? ==>
              var e := ParseEntry(parts).value;
              && Unescape(parts[0]) == e.cacheKey && Unescape(parts[1]) == e.path && parts[2] == e.kind.Name()
              && ParseUnsigned(parts[3], 0xFFFF_FFFF) == Some(e.failures) && Unescape(parts[4]) == e.reason
  {
    hide ParseUnsigned, Unescape;
    if |parts| >= 3 {
      KindReads(parts[2]);
    }
  }

  lemma KindReads(s: string)
    ensures ParseKind(s).Some? <==> s in ["corrupt", "encrypted", "crash", "timeout"]
    ensures ParseKind(s).Some? ==> ParseKind(s).value.Name() == s
  {
  }
}
