// The line format the persisted stores share: a header, a schema line, for the
// quarantines a threshold line, and one tab-separated row per entry.
module StoreFormat {
  import opened Numbers
  import opened Text

  datatype StoreError =
    | MissingHeader | UnsupportedHeader | MissingField | InvalidField | UnknownField | UnknownRow
    | UnsupportedSchema | MissingThreshold

  datatype Parsed<+T> = Ok(value: T) | Err(error: StoreError)

  /** One store's format: how the cells of an entry are printed and read, and the
      key the entry is filed under. */
  datatype Format<!T> = Format(
    header: string, row: string, schema: nat, hasThreshold: bool,
    cells: T -> seq<string>, parse: seq<string> -> Parsed<T>, key: T -> string)

  // ----- Writing -----

  function EntryLine<T>(f: Format<T>, e: T): string {
    Join([f.row] + f.cells(e), "\t")
  }

  function NumberLine(name: string, n: nat): string {
    Join([name, Dec(n)], "\t")
  }

  function EntryLines<T>(f: Format<T>, entries: map<string, T>, order: seq<string>): seq<string>
    requires forall k :: k in order ==> k in entries
  {
    if order == [] then [] else [EntryLine(f, entries[order[0]])] + EntryLines(f, entries, order[1..])
  }

  function Lines<T>(f: Format<T>, threshold: nat, entries: map<string, T>, order: seq<string>): seq<string>
    requires forall k :: k in order ==> k in entries
  {
    [f.header] + ([NumberLine("schema_version", f.schema)]
      + ((if f.hasThreshold then [NumberLine("failure_threshold", threshold)] else []) + EntryLines(f, entries, order)))
  }

  function Terminated(lines: seq<string>): string {
    if lines == [] then [] else lines[0] + "\n" + Terminated(lines[1..])
  }

  /** What is written, for some order of the entries (the code's maps are sorted). */
  function StoreText<T>(f: Format<T>, threshold: nat, entries: map<string, T>, order: seq<string>): string
    requires forall k :: k in order ==> k in entries
  {
    Terminated(Lines(f, threshold, entries, order))
  }

  ghost predicate Lists(order: seq<string>, keys: set<string>) {
    && (forall i, j :: 0 <= i < j < |order| ==> order[i] != order[j])
    && forall k :: k in order <==> k in keys
  }

  // ----- Reading -----

  function StripCr(s: string): string {
    if s != [] && s[|s| - 1] == '\r' then s[..|s| - 1] else s
  }

  /** `BufRead::lines`. */
  function BufLines(text: string): seq<string>
    decreases |text|
  {
    if text == [] then []
    else
      var k := Find(text, '\n');
      if k == |text| then [text] else [StripCr(text[..k])] + BufLines(text[k + 1..])
  }

  datatype Reading<T> = Reading(schema: Option<nat>, threshold: Option<nat>, entries: map<string, T>)

  function ParseNumber(parts: seq<string>, i: nat): Parsed<nat> {
    if i >= |parts| then Err(MissingField)
    else match ParseUnsigned(parts[i], U32_MAX) { case None => Err(InvalidField) case Some(n) => Ok(n) }
  }

  function ParseRow<T>(f: Format<T>, r: Reading<T>, line: string): Parsed<Reading<T>> {
    var parts := Split(line, '\t');
    if parts[0] == "schema_version" then
      match ParseNumber(parts, 1) { case Err(e) => Err(e) case Ok(n) => Ok(r.(schema := Some(n))) }
    else if f.hasThreshold && parts[0] == "failure_threshold" then
      match ParseNumber(parts, 1) { case Err(e) => Err(e) case Ok(n) => Ok(r.(threshold := Some(n))) }
    else if parts[0] == f.row then
      match f.parse(parts[1..]) {
        case Err(e) => Err(e)
        case Ok(entry) => Ok(r.(entries := r.entries[f.key(entry) := entry]))
      }
    else if parts[0] == "" then Ok(r)
    else Err(UnknownRow)
  }

  function ParseRows<T>(f: Format<T>, r: Reading<T>, lines: seq<string>): Parsed<Reading<T>>
    decreases |lines|
  {
    if lines == [] then Ok(r)
    else match ParseRow(f, r, lines[0])
      case Err(e) => Err(e)
      case Ok(next) => ParseRows(f, next, lines[1..])
  }

  function ReadText<T>(f: Format<T>, text: string): Parsed<Reading<T>> {
    var lines := BufLines(text);
    if lines == [] then Err(MissingHeader)
    else if lines[0] != f.header then Err(UnsupportedHeader)
    else match ParseRows(f, Reading(None, None, map[]), lines[1..])
      case Err(e) => Err(e)
      case Ok(r) => if r.schema != Some(f.schema) then Err(UnsupportedSchema) else Ok(r)
  }

  // ----- What any readable text gives -----

  predicate Filed<T>(f: Format<T>, entries: map<string, T>) {
    forall k :: k in entries ==> f.key(entries[k]) == k
  }

  lemma {:induction false} RowsAreFiled<T>(f: Format<T>, r: Reading<T>, lines: seq<string>)
    requires Filed(f, r.entries) && (r.threshold.Some? ==> r.threshold.value <= U32_MAX)
    requires ParseRows(f, r, lines).Ok?
    ensures Filed(f, ParseRows(f, r, lines).value.entries)
    ensures ParseRows(f, r, lines).value.threshold.Some? ==> ParseRows(f, r, lines).value.threshold.value <= U32_MAX
    decreases |lines|
  {
    if lines != [] {
      RowsAreFiled(f, ParseRow(f, r, lines[0]).value, lines[1..]);
    }
  }

  /** Whatever a readable file holds, each of its entries is filed under its own key. */
  lemma ReadingsAreFiled<T>(f: Format<T>, text: string)
    requires ReadText(f, text).Ok?
    ensures Filed(f, ReadText(f, text).value.entries)
    ensures ReadText(f, text).value.threshold.Some? ==> ReadText(f, text).value.threshold.value <= U32_MAX
  {
    RowsAreFiled(f, Reading(None, None, map[]), BufLines(text)[1..]);
  }

  // ----- Which texts are readable -----

  function FirstCell(line: string): string { Split(line, '\t')[0] }

  /** The number in the second cell, if there is one that fits. */
  function NumberIn(line: string): Option<nat> {
    var parts := Split(line, '\t');
    if |parts| < 2 then None else ParseUnsigned(parts[1], 0xFFFF_FFFF)
  }

  /** A line that is understood: a schema or threshold line with its number, an entry
      that parses, or a line that begins with an empty cell. */
  predicate LineReads<T>(f: Format<T>, line: string) {
    if FirstCell(line) == "schema_version" || (f.hasThreshold && FirstCell(line) == "failure_threshold")
    then NumberIn(line).Some?
    else if FirstCell(line) == f.row then f.parse(Split(line, '\t')[1..]).Ok?
    else FirstCell(line) == ""
  }

  /** The last line with this name is line `k`, and holds this number. */
  predicate LastNumber(lines: seq<string>, name: string, k: nat, n: nat) {
    && k < |lines| && FirstCell(lines[k]) == name && NumberIn(lines[k]) == Some(n)
    && forall j :: k < j < |lines| ==> FirstCell(lines[j]) != name
  }

  ghost predicate EndsWith(lines: seq<string>, name: string, n: nat) {
    exists k: nat :: LastNumber(lines, name, k, n)
  }

  predicate Unnamed(lines: seq<string>, name: string) {
    forall j :: 0 <= j < |lines| ==> FirstCell(lines[j]) != name
  }

  lemma LastNumberCons(line: string, rest: seq<string>, name: string, n: nat)
    ensures EndsWith([line] + rest, name, n) <==>
            || EndsWith(rest, name, n)
            || (FirstCell(line) == name && NumberIn(line) == Some(n) && Unnamed(rest, name))
    ensures Unnamed([line] + rest, name) <==> FirstCell(line) != name && Unnamed(rest, name)
  {
    hide FirstCell, NumberIn;
    var lines := [line] + rest;
    assert forall j :: 0 <= j < |rest| ==> lines[j + 1] == rest[j];
    if k: nat :| LastNumber(rest, name, k, n) {
      assert forall j :: k + 1 < j < |lines| ==> lines[j] == rest[j - 1];
      assert LastNumber(lines, name, k + 1, n);
    }
    if FirstCell(line) == name && NumberIn(line) == Some(n) && Unnamed(rest, name) {
      assert forall j :: 0 < j < |lines| ==> lines[j] == rest[j - 1];
      assert LastNumber(lines, name, 0, n);
    }
    if k: nat :| LastNumber(lines, name, k, n) {
      if k > 0 {
        assert forall j :: k - 1 < j < |rest| ==> rest[j] == lines[j + 1];
        assert LastNumber(rest, name, k - 1, n);
      } else {
        assert forall j :: 0 <= j < |rest| ==> rest[j] == lines[j + 1];
      }
    }
    if Unnamed(rest, name) && FirstCell(line) != name {
      assert forall j :: 0 < j < |lines| ==> lines[j] == rest[j - 1];
    }
    if Unnamed(lines, name) {
      assert lines[0] == line;
      assert forall j :: 0 <= j < |rest| ==> rest[j] == lines[j + 1];
    }
  }

  lemma RowReads<T>(f: Format<T>, r: Reading<T>, line: string)
    ensures ParseRow(f, r, line).Ok? <==> LineReads(f, line)
    ensures ParseRow(f, r, line).Ok? ==>
              ParseRow(f, r, line).value.schema ==
              if FirstCell(line) == "schema_version" then NumberIn(line) else r.schema
  {
    hide Split, ParseUnsigned;
  }

  lemma AllOfCons<T>(f: Format<T>, line: string, rest: seq<string>)
    ensures (forall i :: 0 <= i < |[line] + rest| ==> LineReads(f, ([line] + rest)[i])) <==>
            LineReads(f, line) && forall i :: 0 <= i < |rest| ==> LineReads(f, rest[i])
  {
    hide LineReads;
    var lines := [line] + rest;
    assert lines[0] == line && forall i :: 0 <= i < |rest| ==> rest[i] == lines[i + 1];
    assert forall i :: 0 < i < |lines| ==> lines[i] == rest[i - 1];
  }

  /** Rows are read if and only if each of them reads; the last schema line wins. */
  lemma {:induction false} RowsRead<T>(f: Format<T>, r: Reading<T>, lines: seq<string>, n: nat)
    ensures ParseRows(f, r, lines).Ok? <==> forall i :: 0 <= i < |lines| ==> LineReads(f, lines[i])
    ensures ParseRows(f, r, lines).Ok? ==>
              (ParseRows(f, r, lines).value.schema == Some(n) <==>
               || EndsWith(lines, "schema_version", n)
               || (Unnamed(lines, "schema_version") && r.schema == Some(n)))
    decreases |lines|
  {
    if lines != [] {
      hide ParseRow, LineReads, FirstCell, NumberIn, EndsWith, Unnamed;
      RowReads(f, r, lines[0]);
      var rest := lines[1..];
      assert lines == [lines[0]] + rest;
      LastNumberCons(lines[0], rest, "schema_version", n);
      if ParseRow(f, r, lines[0]).Ok? {
        RowsRead(f, ParseRow(f, r, lines[0]).value, rest, n);
        AllOfCons(f, lines[0], rest);
        LastIsUnique(rest, "schema_version");
      }
    }
  }

  lemma LastIsUnique(lines: seq<string>, name: string)
    ensures Unnamed(lines, name) ==> forall n :: !EndsWith(lines, name, n)
  {
    hide FirstCell, NumberIn;
  }

  /** Which texts are readable at all: the first line is the header, every other line is
      understood, and the last schema line holds the format's own number. A text without
      lines and one with another first line are told apart. */
  lemma ReadableIff<T>(f: Format<T>, text: string)
    ensures var lines := BufLines(text);
            && (lines == [] ==> ReadText(f, text) == Err(MissingHeader))
            && (lines != [] && lines[0] != f.header ==> ReadText(f, text) == Err(UnsupportedHeader))
            && (ReadText(f, text).Ok? <==>
                && lines != [] && lines[0] == f.header
                && (forall i :: 0 < i < |lines| ==> LineReads(f, lines[i]))
                && EndsWith(lines[1..], "schema_version", f.schema))
  {
    hide BufLines, LineReads, EndsWith;
    var lines := BufLines(text);
    if lines != [] {
      var rest := lines[1..];
      RowsRead(f, Reading(None, None, map[]), rest, f.schema);
      assert Unnamed(rest, "schema_version") ==> !EndsWith(rest, "schema_version", f.schema) by {
        LastIsUnique(rest, "schema_version");
      }
      assert forall i :: 0 <= i < |rest| ==> rest[i] == lines[i + 1];
      assert (forall i :: 0 <= i < |rest| ==> LineReads(f, rest[i])) ==>
          forall i :: 0 < i < |lines| ==> LineReads(f, lines[i]) by {
        assert forall i :: 0 < i < |lines| ==> lines[i] == rest[i - 1];
      }
    }
  }

  lemma RowReadsThreshold<T>(f: Format<T>, r: Reading<T>, line: string)
    requires f.hasThreshold && ParseRow(f, r, line).Ok?
    ensures ParseRow(f, r, line).value.threshold ==
            if FirstCell(line) == "failure_threshold" then NumberIn(line) else r.threshold
  {
    hide Split, ParseUnsigned;
    assert "failure_threshold"[0] != "schema_version"[0];
  }

  lemma {:induction false} ThresholdRead<T>(f: Format<T>, r: Reading<T>, lines: seq<string>, n: nat)
    requires f.hasThreshold && ParseRows(f, r, lines).Ok?
    ensures ParseRows(f, r, lines).value.threshold == Some(n) <==>
            || EndsWith(lines, "failure_threshold", n)
            || (Unnamed(lines, "failure_threshold") && r.threshold == Some(n))
    decreases |lines|
  {
    if lines != [] {
      hide ParseRow, FirstCell, NumberIn, EndsWith, Unnamed;
      RowReadsThreshold(f, r, lines[0]);
      var rest := lines[1..];
      assert lines == [lines[0]] + rest;
      LastNumberCons(lines[0], rest, "failure_threshold", n);
      ThresholdRead(f, ParseRow(f, r, lines[0]).value, rest, n);
      LastIsUnique(rest, "failure_threshold");
    }
  }

  /** The threshold of a readable text is that of its last threshold line, and there is
      none exactly if it has no such line. */
  lemma ThresholdIs<T>(f: Format<T>, text: string)
    requires f.hasThreshold && ReadText(f, text).Ok?
    ensures ReadText(f, text).value.threshold.None? <==> Unnamed(Body(text), "failure_threshold")
    ensures forall n: nat :: ReadText(f, text).value.threshold == Some(n) <==>
                             EndsWith(Body(text), "failure_threshold", n)
  {
    BodyIsRead(f, text);
    hide BufLines, EndsWith, Unnamed, ParseRows, ReadText, Body;
    var none := Reading(None, None, map[]);
    forall n: nat
      ensures ReadText(f, text).value.threshold == Some(n) <==> EndsWith(Body(text), "failure_threshold", n)
    {
      ThresholdRead(f, none, Body(text), n);
    }
    LastIsUnique(Body(text), "failure_threshold");
    if ReadText(f, text).value.threshold.None? {
      NamedEnds(f, none, Body(text));
    }
  }

  /** The lines below the header. */
  function Body(text: string): seq<string> {
    if BufLines(text) == [] then [] else BufLines(text)[1..]
  }

  lemma BodyIsRead<T>(f: Format<T>, text: string)
    requires ReadText(f, text).Ok?
    ensures ParseRows(f, Reading(None, None, map[]), Body(text)) == ReadText(f, text)
  {
    hide BufLines, ParseRows;
  }

  /** Rows that are read and have a threshold line leave a threshold. */
  lemma {:induction false} NamedEnds<T>(f: Format<T>, r: Reading<T>, lines: seq<string>)
    requires f.hasThreshold && ParseRows(f, r, lines).Ok? && ParseRows(f, r, lines).value.threshold.None?
    ensures r.threshold.None? && Unnamed(lines, "failure_threshold")
    decreases |lines|
  {
    if lines != [] {
      hide ParseRow, FirstCell, NumberIn, Unnamed, EndsWith;
      NamedEnds(f, ParseRow(f, r, lines[0]).value, lines[1..]);
      NoThresholdLine(f, r, lines[0]);
      LastNumberCons(lines[0], lines[1..], "failure_threshold", 0);
      assert lines == [lines[0]] + lines[1..];
    }
  }

  lemma NoThresholdLine<T>(f: Format<T>, r: Reading<T>, line: string)
    requires f.hasThreshold && ParseRow(f, r, line).Ok? && ParseRow(f, r, line).value.threshold.None?
    ensures r.threshold.None? && FirstCell(line) != "failure_threshold"
  {
    hide ParseRow, FirstCell, NumberIn, LineReads;
    RowReads(f, r, line);
    RowReadsThreshold(f, r, line);
    NumberLineHasNumber(f, line);
  }

  lemma NumberLineHasNumber<T>(f: Format<T>, line: string)
    requires f.hasThreshold && LineReads(f, line)
    ensures FirstCell(line) == "failure_threshold" ==> NumberIn(line).Some?
  {
    hide FirstCell, NumberIn;
  }

  // ----- Round trip -----

  predicate CleanCells(cells: seq<string>) {
    forall i :: 0 <= i < |cells| ==> Clean(cells[i])
  }

  /** The entry is read back from the cells it is printed as. */
  predicate Faithful<T(==)>(f: Format<T>, e: T) {
    CleanCells(f.cells(e)) && f.parse(f.cells(e)) == Ok(e)
  }

  predicate PlainFormat<T>(f: Format<T>) {
    && OneLine(f.header) && Clean(f.row) && f.row !in {"schema_version", "failure_threshold", ""}
    && f.schema <= U32_MAX
  }

  lemma {:induction false} BufLinesTerminated(lines: seq<string>)
    requires forall l :: l in lines ==> OneLine(l)
    ensures BufLines(Terminated(lines)) == lines
  {
    if lines != [] {
      var head, rest := lines[0], Terminated(lines[1..]);
      var text := Terminated(lines);
      assert OneLine(head);
      BufLinesTerminated(lines[1..]);
      FindAfterPiece(head, rest, '\n');
      assert text == head + ['\n'] + rest;
      assert text[..|head|] == head && text[|head| + 1..] == rest;
      assert StripCr(head) == head;
    }
  }

  lemma {:induction false} JoinOneLine(parts: seq<string>)
    requires CleanCells(parts)
    ensures OneLine(Join(parts, "\t"))
  {
    if |parts| > 1 {
      JoinOneLine(parts[1..]);
      assert Clean(parts[0]);
    }
  }

  lemma SplitCells(parts: seq<string>)
    requires parts != [] && CleanCells(parts)
    ensures Split(Join(parts, "\t"), '\t') == parts && OneLine(Join(parts, "\t"))
  {
    assert forall i :: 0 <= i < |parts| ==> Clean(parts[i]);
    SplitJoin(parts, '\t');
    JoinOneLine(parts);
  }

  lemma EntryLineReads<T>(f: Format<T>, r: Reading<T>, e: T)
    requires PlainFormat(f) && Faithful(f, e)
    ensures ParseRow(f, r, EntryLine(f, e)) == Ok(r.(entries := r.entries[f.key(e) := e]))
    ensures OneLine(EntryLine(f, e))
  {
    hide Split, Join, OneLine;
    var parts := [f.row] + f.cells(e);
    SplitCells(parts);
    assert parts[1..] == f.cells(e);
  }

  lemma ParseRowsStep<T>(f: Format<T>, r: Reading<T>, line: string, tail: seq<string>, next: Reading<T>)
    requires ParseRow(f, r, line) == Ok(next)
    ensures ParseRows(f, r, [line] + tail) == ParseRows(f, next, tail)
  {
    hide ParseRow;
    assert ([line] + tail)[1..] == tail;
  }

  function Listed<T>(entries: map<string, T>, order: seq<string>): map<string, T>
    requires forall k :: k in order ==> k in entries
  {
    map k | k in order :: entries[k]
  }

  lemma ListedStep<T>(m: map<string, T>, entries: map<string, T>, order: seq<string>)
    requires order != [] && forall k :: k in order ==> k in entries
    ensures m[order[0] := entries[order[0]]] + Listed(entries, order[1..]) == m + Listed(entries, order)
  {
    assert forall k :: k in order <==> k == order[0] || k in order[1..];
  }

  lemma {:induction false} EntryLinesRead<T>(f: Format<T>, r: Reading<T>, entries: map<string, T>, order: seq<string>)
    requires PlainFormat(f) && forall k :: k in order ==> k in entries
    requires Filed(f, entries) && forall k :: k in entries ==> Faithful(f, entries[k])
    ensures ParseRows(f, r, EntryLines(f, entries, order)) == Ok(r.(entries := r.entries + Listed(entries, order)))
    ensures forall l :: l in EntryLines(f, entries, order) ==> OneLine(l)
    decreases |order|
  {
    if order == [] {
      assert r.entries + Listed(entries, order) == r.entries;
    } else {
      hide EntryLine, ParseRow, ParseRows, Listed, OneLine, PlainFormat, Faithful;
      var e := entries[order[0]];
      assert order[0] in order;
      EntryLineReads(f, r, e);
      var next := r.(entries := r.entries[f.key(e) := e]);
      EntryLinesRead(f, next, entries, order[1..]);
      ListedStep(r.entries, entries, order);
      ParseRowsStep(f, r, EntryLine(f, e), EntryLines(f, entries, order[1..]), next);
    }
  }

  lemma NumberLineReads<T>(f: Format<T>, r: Reading<T>, name: string, n: nat)
    requires n <= U32_MAX && (name == "schema_version" || (name == "failure_threshold" && f.hasThreshold))
    ensures OneLine(NumberLine(name, n))
    ensures ParseRow(f, r, NumberLine(name, n)) ==
            Ok(if name == "schema_version" then r.(schema := Some(n)) else r.(threshold := Some(n)))
  {
    var parts := [name, Dec(n)];
    assert Clean(name) && Clean(Dec(n));
    hide Dec, Split, Join, ParseUnsigned, OneLine;
    SplitCells(parts);
    ParseDec(n, U32_MAX);
  }

  /** Writing a store and reading it back gives the same entries and threshold, in
      whatever order the entries are written, if each entry is read back from its
      own cells. */
  lemma StoreRoundTrip<T>(f: Format<T>, threshold: nat, entries: map<string, T>, order: seq<string>)
    requires PlainFormat(f) && threshold <= U32_MAX && Lists(order, entries.Keys)
    requires Filed(f, entries) && forall k :: k in entries ==> Faithful(f, entries[k])
    ensures ReadText(f, StoreText(f, threshold, entries, order)) ==
            Ok(Reading(Some(f.schema), if f.hasThreshold then Some(threshold) else None, entries))
  {
    hide ParseRow, NumberLine, BufLines, Terminated, EntryLines, OneLine, Faithful;
    var none := Reading(None, None, map[]);
    var r1 := none.(schema := Some(f.schema));
    var r2 := if f.hasThreshold then r1.(threshold := Some(threshold)) else r1;
    NumberLineReads(f, none, "schema_version", f.schema);
    EntryLinesRead(f, r2, entries, order);
    var body := EntryLines(f, entries, order);
    var lines := Lines(f, threshold, entries, order);
    var middle := if f.hasThreshold then [NumberLine("failure_threshold", threshold)] else [];
    if f.hasThreshold {
      NumberLineReads(f, r1, "failure_threshold", threshold);
      ParseRowsStep(f, r1, NumberLine("failure_threshold", threshold), body, r2);
    } else {
      assert middle + body == body;
    }
    ParseRowsStep(f, none, NumberLine("schema_version", f.schema), middle + body, r1);
    BufLinesTerminated(lines);
    assert lines[1..] == [NumberLine("schema_version", f.schema)] + (middle + body);
    assert map[] + Listed(entries, order) == entries;
  }

  // ----- The layout of a written store -----

  lemma {:induction false} EntryLinesAt<T>(f: Format<T>, entries: map<string, T>, order: seq<string>)
    requires forall k :: k in order ==> k in entries && CleanCells([f.row] + f.cells(entries[k]))
    ensures |EntryLines(f, entries, order)| == |order|
    ensures forall i :: 0 <= i < |order| ==>
              Split(EntryLines(f, entries, order)[i], '\t') == [f.row] + f.cells(entries[order[i]])
    ensures forall l :: l in EntryLines(f, entries, order) ==> OneLine(l)
  {
    if order != [] {
      hide Split, Join, OneLine, CleanCells;
      assert order[0] in order;
      var parts := [f.row] + f.cells(entries[order[0]]);
      SplitCells(parts);
      EntryLinesAt(f, entries, order[1..]);
      var lines, rest := EntryLines(f, entries, order), EntryLines(f, entries, order[1..]);
      assert lines == [Join(parts, "\t")] + rest;
      assert forall i :: 0 < i < |order| ==> lines[i] == rest[i - 1] && order[i] == order[1..][i - 1];
    }
  }

  /** The lines of a written store: the header, the schema, the threshold if the format
      has one, and one line per entry in the given order, which splits into the row's
      name and the entry's cells. */
  lemma StoreLayout<T>(f: Format<T>, threshold: nat, entries: map<string, T>, order: seq<string>)
    requires PlainFormat(f) && forall k :: k in order ==> k in entries && CleanCells(f.cells(entries[k]))
    ensures
      var lines, h := BufLines(StoreText(f, threshold, entries, order)), if f.hasThreshold then 3 else 2;
      && |lines| == h + |order|
      && lines[0] == f.header && lines[1] == "schema_version" + "\t" + Dec(f.schema)
      && (f.hasThreshold ==> lines[2] == "failure_threshold" + "\t" + Dec(threshold))
      && forall i :: 0 <= i < |order| ==> Split(lines[h + i], '\t') == [f.row] + f.cells(entries[order[i]])
  {
    RowsAreClean(f, entries, order);
    hide PlainFormat, BufLines, StoreText, EntryLines, CleanCells, Split, Dec, NumberLine, Lines;
    EntryLinesAt(f, entries, order);
    LinesReadBack(f, threshold, entries, order);
    LinesOf(f, threshold, entries, order);
  }

  lemma LinesOf<T>(f: Format<T>, threshold: nat, entries: map<string, T>, order: seq<string>)
    requires forall k :: k in order ==> k in entries
    requires |EntryLines(f, entries, order)| == |order|
    ensures
      var lines, rows := Lines(f, threshold, entries, order), EntryLines(f, entries, order);
      var h := if f.hasThreshold then 3 else 2;
      && |lines| == h + |order|
      && lines[0] == f.header && lines[1] == "schema_version" + "\t" + Dec(f.schema)
      && (f.hasThreshold ==> lines[2] == "failure_threshold" + "\t" + Dec(threshold))
      && forall i :: 0 <= i < |order| ==> lines[h + i] == rows[i]
  {
    hide EntryLines, Dec, NumberLine;
    NumberLineIs("schema_version", f.schema);
    NumberLineIs("failure_threshold", threshold);
  }

  lemma LinesReadBack<T>(f: Format<T>, threshold: nat, entries: map<string, T>, order: seq<string>)
    requires PlainFormat(f) && forall k :: k in order ==> k in entries && CleanCells([f.row] + f.cells(entries[k]))
    ensures BufLines(StoreText(f, threshold, entries, order)) == Lines(f, threshold, entries, order)
  {
    EntryLinesAt(f, entries, order);
    hide BufLines, Terminated, EntryLines, OneLine, CleanCells, Split, NumberLine;
    NumberLineIs("schema_version", f.schema);
    NumberLineIs("failure_threshold", threshold);
    BufLinesTerminated(Lines(f, threshold, entries, order));
  }

  lemma RowsAreClean<T>(f: Format<T>, entries: map<string, T>, order: seq<string>)
    requires PlainFormat(f) && forall k :: k in order ==> k in entries && CleanCells(f.cells(entries[k]))
    ensures forall k :: k in order ==> CleanCells([f.row] + f.cells(entries[k]))
  {
    hide Clean;
  }

  lemma NumberLineIs(name: string, n: nat)
    requires name == "schema_version" || name == "failure_threshold"
    ensures NumberLine(name, n) == name + "\t" + Dec(n) && OneLine(NumberLine(name, n))
  {
    assert Clean(name) && Clean(Dec(n));
    hide Dec;
    assert [name, Dec(n)][1..] == [Dec(n)];
    assert Join([name, Dec(n)], "\t") == name + "\t" + Join([Dec(n)], "\t");
    assert OneLine("\t");
  }
}
