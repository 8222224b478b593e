// Recognizing one candidate: a screenshot in one call, a PDF page by page with a
// poll in front of every page.
module OcrRecognition {
  import opened Text
  import opened Control

  datatype Status = Recognized | Empty | Missing | Unsupported | Failed | Unavailable {
    function Name(): string {
      match this
      case Recognized => "recognized"
      case Empty => "empty"
      case Missing => "missing"
      case Unsupported => "unsupported"
      case Failed => "failed"
      case Unavailable => "unavailable"
    }
  }

  datatype Report = Report(text: string, lines: seq<string>, status: Status, reason: Option<string>)

  function MissingReport(message: string): Report {
    Report("", [], Missing, Some(message))
  }

  /** A rasterization: `pages` holds what recognizing each page would report. Its
      status uses `Recognized` for an available rasterization. */
  datatype Raster = Raster(status: Status, reason: Option<string>, pages: seq<Report>)

  function NotRasterized(r: Raster): Report {
    Report("", [], r.status, Some(if r.reason.Some? then r.reason.value else RasterName(r.status)))
  }

  function RasterName(s: Status): string {
    if s == Recognized then "available" else s.Name()
  }

  const CANCELLED_TEXT: string := "operation was cancelled"

  /** What a PDF cut short by cancellation reports: a failure like any other. */
  const CUT_SHORT: Report := Report("", [], Failed, Some(CANCELLED_TEXT))

  const NO_TEXT: Report := Report("", [], Empty, Some("Vision returned no text for rasterized PDF pages"))

  // ----- The plain form -----

  /** The lines of the recognized pages, in page order. */
  function RecognizedLines(pages: seq<Report>): seq<string> {
    if pages == [] then []
    else (if pages[0].status == Recognized then pages[0].lines else []) + RecognizedLines(pages[1..])
  }

  /** The first page that is neither recognized nor empty. */
  function FirstFailure(pages: seq<Report>): Option<Report> {
    if pages == [] then None
    else if pages[0].status != Recognized && pages[0].status != Empty then Some(pages[0])
    else FirstFailure(pages[1..])
  }

  function PdfReport(pages: seq<Report>): Report {
    var lines := RecognizedLines(pages);
    if lines != [] then Report(Join(lines, "\n"), lines, Recognized, None)
    else if FirstFailure(pages).Some? then FirstFailure(pages).value
    else NO_TEXT
  }

  function RasterReport(r: Raster): Report {
    if r.status != Recognized then NotRasterized(r) else PdfReport(r.pages)
  }

  function PagesPolled(r: Raster): nat {
    if r.status != Recognized then 0 else |r.pages|
  }

  // ----- The page loop -----

  class RenderDirectory {
    var present: bool
    constructor ()
      ensures !present
    {
      present := false;
    }
  }

  lemma {:induction false} PagesSnoc(pages: seq<Report>, p: Report)
    ensures RecognizedLines(pages + [p]) ==
            RecognizedLines(pages) + (if p.status == Recognized then p.lines else [])
    ensures FirstFailure(pages + [p]) ==
            if FirstFailure(pages).Some? then FirstFailure(pages)
            else if p.status != Recognized && p.status != Empty then Some(p) else None
  {
    if pages == [] {
      assert [p][1..] == [];
    } else {
      assert (pages + [p])[1..] == pages[1..] + [p];
      PagesSnoc(pages[1..], p);
    }
  }

  /** No page is recognized after a failed poll, the report is the plain form of
      the pages unless a poll failed, and the render directory is gone at every exit. */
  method RecognizePdf(r: Raster, c: Cancellation, dir: RenderDirectory) returns (report: Report, recognized: nat)
    requires (c as object) != dir
    modifies c, dir
    ensures !dir.present
    ensures Passes(old(c.polls), PagesPolled(r), c.cancelAt) ==>
              report == RasterReport(r) && recognized == PagesPolled(r) && c.polls == old(c.polls) + PagesPolled(r)
    ensures !Passes(old(c.polls), PagesPolled(r), c.cancelAt) ==>
              report == CUT_SHORT && c.polls > c.cancelAt
              && recognized == if old(c.polls) < c.cancelAt then c.cancelAt - old(c.polls) else 0
  {
    dir.present := true;
    recognized := 0;
    if r.status != Recognized {
      dir.present := false;
      return NotRasterized(r), 0;
    }
    var lines := [];
    var failure := None;
    while recognized < |r.pages|
      invariant recognized <= |r.pages|
      invariant dir.present && c.polls == old(c.polls) + recognized
      invariant Passes(old(c.polls), recognized, c.cancelAt)
      invariant lines == RecognizedLines(r.pages[..recognized])
      invariant failure == FirstFailure(r.pages[..recognized])
    {
      var ok := c.Check();
      if !ok {
        dir.present := false;
        return CUT_SHORT, recognized;
      }
      var page := r.pages[recognized];
      PagesSnoc(r.pages[..recognized], page);
      assert r.pages[..recognized] + [page] == r.pages[..recognized + 1];
      if page.status == Recognized {
        lines := lines + page.lines;
      } else if failure.None? && page.status != Empty {
        failure := Some(page);
      }
      recognized := recognized + 1;
    }
    dir.present := false;
    assert r.pages[..recognized] == r.pages;
    if lines != [] {
      report := Report(Join(lines, "\n"), lines, Recognized, None);
    } else {
      report := if failure.Some? then failure.value else NO_TEXT;
    }
  }

  // ----- What the plain form promises -----

  /** A PDF is recognized exactly when some recognized page has a line. */
  lemma {:induction false} RecognizedIffSomeLine(pages: seq<Report>)
    ensures RecognizedLines(pages) != [] <==>
            exists i :: 0 <= i < |pages| && pages[i].status == Recognized && pages[i].lines != []
  {
    if pages != [] {
      RecognizedIffSomeLine(pages[1..]);
      if exists i :: 0 <= i < |pages| && pages[i].status == Recognized && pages[i].lines != [] {
        var i :| 0 <= i < |pages| && pages[i].status == Recognized && pages[i].lines != [];
        if i > 0 {
          assert pages[1..][i - 1] == pages[i];
        }
      }
      if RecognizedLines(pages[1..]) != [] {
        var j :| 0 <= j < |pages[1..]| && pages[1..][j].status == Recognized && pages[1..][j].lines != [];
        assert pages[j + 1].status == Recognized && pages[j + 1].lines != [];
      }
    }
  }

  lemma PdfReportStatus(pages: seq<Report>)
    ensures PdfReport(pages).status == Recognized <==>
            exists i :: 0 <= i < |pages| && pages[i].status == Recognized && pages[i].lines != []
  {
    RecognizedIffSomeLine(pages);
    FirstFailureIsFirst(pages);
  }

  lemma {:induction false} FirstFailureIsFirst(pages: seq<Report>)
    ensures FirstFailure(pages).Some? ==> FirstFailure(pages).value.status !in {Recognized, Empty}
    ensures FirstFailure(pages).Some? ==>
              exists i :: 0 <= i < |pages| && pages[i] == FirstFailure(pages).value
                && forall j :: 0 <= j < i ==> pages[j].status in {Recognized, Empty}
    ensures FirstFailure(pages).None? ==> forall i :: 0 <= i < |pages| ==> pages[i].status in {Recognized, Empty}
  {
    if pages != [] && pages[0].status in {Recognized, Empty} {
      FirstFailureIsFirst(pages[1..]);
      if FirstFailure(pages).Some? {
        var i :| 0 <= i < |pages[1..]| && pages[1..][i] == FirstFailure(pages).value
          && forall j :: 0 <= j < i ==> pages[1..][j].status in {Recognized, Empty};
        assert pages[i + 1] == FirstFailure(pages).value;
        forall j | 0 <= j < i + 1 ensures pages[j].status in {Recognized, Empty} {
          if j > 0 {
            assert pages[1..][j - 1] == pages[j];
          }
        }
      } else {
        forall i | 0 <= i < |pages| ensures pages[i].status in {Recognized, Empty} {
          if i > 0 {
            assert pages[1..][i - 1] == pages[i];
          }
        }
      }
    }
  }

  // ----- The text that is cached -----

  predicate HasLine(p: Report) { p.status == Recognized && p.lines != [] }

  /** How many lines the recognized pages before `i` have. */
  function LinesBefore(pages: seq<Report>, i: nat): nat
    requires i <= |pages|
  {
    if i == 0 then 0
    else LinesBefore(pages, i - 1) + if pages[i - 1].status == Recognized then |pages[i - 1].lines| else 0
  }

  /** `part` stands in `s` at position `at`. */
  predicate Holds<T(==)>(s: seq<T>, at: nat, part: seq<T>) {
    at + |part| <= |s| && s[at..at + |part|] == part
  }

  lemma HoldsLeft<T>(a: seq<T>, b: seq<T>, at: nat, part: seq<T>)
    requires Holds(a, at, part)
    ensures Holds(a + b, at, part)
  {
    assert (a + b)[at..at + |part|] == a[at..at + |part|];
  }

  lemma HoldsRight<T>(a: seq<T>, b: seq<T>, at: nat, part: seq<T>)
    requires Holds(b, at, part)
    ensures Holds(a + b, |a| + at, part)
  {
    assert (a + b)[|a| + at..|a| + at + |part|] == b[at..at + |part|];
  }

  lemma HoldsEnd<T>(a: seq<T>, b: seq<T>)
    ensures Holds(a + b, |a|, b) && Holds(a + b, 0, a)
  {
    assert (a + b)[|a|..|a| + |b|] == b && (a + b)[0..|a|] == a;
  }

  /** The lines are those of the recognized pages in page order: as many as they have
      together, and those of page `i` at its place. */
  predicate InPageOrder(lines: seq<string>, pages: seq<Report>) {
    && |lines| == LinesBefore(pages, |pages|)
    && forall i :: 0 <= i < |pages| && pages[i].status == Recognized ==>
         Holds(lines, LinesBefore(pages, i), pages[i].lines)
  }

  lemma {:induction false} LinesOfPrefix(pages: seq<Report>, p: Report, i: nat)
    requires i <= |pages|
    ensures LinesBefore(pages + [p], i) == LinesBefore(pages, i)
  {
    if i > 0 {
      LinesOfPrefix(pages, p, i - 1);
    }
  }

  lemma {:induction false} RecognizedLinesInOrder(pages: seq<Report>)
    ensures InPageOrder(RecognizedLines(pages), pages)
  {
    if pages != [] {
      var front, last := pages[..|pages| - 1], pages[|pages| - 1];
      RecognizedLinesInOrder(front);
      PagesSnoc(front, last);
      assert pages == front + [last];
      var before, more := RecognizedLines(front), if last.status == Recognized then last.lines else [];
      LinesOfPrefix(front, last, |front|);
      hide RecognizedLines, Holds;
      forall i | 0 <= i < |pages| && pages[i].status == Recognized
        ensures Holds(before + more, LinesBefore(pages, i), pages[i].lines)
      {
        LinesOfPrefix(front, last, i);
        if i < |front| {
          assert pages[i] == front[i];
          HoldsLeft(before, more, LinesBefore(front, i), front[i].lines);
        } else {
          HoldsEnd(before, more);
        }
      }
    }
  }

  /** Where line `k` of a joined text begins. */
  function LineStart(lines: seq<string>, k: nat): nat
    requires k <= |lines|
  {
    if k == 0 then 0 else LineStart(lines, k - 1) + |lines[k - 1]| + 1
  }

  lemma {:induction false} StartsShift(lines: seq<string>, k: nat)
    requires 0 < k <= |lines|
    ensures LineStart(lines, k) == |lines[0]| + 1 + LineStart(lines[1..], k - 1)
  {
    if k > 1 {
      StartsShift(lines, k - 1);
    }
  }

  /** Line `k` stands at its place, behind a line feed unless it is the first. */
  predicate LineStands(text: string, lines: seq<string>, k: nat)
    requires k < |lines|
  {
    && Holds(text, LineStart(lines, k), lines[k])
    && (k > 0 ==> LineStart(lines, k) > 0 && Holds(text, LineStart(lines, k) - 1, "\n"))
  }

  /** The text holds the lines one after the other with a line feed between them, and
      nothing else. */
  predicate LaidOut(text: string, lines: seq<string>) {
    && |text| + 1 == LineStart(lines, |lines|)
    && forall k :: 0 <= k < |lines| ==> LineStands(text, lines, k)
  }

  lemma {:induction false} JoinLaysOut(lines: seq<string>)
    requires lines != []
    ensures LaidOut(Join(lines, "\n"), lines)
  {
    if |lines| == 1 {
      HoldsEnd(lines[0], []);
      assert lines[0] + [] == lines[0];
    } else {
      JoinLaysOut(lines[1..]);
      LayOutCons(lines[0], lines[1..], Join(lines[1..], "\n"));
      assert [lines[0]] + lines[1..] == lines;
    }
  }

  /** The place of line `k` when one line is put in front. */
  lemma StartAfter(first: string, rest: seq<string>, k: nat)
    requires 0 < k <= |rest| + 1
    ensures LineStart([first] + rest, k) == |first| + 1 + LineStart(rest, k - 1)
  {
    StartsShift([first] + rest, k);
    assert ([first] + rest)[1..] == rest;
  }

  /** The line feed in front of a place at which a line of `text` begins. */
  lemma FeedBefore(first: string, text: string, start: nat)
    requires start == 0 || Holds(text, start - 1, "\n")
    ensures Holds(first + "\n" + text, |first| + start, "\n")
  {
    var head := first + "\n";
    if start > 0 {
      hide Holds;
      HoldsRight(head, text, start - 1, "\n");
    } else {
      HoldsEnd(first, "\n");
      hide Holds;
      HoldsLeft(head, text, |first|, "\n");
    }
  }

  lemma LineStandsAfter(first: string, rest: seq<string>, text: string, k: nat)
    requires LaidOut(text, rest) && k <= |rest|
    ensures LineStands(first + "\n" + text, [first] + rest, k)
  {
    if k == 0 {
      HoldsEnd(first, "\n" + text);
      assert first + ("\n" + text) == first + "\n" + text;
    } else {
      assert LineStands(text, rest, k - 1);
      var start := LineStart(rest, k - 1);
      assert k == 1 ==> start == 0;
      StartAfter(first, rest, k);
      hide Holds, LineStart, LaidOut;
      FeedBefore(first, text, start);
      HoldsRight(first + "\n", text, start, rest[k - 1]);
      assert ([first] + rest)[k] == rest[k - 1];
    }
  }

  lemma LayOutCons(first: string, rest: seq<string>, text: string)
    requires rest != [] && LaidOut(text, rest)
    ensures LaidOut(first + "\n" + text, [first] + rest)
  {
    hide LineStart, LineStands, Holds;
    StartAfter(first, rest, |rest| + 1);
    forall k | 0 <= k <= |rest| ensures LineStands(first + "\n" + text, [first] + rest, k) {
      LineStandsAfter(first, rest, text, k);
    }
  }

  /** What a PDF with a line on some recognized page is reported as: recognized, with
      exactly the lines of its recognized pages in page order, and with a text that
      lays them out and splits back into them if none holds a line feed. */
  lemma RecognizedText(pages: seq<Report>)
    requires exists i :: 0 <= i < |pages| && HasLine(pages[i])
    ensures var r := PdfReport(pages);
            && r.status == Recognized && r.reason == None
            && InPageOrder(r.lines, pages) && LaidOut(r.text, r.lines)
            && ((forall l :: l in r.lines ==> Absent(l, '\n')) ==> Split(r.text, '\n') == r.lines)
  {
    RecognizedIffSomeLine(pages);
    RecognizedLinesInOrder(pages);
    var lines := RecognizedLines(pages);
    JoinLaysOut(lines);
    if forall l :: l in lines ==> Absent(l, '\n') {
      SplitJoin(lines, '\n');
    }
  }

  /** And one without: as its first page that is neither recognized nor empty, or else
      as empty with no text. */
  lemma UnrecognizedReport(pages: seq<Report>)
    requires !exists i :: 0 <= i < |pages| && HasLine(pages[i])
    ensures var r := PdfReport(pages);
            || (exists i :: 0 <= i < |pages| && r == pages[i] && pages[i].status !in {Recognized, Empty}
                            && forall j :: 0 <= j < i ==> pages[j].status in {Recognized, Empty})
            || ((forall i :: 0 <= i < |pages| ==> pages[i].status in {Recognized, Empty})
                && r == Report("", [], Empty, Some("Vision returned no text for rasterized PDF pages")))
  {
    RecognizedIffSomeLine(pages);
    FirstFailureIsFirst(pages);
  }

  /** A rasterization that is not available is reported with its own status and
      reason, and a recognition cut short by the token as a failure without text. */
  lemma WithoutPages(r: Raster)
    ensures r.status != Recognized ==>
              && RasterReport(r).status == r.status && RasterReport(r).text == "" && RasterReport(r).lines == []
              && (r.reason.Some? ==> RasterReport(r).reason == r.reason)
              && (r.reason.None? ==> RasterReport(r).reason == Some(r.status.Name()))
    ensures r.status == Recognized ==> RasterReport(r) == PdfReport(r.pages)
    ensures CUT_SHORT == Report("", [], Failed, Some("operation was cancelled"))
  {
  }

  /** What recognizing a PDF reports when every poll passes, from its rasterization. */
  ghost predicate PdfOutcome(raster: Raster, r: Report) {
    var pages := raster.pages;
    if raster.status != Recognized then
      r.status == raster.status
      && r.reason == Some(if raster.reason.Some? then raster.reason.value else raster.status.Name())
    else if exists i :: 0 <= i < |pages| && HasLine(pages[i]) then
      r.status == Recognized && InPageOrder(r.lines, pages) && LaidOut(r.text, r.lines)
    else
      || (exists i :: 0 <= i < |pages| && r == pages[i] && pages[i].status !in {Recognized, Empty}
                      && forall j :: 0 <= j < i ==> pages[j].status in {Recognized, Empty})
      || ((forall i :: 0 <= i < |pages| ==> pages[i].status in {Recognized, Empty})
          && r.status == Empty && r.reason == Some("Vision returned no text for rasterized PDF pages"))
  }

  lemma RasterReportIs(raster: Raster)
    ensures PdfOutcome(raster, RasterReport(raster))
  {
    hide PdfReport, InPageOrder, LaidOut;
    WithoutPages(raster);
    if raster.status == Recognized {
      if exists i :: 0 <= i < |raster.pages| && HasLine(raster.pages[i]) {
        RecognizedText(raster.pages);
      } else {
        UnrecognizedReport(raster.pages);
      }
    }
  }
}
