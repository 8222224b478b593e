// The sandbox profile of the extraction worker: the text that is written, a
// reader of that text, and what the rules it holds decide.
module Sandbox {
  import opened Text

  datatype ReadMode = Ambient | Strict

  // ----- The profile as text -----

  function SandboxEscape(path: string): string {
    Replace(Replace(path, '\\', "\\\\"), '"', "\\\"")
  }

  /** `(verb operation)` and a line end, followed by the rest of the profile. */
  function BareLine(verb: string, operation: string, rest: string): string {
    "(" + (verb + (" " + (operation + (")" + ("\n" + rest)))))
  }

  /** `(allow operation (kind "path"))` and a line end, followed by the rest. */
  function AllowLine(operation: string, kind: string, path: string, rest: string): string {
    "(" + ("allow" + (" " + (operation + (" " + FilterText(kind, path, ")" + ("\n" + rest))))))
  }

  function FilterText(kind: string, path: string, rest: string): string {
    "(" + (kind + (" " + (Quoted(path) + (")" + rest))))
  }

  function Quoted(path: string): string {
    "\"" + SandboxEscape(path) + "\""
  }

  const DEVICES: seq<string> := ["/dev/null", "/dev/random", "/dev/urandom"]
  const SYSTEM_ROOTS: seq<string> :=
    ["/usr/lib", "/usr/share", "/System/Library", "/System/Volumes/Preboot/Cryptexes", "/Library/Apple",
     "/private/var/db"]

  function ReadLines(kind: string, paths: seq<string>, rest: string): string {
    if paths == [] then rest
    else AllowLine("file-read*", kind, paths[0], ReadLines(kind, paths[1..], rest))
  }

  function StrictReadText(exe: string, input: string, stateDir: string, rest: string): string {
    BareLine("deny", "file-read*",
             AllowLine("file-read*", "literal", exe,
                       AllowLine("file-read*", "literal", input,
                                 AllowLine("file-read*", "subpath", stateDir,
                                           ReadLines("literal", DEVICES, ReadLines("subpath", SYSTEM_ROOTS, rest))))))
  }

  function WriteText(stdout: string, stderr: string, stateDir: string): string {
    BareLine("deny", "file-write*",
             AllowLine("file-write-data", "literal", stdout,
                       AllowLine("file-write-data", "literal", stderr,
                                 AllowLine("file-write*", "subpath", stateDir, ""))))
  }

  function Profile(exe: string, input: string, stdout: string, stderr: string, stateDir: string,
                   mode: ReadMode): string {
    var writes := WriteText(stdout, stderr, stateDir);
    BareLine("version", "1",
             BareLine("allow", "default",
                      BareLine("deny", "network*",
                               if mode == Strict then StrictReadText(exe, input, stateDir, writes) else writes)))
  }

  // ----- Reading a profile -----

  datatype Tok = Open | Close | Atom(text: string) | Str(text: string) | Bad

  predicate Delimiter(c: char) {
    c == ' ' || c == '\n' || c == '(' || c == ')' || c == '"'
  }

  function AtomLength(s: string): (n: nat)
    ensures n <= |s|
  {
    if s == [] || Delimiter(s[0]) then 0 else AtomLength(s[1..]) + 1
  }

  /** The length of a quoted body up to its closing quote. */
  function QuotedLength(s: string): (n: Option<nat>)
    ensures n.Some? ==> n.value < |s| && s[n.value] == '"'
  {
    if s == [] then None
    else if s[0] == '"' then Some(0)
    else
      var skip := if s[0] == '\\' && |s| >= 2 then 2 else 1;
      match QuotedLength(s[skip..])
      case None => None
      case Some(n) => Some(n + skip)
  }

  function Unquote(s: string): string {
    if s == [] then []
    else if s[0] == '\\' && |s| >= 2 then [s[1]] + Unquote(s[2..])
    else [s[0]] + Unquote(s[1..])
  }

  /** The tokens of a text; an unterminated quote reads as `Bad`. */
  function Lex(s: string): seq<Tok>
    decreases |s|
  {
    if s == [] then []
    else if s[0] == ' ' || s[0] == '\n' then Lex(s[1..])
    else if s[0] == '(' then [Open] + Lex(s[1..])
    else if s[0] == ')' then [Close] + Lex(s[1..])
    else if s[0] == '"' then
      match QuotedLength(s[1..])
      case None => [Bad]
      case Some(n) => [Str(Unquote(s[1..n + 1]))] + Lex(s[n + 2..])
    else
      var n := AtomLength(s);
      [Atom(s[..n])] + Lex(s[n..])
  }

  datatype Filter = Everything | Literal(path: string) | Subpath(path: string)

  datatype Rule = Rule(allow: bool, operation: string, filter: Filter)

  function ReadFilter(kind: string, path: string): Option<Filter> {
    if kind == "literal" then Some(Literal(path))
    else if kind == "subpath" then Some(Subpath(path))
    else None
  }

  /** Reads `(allow op)`, `(deny op)` and their forms with one path filter. */
  function ReadRule(t: seq<Tok>): Option<(Rule, nat)>
    ensures ReadRule(t).Some? ==> 4 <= ReadRule(t).value.1 <= |t|
  {
    if |t| < 4 || t[0] != Open || !t[1].Atom? || !t[2].Atom? || t[1].text !in {"allow", "deny"} then None
    else if t[3] == Close then Some((Rule(t[1].text == "allow", t[2].text, Everything), 4))
    else if |t| < 8 || t[3] != Open || !t[4].Atom? || !t[5].Str? || t[6] != Close || t[7] != Close then None
    else
      match ReadFilter(t[4].text, t[5].text)
      case None => None
      case Some(filter) => Some((Rule(t[1].text == "allow", t[2].text, filter), 8))
  }

  function ReadRules(t: seq<Tok>): Option<seq<Rule>>
    decreases |t|
  {
    if t == [] then Some([])
    else
      match ReadRule(t)
      case None => None
      case Some((rule, width)) =>
        match ReadRules(t[width..])
        case None => None
        case Some(rest) => Some([rule] + rest)
  }

  function ReadProfile(text: string): Option<seq<Rule>> {
    var t := Lex(text);
    if |t| >= 4 && t[..4] == [Open, Atom("version"), Atom("1"), Close] then ReadRules(t[4..]) else None
  }

  // ----- Lexing what was printed -----

  function EscapeQuotedChar(c: char): string {
    if c == '\\' then "\\\\" else if c == '"' then "\\\"" else [c]
  }

  function EscapeQuotedEach(s: string): string {
    if s == [] then [] else EscapeQuotedChar(s[0]) + EscapeQuotedEach(s[1..])
  }

  lemma {:induction false} SandboxEscapeIsOnePass(s: string)
    ensures SandboxEscape(s) == EscapeQuotedEach(s)
  {
    if s != [] {
      assert s == [s[0]] + s[1..];
      ReplaceConcat([s[0]], s[1..], '\\', "\\\\");
      ReplaceConcat(Replace([s[0]], '\\', "\\\\"), Replace(s[1..], '\\', "\\\\"), '"', "\\\"");
      ReplaceShort([s[0]], '\\', "\\\\");
      ReplaceShort(Replace([s[0]], '\\', "\\\\"), '"', "\\\"");
      SandboxEscapeIsOnePass(s[1..]);
    }
  }

  /** One escaped character never ends a quoted body, whatever follows it. */
  lemma QuotedStep(c: char, more: string)
    ensures QuotedLength(EscapeQuotedChar(c) + more) ==
            match QuotedLength(more) { case None => None case Some(n) => Some(n + |EscapeQuotedChar(c)|) }
    ensures Unquote(EscapeQuotedChar(c) + more) == [c] + Unquote(more)
  {
    var head := EscapeQuotedChar(c);
    assert (head + more)[|head|..] == more;
    assert (head + more)[0] == head[0];
  }

  lemma QuotedBodyStep(c: char, tail: string, end: string)
    requires QuotedLength(tail + end) == Some(|tail|)
    ensures QuotedLength(EscapeQuotedChar(c) + tail + end) == Some(|EscapeQuotedChar(c)| + |tail|)
  {
    hide QuotedLength;
    QuotedStep(c, tail + end);
    assert EscapeQuotedChar(c) + tail + end == EscapeQuotedChar(c) + (tail + end);
  }

  lemma {:induction false} QuotedBodyLength(path: string, rest: string)
    ensures QuotedLength(EscapeQuotedEach(path) + (['"'] + rest)) == Some(|EscapeQuotedEach(path)|)
  {
    if path == [] {
      assert EscapeQuotedEach(path) + (['"'] + rest) == ['"'] + rest;
    } else {
      QuotedBodyLength(path[1..], rest);
      QuotedBodyStep(path[0], EscapeQuotedEach(path[1..]), ['"'] + rest);
    }
  }

  lemma {:induction false} UnquoteEach(path: string)
    ensures Unquote(EscapeQuotedEach(path)) == path
  {
    if path != [] {
      UnquoteEach(path[1..]);
      QuotedStep(path[0], EscapeQuotedEach(path[1..]));
    }
  }

  predicate PlainAtom(s: string) {
    s != [] && forall i :: 0 <= i < |s| ==> !Delimiter(s[i])
  }

  lemma {:induction false} AtomLengthStops(atom: string, rest: string)
    requires forall i :: 0 <= i < |atom| ==> !Delimiter(atom[i])
    requires rest != [] && Delimiter(rest[0])
    ensures AtomLength(atom + rest) == |atom|
  {
    if atom == [] {
      assert atom + rest == rest;
    } else {
      assert (atom + rest)[1..] == atom[1..] + rest;
      AtomLengthStops(atom[1..], rest);
    }
  }

  lemma LexAtom(atom: string, rest: string)
    requires PlainAtom(atom)
    requires rest != [] && Delimiter(rest[0])
    ensures Lex(atom + rest) == [Atom(atom)] + Lex(rest)
  {
    AtomLengthStops(atom, rest);
    assert (atom + rest)[..|atom|] == atom;
    assert (atom + rest)[|atom|..] == rest;
    assert (atom + rest)[0] == atom[0];
  }

  lemma LexMarks(rest: string)
    ensures Lex("(" + rest) == [Open] + Lex(rest)
    ensures Lex(")" + rest) == [Close] + Lex(rest)
    ensures Lex(" " + rest) == Lex(rest)
    ensures Lex("\n" + rest) == Lex(rest)
  {
    assert ("(" + rest)[1..] == rest;
    assert (")" + rest)[1..] == rest;
    assert (" " + rest)[1..] == rest;
    assert ("\n" + rest)[1..] == rest;
  }

  lemma LexQuoted(path: string, rest: string)
    ensures Lex(Quoted(path) + rest) == [Str(path)] + Lex(rest)
  {
    hide SandboxEscape, EscapeQuotedEach, QuotedLength, Unquote;
    SandboxEscapeIsOnePass(path);
    QuotedBodyLength(path, rest);
    UnquoteEach(path);
    var e := EscapeQuotedEach(path);
    var s := Quoted(path) + rest;
    assert s[1..] == e + (['"'] + rest);
    assert s[1..|e| + 1] == e;
    assert s[|e| + 2..] == rest;
  }

  lemma LexFilter(kind: string, path: string, rest: string)
    requires PlainAtom(kind)
    ensures Lex(FilterText(kind, path, rest)) == [Open, Atom(kind), Str(path), Close] + Lex(rest)
  {
    hide Lex;
    LexMarks(rest);
    LexQuoted(path, ")" + rest);
    var q := Quoted(path) + (")" + rest);
    LexMarks(q);
    LexAtom(kind, " " + q);
    LexMarks(kind + (" " + q));
  }

  /** The common head of a rule line, up to what follows the operation. */
  lemma LexHead(verb: string, operation: string, rest: string)
    requires PlainAtom(verb) && PlainAtom(operation)
    requires rest != [] && Delimiter(rest[0])
    ensures Lex("(" + (verb + (" " + (operation + rest)))) == [Open, Atom(verb), Atom(operation)] + Lex(rest)
  {
    hide Lex;
    LexAtom(operation, rest);
    LexMarks(operation + rest);
    LexAtom(verb, " " + (operation + rest));
    LexMarks(verb + (" " + (operation + rest)));
  }

  lemma LexBareLine(verb: string, operation: string, rest: string)
    requires PlainAtom(verb) && PlainAtom(operation)
    ensures Lex(BareLine(verb, operation, rest)) == [Open, Atom(verb), Atom(operation), Close] + Lex(rest)
  {
    hide Lex;
    LexMarks(rest);
    LexMarks("\n" + rest);
    LexHead(verb, operation, ")" + ("\n" + rest));
  }

  lemma LexAllowLine(operation: string, kind: string, path: string, rest: string)
    requires PlainAtom(operation) && PlainAtom(kind)
    ensures Lex(AllowLine(operation, kind, path, rest)) ==
            [Open, Atom("allow"), Atom(operation), Open, Atom(kind), Str(path), Close, Close] + Lex(rest)
  {
    hide Lex;
    LexMarks(rest);
    LexMarks("\n" + rest);
    var f := FilterText(kind, path, ")" + ("\n" + rest));
    LexFilter(kind, path, ")" + ("\n" + rest));
    LexMarks(f);
    LexHead("allow", operation, " " + f);
  }

  // ----- The text reads back as the intended rules -----

  /** Reading a line in front of a profile tail puts its rule in front of the tail's rules. */
  lemma ReadBareLine(allow: bool, operation: string, rest: string)
    requires PlainAtom(operation)
    requires ReadRules(Lex(rest)).Some?
    ensures ReadRules(Lex(BareLine(if allow then "allow" else "deny", operation, rest))) ==
            Some([Rule(allow, operation, Everything)] + ReadRules(Lex(rest)).value)
  {
    hide Lex, BareLine;
    var verb := if allow then "allow" else "deny";
    LexBareLine(verb, operation, rest);
    var t := Lex(BareLine(verb, operation, rest));
    assert t[4..] == Lex(rest);
  }

  lemma ReadAllowLine(operation: string, kind: string, path: string, rest: string)
    requires PlainAtom(operation) && kind in {"literal", "subpath"}
    requires ReadRules(Lex(rest)).Some?
    ensures ReadRules(Lex(AllowLine(operation, kind, path, rest))) ==
            Some([Rule(true, operation, ReadFilter(kind, path).value)] + ReadRules(Lex(rest)).value)
  {
    hide Lex, AllowLine;
    LexAllowLine(operation, kind, path, rest);
    var t := Lex(AllowLine(operation, kind, path, rest));
    assert t[8..] == Lex(rest);
  }

  function ReadRulesFor(kind: string, paths: seq<string>): seq<Rule>
    requires kind in {"literal", "subpath"}
  {
    if paths == [] then []
    else [Rule(true, "file-read*", ReadFilter(kind, paths[0]).value)] + ReadRulesFor(kind, paths[1..])
  }

  lemma {:induction false} ReadReadLines(kind: string, paths: seq<string>, rest: string)
    requires kind in {"literal", "subpath"}
    requires ReadRules(Lex(rest)).Some?
    ensures ReadRules(Lex(ReadLines(kind, paths, rest))) ==
            Some(ReadRulesFor(kind, paths) + ReadRules(Lex(rest)).value)
  {
    hide Lex, ReadRules, AllowLine;
    var after := ReadRules(Lex(rest)).value;
    if paths == [] {
      assert [] + after == after;
    } else {
      ReadReadLines(kind, paths[1..], rest);
      ReadAllowLine("file-read*", kind, paths[0], ReadLines(kind, paths[1..], rest));
      var head := Rule(true, "file-read*", ReadFilter(kind, paths[0]).value);
      assert [head] + (ReadRulesFor(kind, paths[1..]) + after) == ([head] + ReadRulesFor(kind, paths[1..])) + after;
    }
  }

  function WriteRules(stdout: string, stderr: string, stateDir: string): seq<Rule> {
    [Rule(false, "file-write*", Everything), Rule(true, "file-write-data", Literal(stdout)),
     Rule(true, "file-write-data", Literal(stderr)), Rule(true, "file-write*", Subpath(stateDir))]
  }

  function StrictReadRules(exe: string, input: string, stateDir: string): seq<Rule> {
    [Rule(false, "file-read*", Everything), Rule(true, "file-read*", Literal(exe)),
     Rule(true, "file-read*", Literal(input)), Rule(true, "file-read*", Subpath(stateDir))]
    + ReadRulesFor("literal", DEVICES) + ReadRulesFor("subpath", SYSTEM_ROOTS)
  }

  function IntendedRules(exe: string, input: string, stdout: string, stderr: string, stateDir: string,
                         mode: ReadMode): seq<Rule> {
    [Rule(true, "default", Everything), Rule(false, "network*", Everything)]
    + (if mode == Strict then StrictReadRules(exe, input, stateDir) else [])
    + WriteRules(stdout, stderr, stateDir)
  }

  lemma EmptyTail()
    ensures ReadRules(Lex("")) == Some([])
  {
  }

  lemma ReadWriteText(stdout: string, stderr: string, stateDir: string)
    ensures ReadRules(Lex(WriteText(stdout, stderr, stateDir))) == Some(WriteRules(stdout, stderr, stateDir))
  {
    hide Lex, ReadRules, AllowLine, BareLine;
    var l3 := AllowLine("file-write*", "subpath", stateDir, "");
    var l2 := AllowLine("file-write-data", "literal", stderr, l3);
    var l1 := AllowLine("file-write-data", "literal", stdout, l2);
    EmptyTail();
    ReadAllowLine("file-write*", "subpath", stateDir, "");
    ReadAllowLine("file-write-data", "literal", stderr, l3);
    ReadAllowLine("file-write-data", "literal", stdout, l2);
    ReadBareLine(false, "file-write*", l1);
    assert WriteRules(stdout, stderr, stateDir) ==
      [Rule(false, "file-write*", Everything)] + ([Rule(true, "file-write-data", Literal(stdout))]
      + ([Rule(true, "file-write-data", Literal(stderr))] + ([Rule(true, "file-write*", Subpath(stateDir))] + [])));
  }

  lemma ReadStrictReadText(exe: string, input: string, stateDir: string, rest: string)
    requires ReadRules(Lex(rest)).Some?
    ensures ReadRules(Lex(StrictReadText(exe, input, stateDir, rest))) ==
            Some(StrictReadRules(exe, input, stateDir) + ReadRules(Lex(rest)).value)
  {
    hide Lex, ReadRules, AllowLine, BareLine, ReadLines, ReadRulesFor;
    var l5 := ReadLines("subpath", SYSTEM_ROOTS, rest);
    var l4 := ReadLines("literal", DEVICES, l5);
    var l3 := AllowLine("file-read*", "subpath", stateDir, l4);
    var l2 := AllowLine("file-read*", "literal", input, l3);
    var l1 := AllowLine("file-read*", "literal", exe, l2);
    ReadReadLines("subpath", SYSTEM_ROOTS, rest);
    ReadReadLines("literal", DEVICES, l5);
    ReadAllowLine("file-read*", "subpath", stateDir, l4);
    ReadAllowLine("file-read*", "literal", input, l3);
    ReadAllowLine("file-read*", "literal", exe, l2);
    ReadBareLine(false, "file-read*", l1);
    assert StrictReadRules(exe, input, stateDir) + ReadRules(Lex(rest)).value ==
      [Rule(false, "file-read*", Everything)] + ([Rule(true, "file-read*", Literal(exe))]
      + ([Rule(true, "file-read*", Literal(input))] + ([Rule(true, "file-read*", Subpath(stateDir))]
      + (ReadRulesFor("literal", DEVICES) + (ReadRulesFor("subpath", SYSTEM_ROOTS) + ReadRules(Lex(rest)).value)))));
  }

  /** The profile that is written reads back as exactly the intended rules, for
      every path, including paths with quotes, backslashes and line ends. */
  lemma {:induction false} ProfileReadsBack(exe: string, input: string, stdout: string, stderr: string,
                                            stateDir: string, mode: ReadMode)
    ensures ReadProfile(Profile(exe, input, stdout, stderr, stateDir, mode)) ==
            Some(IntendedRules(exe, input, stdout, stderr, stateDir, mode))
  {
    hide Lex, ReadRules, BareLine, StrictReadText, WriteText, StrictReadRules;
    var writes := WriteText(stdout, stderr, stateDir);
    ReadWriteText(stdout, stderr, stateDir);
    if mode == Strict {
      ReadStrictReadText(exe, input, stateDir, writes);
    }
    var body := if mode == Strict then StrictReadText(exe, input, stateDir, writes) else writes;
    var l2 := BareLine("deny", "network*", body);
    var l1 := BareLine("allow", "default", l2);
    ReadBareLine(false, "network*", body);
    ReadBareLine(true, "default", l2);
    LexBareLine("version", "1", l1);
    assert Lex(BareLine("version", "1", l1))[4..] == Lex(l1);
    assert Lex(BareLine("version", "1", l1))[..4] == [Open, Atom("version"), Atom("1"), Close];
    assert IntendedRules(exe, input, stdout, stderr, stateDir, mode) ==
      [Rule(true, "default", Everything)] + ([Rule(false, "network*", Everything)] + ReadRules(Lex(body)).value);
  }

  // ----- What the rules decide -----

  datatype Request = Network | Read(path: string) | WriteData(path: string) | WriteOther(path: string) | OtherOperation

  predicate Under(path: string, dir: string) {
    path == dir || dir + "/" <= path
  }

  predicate Covers(r: Rule, q: Request) {
    match q
    case Network => r.operation in {"default", "network*"} && r.filter.Everything?
    case Read(p) => r.operation in {"default", "file-read*"} && FilterHolds(r.filter, p)
    case WriteData(p) => r.operation in {"default", "file-write*", "file-write-data"} && FilterHolds(r.filter, p)
    case WriteOther(p) => r.operation in {"default", "file-write*"} && FilterHolds(r.filter, p)
    case OtherOperation => r.operation == "default" && r.filter.Everything?
  }

  predicate FilterHolds(f: Filter, p: string) {
    match f
    case Everything => true
    case Literal(q) => p == q
    case Subpath(d) => Under(p, d)
  }

  /** The last rule that covers a request decides it; nothing covering denies it. */
  predicate Allowed(rules: seq<Rule>, q: Request) {
    rules != [] &&
    var last := rules[|rules| - 1];
    if Covers(last, q) then last.allow else Allowed(rules[..|rules| - 1], q)
  }

  predicate Covered(rules: seq<Rule>, q: Request) {
    exists r :: r in rules && Covers(r, q)
  }

  lemma CoveredConcat(a: seq<Rule>, b: seq<Rule>, q: Request)
    ensures Covered(a + b, q) <==> Covered(a, q) || Covered(b, q)
  {
    assert forall r :: r in a + b <==> r in a || r in b;
  }

  lemma CoveredOne(r: Rule, q: Request)
    ensures Covered([r], q) <==> Covers(r, q)
    ensures Allowed([r], q) <==> Covers(r, q) && r.allow
  {
    assert r in [r];
    assert [r][..0] == [];
  }

  lemma {:induction false} AllowedAfter(a: seq<Rule>, b: seq<Rule>, q: Request)
    ensures Allowed(a + b, q) == if Covered(b, q) then Allowed(b, q) else Allowed(a, q)
  {
    if b == [] {
      assert a + b == a;
    } else {
      var last, front := b[|b| - 1], b[..|b| - 1];
      assert (a + b)[|a + b| - 1] == last;
      assert (a + b)[..|a + b| - 1] == a + front;
      AllowedAfter(a, front, q);
      CoveredConcat(front, [last], q);
      CoveredOne(last, q);
      assert b == front + [last];
    }
  }

  /** Allowing rules decide by covering. */
  lemma {:induction false} AllowsDecide(rules: seq<Rule>, q: Request)
    requires forall r :: r in rules ==> r.allow
    ensures Allowed(rules, q) <==> Covered(rules, q)
  {
    if rules != [] {
      var last, front := rules[|rules| - 1], rules[..|rules| - 1];
      AllowsDecide(front, q);
      CoveredConcat(front, [last], q);
      CoveredOne(last, q);
      assert rules == front + [last];
    }
  }

  /** A denial followed by allowing rules lets through what they cover. */
  lemma DenyThenAllow(deny: Rule, allows: seq<Rule>, q: Request)
    requires !deny.allow && forall r :: r in allows ==> r.allow
    ensures Allowed([deny] + allows, q) <==> Covered(allows, q)
    ensures Covered([deny] + allows, q) <==> Covers(deny, q) || Covered(allows, q)
  {
    AllowedAfter([deny], allows, q);
    AllowsDecide(allows, q);
    CoveredOne(deny, q);
    CoveredConcat([deny], allows, q);
  }

  lemma {:induction false} ReadRulesForCover(kind: string, paths: seq<string>, q: Request)
    requires kind in {"literal", "subpath"}
    ensures Covered(ReadRulesFor(kind, paths), q) <==>
            q.Read? && exists p :: p in paths && FilterHolds(ReadFilter(kind, p).value, q.path)
    ensures forall r :: r in ReadRulesFor(kind, paths) ==> r.allow
  {
    if paths != [] {
      ReadRulesForCover(kind, paths[1..], q);
      var head := Rule(true, "file-read*", ReadFilter(kind, paths[0]).value);
      CoveredConcat([head], ReadRulesFor(kind, paths[1..]), q);
      CoveredOne(head, q);
      assert forall p :: p in paths <==> p == paths[0] || p in paths[1..];
    }
  }

  /** The plain form of the policy. */
  predicate Policy(exe: string, input: string, stdout: string, stderr: string, stateDir: string, mode: ReadMode,
                   q: Request) {
    match q
    case Network => false
    case Read(p) =>
      || mode == Ambient || p == exe || p == input || Under(p, stateDir)
      || p in ["/dev/null", "/dev/random", "/dev/urandom"]
      || Under(p, "/usr/lib") || Under(p, "/usr/share") || Under(p, "/System/Library")
      || Under(p, "/System/Volumes/Preboot/Cryptexes") || Under(p, "/Library/Apple") || Under(p, "/private/var/db")
    case WriteData(p) => p == stdout || p == stderr || Under(p, stateDir)
    case WriteOther(p) => Under(p, stateDir)
    case OtherOperation => true
  }

  lemma ThreeCover(a: Rule, b: Rule, c: Rule, q: Request)
    ensures Covered([a, b, c], q) <==> Covers(a, q) || Covers(b, q) || Covers(c, q)
  {
    assert a in [a, b, c] && b in [a, b, c] && c in [a, b, c];
  }

  lemma WriteRulesDecide(stdout: string, stderr: string, stateDir: string, q: Request)
    ensures Covered(WriteRules(stdout, stderr, stateDir), q) <==> q.WriteData? || q.WriteOther?
    ensures Allowed(WriteRules(stdout, stderr, stateDir), q) <==>
            (q.WriteData? || q.WriteOther?) &&
            (Under(q.path, stateDir) || (q.WriteData? && (q.path == stdout || q.path == stderr)))
  {
    hide Allowed;
    var w := WriteRules(stdout, stderr, stateDir);
    ThreeCover(w[1], w[2], w[3], q);
    DenyThenAllow(w[0], [w[1], w[2], w[3]], q);
    assert w == [w[0]] + [w[1], w[2], w[3]];
  }

  /** The listed devices and roots, one by one. */
  lemma ListedPaths(p: string)
    ensures p in DEVICES <==> p in ["/dev/null", "/dev/random", "/dev/urandom"]
    ensures (exists root :: root in SYSTEM_ROOTS && Under(p, root)) <==>
            || Under(p, "/usr/lib") || Under(p, "/usr/share") || Under(p, "/System/Library")
            || Under(p, "/System/Volumes/Preboot/Cryptexes") || Under(p, "/Library/Apple")
            || Under(p, "/private/var/db")
  {
    hide Under;
    var roots := SYSTEM_ROOTS;
    assert roots[0] in roots && roots[1] in roots && roots[2] in roots;
    assert roots[3] in roots && roots[4] in roots && roots[5] in roots;
  }

  lemma StrictReadRulesDecide(exe: string, input: string, stateDir: string, q: Request)
    ensures Covered(StrictReadRules(exe, input, stateDir), q) <==> q.Read?
    ensures Allowed(StrictReadRules(exe, input, stateDir), q) <==>
            q.Read? && Policy(exe, input, "", "", stateDir, Strict, q)
  {
    hide Allowed, Covered, ReadRulesFor, Under;
    if q.Read? {
      ListedPaths(q.path);
    }
    var deny := Rule(false, "file-read*", Everything);
    var a, b, c := Rule(true, "file-read*", Literal(exe)), Rule(true, "file-read*", Literal(input)),
      Rule(true, "file-read*", Subpath(stateDir));
    var devices, roots := ReadRulesFor("literal", DEVICES), ReadRulesFor("subpath", SYSTEM_ROOTS);
    ThreeCover(a, b, c, q);
    ReadRulesForCover("literal", DEVICES, q);
    ReadRulesForCover("subpath", SYSTEM_ROOTS, q);
    CoveredConcat([a, b, c], devices, q);
    CoveredConcat([a, b, c] + devices, roots, q);
    DenyThenAllow(deny, [a, b, c] + devices + roots, q);
    assert StrictReadRules(exe, input, stateDir) == [deny] + ([a, b, c] + devices + roots);
  }

  /** Under a last-match-wins reading the written profile is the plain policy:
      no network, writes only to the two output files' data and the state
      directory, and in strict mode reads only from the listed paths. */
  lemma {:induction false} ProfileDecidesPolicy(exe: string, input: string, stdout: string, stderr: string,
                                                stateDir: string, mode: ReadMode, q: Request)
    ensures ReadProfile(Profile(exe, input, stdout, stderr, stateDir, mode)).Some?
    ensures Allowed(ReadProfile(Profile(exe, input, stdout, stderr, stateDir, mode)).value, q) <==>
            Policy(exe, input, stdout, stderr, stateDir, mode, q)
  {
    hide Lex, ReadRules, BareLine, StrictReadText, WriteText, StrictReadRules, WriteRules, ReadProfile, Profile,
        Allowed;
    ProfileReadsBack(exe, input, stdout, stderr, stateDir, mode);
    var base := [Rule(true, "default", Everything), Rule(false, "network*", Everything)];
    var reading := if mode == Strict then StrictReadRules(exe, input, stateDir) else [];
    AllowedAfter(base, reading, q);
    AllowedAfter(base + reading, WriteRules(stdout, stderr, stateDir), q);
    WriteRulesDecide(stdout, stderr, stateDir, q);
    StrictReadRulesDecide(exe, input, stateDir, q);
    AllowedAfter([base[0]], [base[1]], q);
    CoveredOne(base[0], q);
    CoveredOne(base[1], q);
    assert base == [base[0]] + [base[1]];
  }
}
