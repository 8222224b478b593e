// Text primitives shared by the persisted formats: the one-character replaces
// the escapers chain, the reader that undoes them, decimal numerals, and the
// tab and line framing of the stores.
module Text {

  datatype Option<+T> = None | Some(value: T)

  predicate Absent(s: string, c: char) {
    forall i :: 0 <= i < |s| ==> s[i] != c
  }

  predicate OneLine(s: string) { Absent(s, '\n') && Absent(s, '\r') }

  /** One line without a tab: what a cell of a row may hold. */
  predicate Clean(s: string) { OneLine(s) && Absent(s, '\t') }

  // ----- Escaping -----

  /** `str::replace` with a one-character pattern. */
  function Replace(s: string, pattern: char, into: string): string {
    if s == [] then []
    else (if s[0] == pattern then into else [s[0]]) + Replace(s[1..], pattern, into)
  }

  lemma {:induction false} ReplaceConcat(a: string, b: string, pattern: char, into: string)
    ensures Replace(a + b, pattern, into) == Replace(a, pattern, into) + Replace(b, pattern, into)
  {
    if a == [] {
      assert a + b == b;
    } else {
      assert (a + b)[1..] == a[1..] + b;
      ReplaceConcat(a[1..], b, pattern, into);
    }
  }

  /** The four whole-string replaces, in the order the code chains them. */
  function EscapeField(s: string): string {
    Replace(Replace(Replace(Replace(s, '\\', "\\\\"), '\t', "\\t"), '\n', "\\n"), '\r', "\\r")
  }

  function EscapeChar(c: char): string {
    if c == '\\' then "\\\\"
    else if c == '\t' then "\\t"
    else if c == '\n' then "\\n"
    else if c == '\r' then "\\r"
    else [c]
  }

  function EscapeEach(s: string): string {
    if s == [] then [] else EscapeChar(s[0]) + EscapeEach(s[1..])
  }

  lemma ReplaceShort(s: string, pattern: char, into: string)
    ensures |s| == 1 ==> Replace(s, pattern, into) == if s[0] == pattern then into else s
    ensures |s| == 2 ==> Replace(s, pattern, into) ==
                         (if s[0] == pattern then into else [s[0]]) + (if s[1] == pattern then into else [s[1]])
  {
    if |s| == 1 {
      assert s[1..] == [];
    } else if |s| == 2 {
      assert s[1..][1..] == [];
      assert s[1..] == [s[1]];
    }
  }

  lemma EscapeOneChar(c: char)
    ensures EscapeField([c]) == EscapeChar(c)
  {
    var s1 := Replace([c], '\\', "\\\\");
    ReplaceShort([c], '\\', "\\\\");
    ReplaceShort(s1, '\t', "\\t");
    var s2 := Replace(s1, '\t', "\\t");
    ReplaceShort(s2, '\n', "\\n");
    var s3 := Replace(s2, '\n', "\\n");
    ReplaceShort(s3, '\r', "\\r");
  }

  lemma EscapeFieldConcat(a: string, b: string)
    ensures EscapeField(a + b) == EscapeField(a) + EscapeField(b)
  {
    ReplaceConcat(a, b, '\\', "\\\\");
    var a1, b1 := Replace(a, '\\', "\\\\"), Replace(b, '\\', "\\\\");
    ReplaceConcat(a1, b1, '\t', "\\t");
    var a2, b2 := Replace(a1, '\t', "\\t"), Replace(b1, '\t', "\\t");
    ReplaceConcat(a2, b2, '\n', "\\n");
    ReplaceConcat(Replace(a2, '\n', "\\n"), Replace(b2, '\n', "\\n"), '\r', "\\r");
  }

  /** The chain of replaces is a single left-to-right pass: no replace ever
      rewrites the output of an earlier one. */
  lemma {:induction false} ChainIsOnePass(s: string)
    ensures EscapeField(s) == EscapeEach(s)
  {
    if s != [] {
      assert s == [s[0]] + s[1..];
      EscapeFieldConcat([s[0]], s[1..]);
      EscapeOneChar(s[0]);
      ChainIsOnePass(s[1..]);
    }
  }

  /** The lenient reader of the quarantine stores: an unknown escape is kept as
      written and a trailing backslash stands for itself. */
  function Unescape(s: string): string {
    if s == [] then []
    else if s[0] != '\\' then [s[0]] + Unescape(s[1..])
    else if |s| == 1 then "\\"
    else
      (match s[1]
       case 't' => "\t"
       case 'n' => "\n"
       case 'r' => "\r"
       case '\\' => "\\"
       case other => ['\\', other]) + Unescape(s[2..])
  }

  /** One escaped character is read off whole, whatever follows it. */
  lemma UnescapeStep(c: char, rest: string)
    ensures Unescape(EscapeChar(c) + rest) == [c] + Unescape(rest)
  {
    var head := EscapeChar(c);
    assert (head + rest)[|head|..] == rest;
    assert forall i :: 0 <= i < |head| ==> (head + rest)[i] == head[i];
  }

  lemma {:induction false} UnescapeEach(s: string)
    ensures Unescape(EscapeEach(s)) == s
  {
    if s != [] {
      UnescapeEach(s[1..]);
      UnescapeStep(s[0], EscapeEach(s[1..]));
    }
  }

  lemma {:induction false} EscapedIsPlain(s: string)
    ensures Absent(EscapeEach(s), '\t') && Absent(EscapeEach(s), '\n') && Absent(EscapeEach(s), '\r')
  {
    if s != [] {
      EscapedIsPlain(s[1..]);
    }
  }

  /** What the four replaces promise a reader of the stores and of the rows. */
  lemma EscapeFieldRoundTrip(s: string)
    ensures Unescape(EscapeField(s)) == s
    ensures Absent(EscapeField(s), '\t') && Absent(EscapeField(s), '\n') && Absent(EscapeField(s), '\r')
  {
    ChainIsOnePass(s);
    UnescapeEach(s);
    EscapedIsPlain(s);
  }

  // ----- Framing -----

  function Join(parts: seq<string>, sep: string): string {
    if parts == [] then []
    else if |parts| == 1 then parts[0]
    else parts[0] + sep + Join(parts[1..], sep)
  }

  lemma {:induction false} JoinSnoc(parts: seq<string>, last: string, sep: string)
    requires parts != []
    ensures Join(parts + [last], sep) == Join(parts, sep) + sep + last
  {
    if |parts| == 1 {
      assert (parts + [last])[1..] == [last];
    } else {
      assert (parts + [last])[1..] == parts[1..] + [last];
      JoinSnoc(parts[1..], last, sep);
    }
  }

  /** The index of the first `c`, or the length when there is none. */
  function Find(s: string, c: char): (k: nat)
    ensures k <= |s|
    ensures Absent(s[..k], c)
    ensures k < |s| ==> s[k] == c
  {
    if s == [] || s[0] == c then 0 else Find(s[1..], c) + 1
  }

  /** `str::split` on one character: always at least one piece. */
  function Split(s: string, c: char): (parts: seq<string>)
    ensures |parts| >= 1
    decreases |s|
  {
    var k := Find(s, c);
    if k == |s| then [s] else [s[..k]] + Split(s[k + 1..], c)
  }

  lemma FindAfterPiece(a: string, rest: string, c: char)
    requires Absent(a, c)
    ensures Find(a, c) == |a|
    ensures Find(a + [c] + rest, c) == |a|
  {
    var s := a + [c] + rest;
    var k := Find(s, c);
    assert s[|a|] == c;
    assert forall i :: 0 <= i < |a| ==> s[i] == a[i];
    assert forall i :: 0 <= i < k ==> s[..k][i] == s[i];
  }

  lemma SplitPiece(a: string, rest: string, c: char)
    requires Absent(a, c)
    ensures Split(a, c) == [a]
    ensures Split(a + [c] + rest, c) == [a] + Split(rest, c)
  {
    FindAfterPiece(a, rest, c);
    assert (a + [c] + rest)[..|a|] == a;
    assert (a + [c] + rest)[|a| + 1..] == rest;
  }

  lemma SplitJoinCons(head: string, tail: seq<string>, c: char)
    requires tail != [] && Absent(head, c)
    requires Split(Join(tail, [c]), c) == tail
    ensures Split(Join([head] + tail, [c]), c) == [head] + tail
  {
    assert ([head] + tail)[1..] == tail;
    SplitPiece(head, Join(tail, [c]), c);
  }

  lemma {:induction false} SplitJoin(parts: seq<string>, c: char)
    requires parts != []
    requires forall i :: 0 <= i < |parts| ==> Absent(parts[i], c)
    ensures Split(Join(parts, [c]), c) == parts
  {
    if |parts| == 1 {
      SplitPiece(parts[0], [], c);
    } else {
      SplitJoin(parts[1..], c);
      SplitJoinCons(parts[0], parts[1..], c);
      assert parts == [parts[0]] + parts[1..];
    }
  }

  // ----- Decimal numerals -----

  const DIGITS: string := "0123456789"
  const HEX: string := "0123456789abcdef"

  predicate IsDigit(c: char) { '0' <= c <= '9' }

  predicate AllDigits(s: string) {
    forall i :: 0 <= i < |s| ==> IsDigit(s[i])
  }

  function Dec(n: nat): (s: string)
    ensures |s| > 0 && AllDigits(s)
  {
    if n < 10 then [DIGITS[n]] else Dec(n / 10) + [DIGITS[n % 10]]
  }

  function DigitsValue(s: string): nat
    requires AllDigits(s)
  {
    if s == [] then 0 else DigitsValue(s[..|s| - 1]) * 10 + (s[|s| - 1] as int - '0' as int)
  }

  lemma {:induction false} DecValue(n: nat)
    ensures DigitsValue(Dec(n)) == n
  {
    if n >= 10 {
      DecValue(n / 10);
      assert Dec(n)[..|Dec(n)| - 1] == Dec(n / 10);
    } else {
      assert Dec(n)[..0] == [];
    }
  }

  lemma DecInjective(a: nat, b: nat)
    requires Dec(a) == Dec(b)
    ensures a == b
  {
    DecValue(a);
    DecValue(b);
  }

  /** `str::parse` for an unsigned integer type whose largest value is `max`:
      an optional plus sign, at least one digit, nothing else, no overflow. */
  function ParseUnsigned(s: string, max: nat): Option<nat> {
    var digits := if s != [] && s[0] == '+' then s[1..] else s;
    if digits != [] && AllDigits(digits) && DigitsValue(digits) <= max
    then Some(DigitsValue(digits)) else None
  }

  lemma {:induction false} ParseDec(n: nat, max: nat)
    ensures ParseUnsigned(Dec(n), max) == if n <= max then Some(n) else None
  {
    DecValue(n);
    assert IsDigit(Dec(n)[0]);
  }

  // ----- Trimming -----

  /** The Unicode White_Space property, which `str::trim` uses. */
  predicate IsWhitespace(c: char) {
    var n := c as int;
    9 <= n <= 13 || n == 32 || n == 0x85 || n == 0xA0 || n == 0x1680 || 0x2000 <= n <= 0x200A
    || n == 0x2028 || n == 0x2029 || n == 0x202F || n == 0x205F || n == 0x3000
  }

  function TrimStart(s: string): string {
    if s != [] && IsWhitespace(s[0]) then TrimStart(s[1..]) else s
  }

  function TrimEnd(s: string): string {
    if s != [] && IsWhitespace(s[|s| - 1]) then TrimEnd(s[..|s| - 1]) else s
  }

  function Trim(s: string): string {
    TrimEnd(TrimStart(s))
  }

  predicate Blank(s: string) {
    forall i :: 0 <= i < |s| ==> IsWhitespace(s[i])
  }

  lemma {:induction false} TrimStartRemoves(s: string)
    ensures TrimStart(s) == [] <==> Blank(s)
    ensures TrimStart(s) != [] ==> !IsWhitespace(TrimStart(s)[0])
  {
    if s != [] && IsWhitespace(s[0]) {
      TrimStartRemoves(s[1..]);
      assert forall i :: 1 <= i < |s| ==> s[i] == s[1..][i - 1];
    }
  }

  lemma {:induction false} TrimEndKeeps(s: string)
    requires s != [] && !IsWhitespace(s[0])
    ensures TrimEnd(s) != []
  {
    if IsWhitespace(s[|s| - 1]) {
      TrimEndKeeps(s[..|s| - 1]);
    }
  }

  /** Exactly the blank texts trim to nothing. */
  lemma TrimIsEmptyIff(s: string)
    ensures Trim(s) == [] <==> Blank(s)
  {
    TrimStartRemoves(s);
    if TrimStart(s) != [] {
      TrimEndKeeps(TrimStart(s));
    }
  }

  /** Trimming takes blank ends off and nothing else. */
  lemma TrimTakesBlankEnds(s: string) returns (pre: string, post: string)
    ensures s == pre + Trim(s) + post && Blank(pre) && Blank(post)
    ensures Trim(s) != [] ==> !IsWhitespace(Trim(s)[0]) && !IsWhitespace(Trim(s)[|Trim(s)| - 1])
  {
    var body := TrimStart(s);
    pre := TrimStartSplits(s);
    TrimStartRemoves(s);
    post := TrimEndSplits(body);
  }

  lemma {:induction false} TrimStartSplits(s: string) returns (pre: string)
    ensures s == pre + TrimStart(s) && Blank(pre)
  {
    pre := [];
    if s != [] && IsWhitespace(s[0]) {
      var rest := TrimStartSplits(s[1..]);
      pre := [s[0]] + rest;
    }
  }

  lemma {:induction false} TrimEndSplits(s: string) returns (post: string)
    ensures s == TrimEnd(s) + post && Blank(post)
    ensures TrimEnd(s) != [] ==> !IsWhitespace(TrimEnd(s)[|TrimEnd(s)| - 1]) && TrimEnd(s)[0] == s[0]
  {
    post := [];
    if s != [] && IsWhitespace(s[|s| - 1]) {
      var rest := TrimEndSplits(s[..|s| - 1]);
      post := rest + [s[|s| - 1]];
    }
  }

  /** Blank ends around a text that has none are exactly what trimming takes off. */
  lemma TrimOfPadded(pre: string, s: string, post: string)
    requires Blank(pre) && Blank(post)
    requires s != [] && !IsWhitespace(s[0]) && !IsWhitespace(s[|s| - 1])
    ensures Trim(pre + s + post) == s
  {
    assert pre + s + post == pre + (s + post);
    TrimStartOfPadded(pre, s + post);
    TrimEndOfPadded(s, post);
  }

  lemma {:induction false} TrimStartOfPadded(pre: string, s: string)
    requires Blank(pre) && s != [] && !IsWhitespace(s[0])
    ensures TrimStart(pre + s) == s
  {
    if pre == [] {
      assert pre + s == s;
    } else {
      assert (pre + s)[1..] == pre[1..] + s;
      TrimStartOfPadded(pre[1..], s);
    }
  }

  lemma {:induction false} TrimEndOfPadded(s: string, post: string)
    requires Blank(post) && s != [] && !IsWhitespace(s[|s| - 1])
    ensures TrimEnd(s + post) == s
  {
    if post == [] {
      assert s + post == s;
    } else {
      var front := post[..|post| - 1];
      assert (s + post)[..|s + post| - 1] == s + front;
      TrimEndOfPadded(s, front);
    }
  }

  // ----- Searching -----

  /** `to_ascii_lowercase`. */
  function LowerChar(c: char): char {
    if 'A' <= c <= 'Z' then (c as int + 32) as char else c
  }

  function Lower(s: string): string {
    seq(|s|, i requires 0 <= i < |s| => LowerChar(s[i]))
  }

  /** `str::contains`. */
  predicate Contains(s: string, part: string) {
    part <= s || (s != [] && Contains(s[1..], part))
  }

  lemma {:induction false} ContainsAt(s: string, part: string, i: nat)
    requires i + |part| <= |s| && s[i..i + |part|] == part
    ensures Contains(s, part)
  {
    if i > 0 {
      assert s[1..][i - 1..i - 1 + |part|] == part;
      ContainsAt(s[1..], part, i - 1);
    }
  }

  lemma {:induction false} ContainedAt(s: string, part: string) returns (i: nat)
    requires Contains(s, part)
    ensures i + |part| <= |s| && s[i..i + |part|] == part
  {
    if part <= s {
      i := 0;
    } else {
      var j := ContainedAt(s[1..], part);
      i := j + 1;
      assert s[i..i + |part|] == s[1..][j..j + |part|];
    }
  }
}
